/** The HelenOS side of the build (hbuild/builders/helenos.py): the manager
    that submits each "extra" build (HelenOS with some harbours unpacked)
    at most once, the discovery and filtering of build profiles, the
    submission of one HelenOS build per profile, and the data a finished
    build hands to the tasks depending on it.

    The directory listing of `defaults/` and the `output` files are inputs;
    commands are reduced to whether they failed. */
module HelenOS {
  import opened Wrappers
  import opened Strings
  import opened Tasks
  import opened Names
  import Seqs
  import Dicts
  import opened Scheduler
  import opened SchedulerInvariants
  import opened Submissions

  // ---------------------------------------------------------------------------
  // HelenOSExtraBuildsManager

  /** The manager: the keys scheduled so far, and the build maps handed over
      by `set_dependent_tasks` (profile to HelenOS build task; profile to
      harbour to harbour build task). */
  datatype ExtraBuilds = ExtraBuilds(scheduled: seq<string>, helenosTasks: map<string, string>,
                                     coastlineTasks: map<string, map<string, string>>)

  function NewExtraBuilds(): ExtraBuilds {
    ExtraBuilds([], map[], map[])
  }

  function SetDependentTasks(m: ExtraBuilds, helenosTasks: map<string, string>,
                             coastlineTasks: map<string, map<string, string>>): ExtraBuilds {
    m.(helenosTasks := helenosTasks, coastlineTasks := coastlineTasks)
  }

  /** The task id of the extra build of `profile` with the (sorted) harbours. */
  function ExtraKey(profile: string, sortedHarbours: seq<string>): string {
    "extra-" + Flat(profile) + "-with-" + Join(sortedHarbours, "-")
  }

  function ExtrasMutex(profile: string): string {
    "extras-" + profile
  }

  /** One `build` call: the manager afterwards, the returned key (None for
      Python's None) and the submission it made, if any. */
  datatype BuildCall = BuildCall(manager: ExtraBuilds, key: Option<string>, sub: Option<Submission>)

  /** Every task `build` looks up is there. */
  predicate Buildable(m: ExtraBuilds, profile: string, harbours: seq<string>) {
    profile in m.helenosTasks && profile in m.coastlineTasks
    && forall h :: h in harbours ==> h in m.coastlineTasks[profile]
  }

  /** The loop collecting the harbour build tasks, in order; None when one is missing. */
  function HarbourTasks(tasks: map<string, string>, hs: seq<string>): (r: Option<seq<string>>)
    ensures r.Some? <==> forall h :: h in hs ==> h in tasks
    ensures r.Some? ==> |r.value| == |hs| && forall i :: 0 <= i < |hs| ==> r.value[i] == tasks[hs[i]]
    decreases |hs|
  {
    if |hs| == 0 then Some([])
    else if hs[0] !in tasks then None
    else
      match HarbourTasks(tasks, hs[1..])
      case None =>
        assert forall h :: h in hs[1..] ==> h in hs;
        None
      case Some(rest) =>
        assert forall h :: h in hs ==> h == hs[0] || h in hs[1..];
        Some([tasks[hs[0]]] + rest)
  }

  /** `HelenOSExtraBuildsManager.build`. */
  function Build(m: ExtraBuilds, profile: string, harbours: seq<string>): (r: BuildCall)
    ensures r.key.Some? ==> r.key.value == ExtraKey(profile, Seqs.Sort(harbours))
    ensures r.key.None? <==> ExtraKey(profile, Seqs.Sort(harbours)) !in m.scheduled && !Buildable(m, profile, harbours)
    ensures r.sub.Some? <==> ExtraKey(profile, Seqs.Sort(harbours)) !in m.scheduled && Buildable(m, profile, harbours)
    ensures r.sub.None? ==> r.manager == m
    ensures r.sub.Some? ==>
              var hs := Seqs.Sort(harbours);
              var sub := r.sub.value;
              r.manager == m.(scheduled := m.scheduled + [sub.id])
              && sub.id == ExtraKey(profile, hs)
              && |sub.deps| == |hs| + 1 && sub.deps[0] == m.helenosTasks[profile]
              && (forall i :: 0 <= i < |hs| ==> sub.deps[i + 1] == m.coastlineTasks[profile][hs[i]])
              && sub.mutexes == [ExtrasMutex(profile)]
              && sub.work == ExtraBuildWork(profile, hs)
  {
    var hs := Seqs.Sort(harbours);
    var key := ExtraKey(profile, hs);
    if key in m.scheduled then BuildCall(m, Some(key), None)
    else if profile !in m.helenosTasks then BuildCall(m, None, None)
    else if profile !in m.coastlineTasks then BuildCall(m, None, None)
    else
      match HarbourTasks(m.coastlineTasks[profile], hs)
      case None => BuildCall(m, None, None)
      case Some(harbourTasks) =>
        var sub := Submission("Special build of " + profile + " with " + Join(hs, ","), key,
                              ExtraBuildWork(profile, hs), [m.helenosTasks[profile]] + harbourTasks,
                              [ExtrasMutex(profile)]);
        BuildCall(m.(scheduled := m.scheduled + [key]), Some(key), Some(sub))
  }

  /** Asking again for the same profile and the same harbours, in any order,
      returns the key of the first call and submits nothing. */
  lemma BuildAgainSubmitsNothing(m: ExtraBuilds, profile: string, harbours: seq<string>, again: seq<string>)
    requires multiset(again) == multiset(harbours)
    requires Build(m, profile, harbours).key.Some?
    ensures var first := Build(m, profile, harbours);
            Build(first.manager, profile, again) == BuildCall(first.manager, first.key, None)
  {
    Seqs.SortPermutationInvariant(again, harbours);
  }

  /** One `build` call: the manager after it and the submission it made, if any. */
  function BuildStep(m: ExtraBuilds, call: (string, seq<string>)): (r: (ExtraBuilds, seq<Submission>))
    ensures r.0.scheduled == m.scheduled + Ids(r.1)
    ensures |r.1| <= 1 && forall sub :: sub in r.1 ==> sub.id !in m.scheduled
  {
    var c := Build(m, call.0, call.1);
    var made := if c.sub.Some? then [c.sub.value] else [];
    assert Ids(made) == if c.sub.Some? then [c.sub.value.id] else [];
    (c.manager, made)
  }

  /** A sequence of `build` calls: the manager at the end and the submissions made. */
  function BuildAll(m: ExtraBuilds, calls: seq<(string, seq<string>)>): (r: (ExtraBuilds, seq<Submission>))
    decreases |calls|
  {
    if |calls| == 0 then (m, [])
    else
      var c := BuildStep(m, calls[0]);
      var rest := BuildAll(c.0, calls[1..]);
      (rest.0, c.1 + rest.1)
  }

  /** However the calls go, the manager records exactly the keys submitted,
      and no key is submitted twice. */
  lemma {:induction false} AtMostOneSubmitPerKey(m: ExtraBuilds, calls: seq<(string, seq<string>)>)
    requires Seqs.NoDup(m.scheduled)
    ensures var r := BuildAll(m, calls);
            r.0.scheduled == m.scheduled + Ids(r.1) && Seqs.NoDup(r.0.scheduled)
    decreases |calls|
  {
    if |calls| > 0 {
      var c := BuildStep(m, calls[0]);
      var rest := BuildAll(c.0, calls[1..]);
      assert BuildAll(m, calls) == (rest.0, c.1 + rest.1);
      StepKeepsNoDup(m.scheduled, c.1);
      AtMostOneSubmitPerKey(c.0, calls[1..]);
      assert rest.0.scheduled == m.scheduled + Ids(c.1 + rest.1) by {
        IdsAppend(c.1, rest.1);
        RecordsConcat(m.scheduled, Ids(c.1), c.0.scheduled, Ids(rest.1), rest.0.scheduled);
      }
    } else {
      assert Ids([]) == [];
      assert m.scheduled + [] == m.scheduled;
    }
  }

  lemma RecordsConcat(s0: seq<string>, a: seq<string>, s1: seq<string>, b: seq<string>, s2: seq<string>)
    requires s1 == s0 + a && s2 == s1 + b
    ensures s2 == s0 + (a + b)
  {
  }

  /** Recording at most one new key keeps the record duplicate-free. */
  lemma StepKeepsNoDup(scheduled: seq<string>, made: seq<Submission>)
    requires Seqs.NoDup(scheduled) && |made| <= 1 && forall sub :: sub in made ==> sub.id !in scheduled
    ensures Seqs.NoDup(scheduled + Ids(made))
  {
    if |made| == 1 {
      assert made[0] in made;
      Seqs.NoDupInsert(scheduled, |scheduled|, made[0].id);
      assert scheduled[..|scheduled|] + [made[0].id] + scheduled[|scheduled|..] == scheduled + Ids(made);
    } else {
      assert scheduled + Ids(made) == scheduled;
    }
  }

  /** The key joins the sorted names with '-', so harbour sets whose names
      contain '-' can share a key: asking for harbour `a-b` after `a` and `b`
      returns the key of the build with `a` and `b`. */
  lemma HyphenatedHarbourSharesKey()
    ensures var m := ExtraBuilds([], map["ia32" := "helenos-build-ia32"],
                                 map["ia32" := map["a" := "coastline-build-a-for-ia32", "b" := "coastline-build-b-for-ia32"]]);
            var first := Build(m, "ia32", ["b", "a"]);
            first.sub.Some? && Build(first.manager, "ia32", ["a-b"]) == BuildCall(first.manager, first.key, None)
  {
    assert Seqs.LexLe("a", "b");
    assert Seqs.Sort(["b", "a"]) == ["a", "b"];
    assert Seqs.Sort(["a-b"]) == ["a-b"];
    assert Join(["a", "b"], "-") == "a-b";
  }

  // ---------------------------------------------------------------------------
  // HelenOSGetProfilesTask

  /** A sub-directory of an entry of `defaults/`. `isProfile`: it is a
      directory holding a regular file `Makefile.config`; `output`: the
      content of its `output` file, None when that cannot be read. */
  datatype SubDir = SubDir(name: string, isProfile: bool, output: Option<string>)

  /** An entry of `defaults/`, with its sub-directories in listing order. */
  datatype TopDir = TopDir(name: string, isProfile: bool, output: Option<string>, subs: seq<SubDir>)

  /** A directory listing: no name twice, and no name contains '/'. */
  predicate Listing(es: seq<TopDir>) {
    (forall a, b :: 0 <= a < b < |es| ==> es[a].name != es[b].name)
    && forall a :: 0 <= a < |es| ==> '/' !in es[a].name
  }

  /** The profiles whose image is forced to `uImage.bin`. */
  const UImageProfiles := ["arm32/beagleboardxm", "arm32/beaglebone", "arm32/gta02", "arm32/raspberrypi"]
  const UImage := "uImage.bin"

  function SubName(t: TopDir, s: SubDir): string {
    t.name + "/" + s.name
  }

  predicate HasSubprofile(t: TopDir) {
    exists j :: 0 <= j < |t.subs| && t.subs[j].isProfile
  }

  /** `get_output_filename(root, name, subname)` with the arm32 hack applied. */
  function SubOutput(t: TopDir, s: SubDir): Option<string> {
    if SubName(t, s) in UImageProfiles then Some(UImage)
    else if s.output.Some? then s.output
    else t.output
  }

  /** The assignments to `profiles` made while scanning the sub-directories `subs` of `t`. */
  function SubPairs(t: TopDir, subs: seq<SubDir>): (r: Dicts.Dict<Option<string>>)
    ensures |r| == 0 <==> forall j :: 0 <= j < |subs| ==> !subs[j].isProfile
    ensures forall p :: p in Dicts.Keys(r) <==> exists j :: 0 <= j < |subs| && subs[j].isProfile && p == SubName(t, subs[j])
    ensures forall x :: x in r && x.0 in UImageProfiles ==> x.1 == Some(UImage)
    ensures forall p :: p in Dicts.Keys(r) ==> '/' in p
    decreases |subs|
  {
    if |subs| == 0 then []
    else
      var rest := SubPairs(t, subs[1..]);
      assert forall j :: 0 < j < |subs| ==> subs[j] == subs[1..][j - 1];
      var n := SubName(t, subs[0]);
      assert n[|t.name|] == '/';
      if subs[0].isProfile then
        var r := [(n, SubOutput(t, subs[0]))] + rest;
        assert Dicts.Keys(r) == [n] + Dicts.Keys(rest);
        r
      else
        rest
  }

  /** The assignments to `profiles` made for one entry of `defaults/`. */
  function EntryPairs(t: TopDir): (r: Dicts.Dict<Option<string>>)
    ensures forall p :: p in Dicts.Keys(r) <==>
              t.isProfile && (if HasSubprofile(t) then exists j :: 0 <= j < |t.subs| && t.subs[j].isProfile && p == SubName(t, t.subs[j])
                              else p == t.name)
    ensures forall x :: x in r && x.0 in UImageProfiles && x.0 != t.name ==> x.1 == Some(UImage)
    ensures '/' !in t.name ==> t.name !in Dicts.Keys(r) || !HasSubprofile(t)
  {
    if !t.isProfile then []
    else
      var sub := SubPairs(t, t.subs);
      if |sub| > 0 then sub
      else
        assert Dicts.Keys([(t.name, t.output)]) == [t.name];
        [(t.name, t.output)]
  }

  /** All assignments to `profiles`, in the order the scan makes them. */
  function ListingPairs(es: seq<TopDir>): (r: Dicts.Dict<Option<string>>)
    ensures forall p :: p in Dicts.Keys(r) <==> exists i :: 0 <= i < |es| && p in Dicts.Keys(EntryPairs(es[i]))
    ensures forall x :: x in r ==> exists i :: 0 <= i < |es| && x in EntryPairs(es[i])
    decreases |es|
  {
    if |es| == 0 then []
    else
      var rest := ListingPairs(es[1..]);
      assert forall i :: 0 < i < |es| ==> es[i] == es[1..][i - 1];
      var r := EntryPairs(es[0]) + rest;
      assert Dicts.Keys(r) == Dicts.Keys(EntryPairs(es[0])) + Dicts.Keys(rest);
      r
  }

  /** The `profiles` dict built by the scan of `defaults/`. */
  function Profiles(es: seq<TopDir>): (r: Dicts.Dict<Option<string>>)
    ensures Seqs.NoDup(Dicts.Keys(r))
    ensures forall p :: p in Dicts.Keys(r) <==> exists i :: 0 <= i < |es| && p in Dicts.Keys(EntryPairs(es[i]))
  {
    assert Dicts.Keys<Option<string>>([]) == [];
    Dicts.PutAll([], ListingPairs(es))
  }

  /** An entry with a sub-profile is represented by its sub-profiles only. */
  lemma ParentWithSubprofileNotListed(es: seq<TopDir>, i: nat)
    requires Listing(es)
    requires i < |es| && HasSubprofile(es[i])
    ensures es[i].name !in Dicts.Keys(Profiles(es))
  {
  }

  /** Every assignment to one of the four arm32 boards assigns `uImage.bin`. */
  lemma UImagePairs(es: seq<TopDir>, p: string)
    requires Listing(es) && p in UImageProfiles
    ensures forall x :: x in ListingPairs(es) && x.0 == p ==> x.1 == Some(UImage)
  {
    forall x | x in ListingPairs(es) && x.0 == p ensures x.1 == Some(UImage) {
      var i :| 0 <= i < |es| && x in EntryPairs(es[i]);
      assert '/' in p;
      assert x.0 != es[i].name;
    }
  }

  /** The four arm32 boards always get `uImage.bin` as their image. */
  lemma UImageProfilesForced(es: seq<TopDir>, p: string)
    requires Listing(es)
    requires p in UImageProfiles && p in Dicts.Keys(Profiles(es))
    ensures Dicts.Get(Profiles(es), p) == Some(Some(UImage))
  {
    var pairs := ListingPairs(es);
    UImagePairs(es, p);
    Dicts.PutAllGet([], pairs, p);
    Dicts.LastValueUniform(pairs, p, Some(UImage));
  }

  /** `p.split('/')[0]`. */
  function FirstSegment(p: string): (r: string)
    ensures Seqs.Subseq(r, p) && |r| <= |p| && p[..|r|] == r
    ensures '/' !in r
    ensures r == p || p[|r|] == '/'
    decreases |p|
  {
    if |p| == 0 || p[0] == '/' then []
    else
      var rest := FirstSegment(p[1..]);
      assert p == [p[0]] + p[1..];
      assert Seqs.Subseq([p[0]] + rest, p) by { assert ([p[0]] + rest)[1..] == rest; }
      [p[0]] + rest
  }

  /** The first segment of `family/rest` is `family`. */
  lemma {:induction false} FirstSegmentOf(family: string, rest: string)
    requires '/' !in family
    ensures FirstSegment(family + "/" + rest) == family
    decreases |family|
  {
    var p := family + "/" + rest;
    if |family| > 0 {
      assert p[1..] == family[1..] + "/" + rest;
      FirstSegmentOf(family[1..], rest);
      assert family == [family[0]] + family[1..];
    } else {
      assert p[0] == '/';
    }
  }

  /** The profile filter: 'ALL', the profile itself, or the wildcard made of its first segment and `/` followed by a star. */
  predicate Wanted(filter: seq<string>, p: string) {
    "ALL" in filter || p in filter || FirstSegment(p) + "/*" in filter
  }

  /** The filtering loop of `HelenOSGetProfilesTask.run`. */
  function FilterProfiles(d: Dicts.Dict<Option<string>>, filter: seq<string>): (r: Dicts.Dict<Option<string>>)
    ensures forall p :: p in Dicts.Keys(r) <==> p in Dicts.Keys(d) && Wanted(filter, p)
    ensures forall p :: p in Dicts.Keys(r) ==> Dicts.Get(r, p) == Dicts.Get(d, p)
    ensures Seqs.Subseq(r, d)
    decreases |d|
  {
    if |d| == 0 then []
    else
      var rest := FilterProfiles(d[1..], filter);
      assert Dicts.Keys(d) == [d[0].0] + Dicts.Keys(d[1..]);
      if Wanted(filter, d[0].0) then
        var r := [d[0]] + rest;
        assert Dicts.Keys(r) == [d[0].0] + Dicts.Keys(rest);
        assert r[1..] == rest;
        r
      else
        assert |rest| > 0 ==> Dicts.Keys(rest)[0] == rest[0].0 && rest[0] != d[0];
        rest
  }

  /** `HelenOSGetProfilesTask.run`: the `profiles` entry of its result. */
  function GetProfiles(es: seq<TopDir>, filter: seq<string>): (r: Dicts.Dict<Option<string>>)
    ensures Seqs.NoDup(Dicts.Keys(r))
    ensures forall p :: p in Dicts.Keys(r) <==> p in Dicts.Keys(Profiles(es)) && Wanted(filter, p)
    ensures forall p :: p in Dicts.Keys(r) ==> Dicts.Get(r, p) == Dicts.Get(Profiles(es), p)
  {
    var d := Profiles(es);
    var r := FilterProfiles(d, filter);
    assert Seqs.NoDup(Dicts.Keys(r)) by { SubseqKeysNoDup(r, d); }
    r
  }

  lemma {:induction false} SubseqKeysNoDup(a: Dicts.Dict<Option<string>>, b: Dicts.Dict<Option<string>>)
    requires Seqs.Subseq(a, b) && Seqs.NoDup(Dicts.Keys(b))
    ensures Seqs.NoDup(Dicts.Keys(a))
    decreases |b|
  {
    if |a| > 0 {
      assert Dicts.Keys(b) == [b[0].0] + Dicts.Keys(b[1..]);
      assert Seqs.NoDup(Dicts.Keys(b[1..])) by {
        forall i, j | 0 <= i < j < |b| - 1 ensures Dicts.Keys(b[1..])[i] != Dicts.Keys(b[1..])[j] {
          assert Dicts.Keys(b)[i + 1] != Dicts.Keys(b)[j + 1];
        }
      }
      if a[0] == b[0] {
        SubseqKeysNoDup(a[1..], b[1..]);
        SubseqKeys(a[1..], b[1..]);
        assert Dicts.Keys(a) == [a[0].0] + Dicts.Keys(a[1..]);
        assert b[0].0 !in Dicts.Keys(b[1..]) by {
          forall i | 0 <= i < |b| - 1 ensures Dicts.Keys(b[1..])[i] != b[0].0 {
            assert Dicts.Keys(b)[0] != Dicts.Keys(b)[i + 1];
          }
        }
      } else {
        SubseqKeysNoDup(a, b[1..]);
      }
    }
  }

  lemma {:induction false} SubseqKeys(a: Dicts.Dict<Option<string>>, b: Dicts.Dict<Option<string>>)
    requires Seqs.Subseq(a, b)
    ensures forall k :: k in Dicts.Keys(a) ==> k in Dicts.Keys(b)
    decreases |b|
  {
    if |a| > 0 {
      assert Dicts.Keys(b) == [b[0].0] + Dicts.Keys(b[1..]);
      assert Dicts.Keys(a) == [a[0].0] + Dicts.Keys(a[1..]);
      if a[0] == b[0] {
        SubseqKeys(a[1..], b[1..]);
      } else {
        SubseqKeys(a, b[1..]);
      }
    }
  }

  /** A wildcard naming a family keeps every profile of that family. */
  lemma WildcardKeepsFamily(es: seq<TopDir>, filter: seq<string>, family: string, board: string)
    requires '/' !in family && family + "/*" in filter
    requires family + "/" + board in Dicts.Keys(Profiles(es))
    ensures family + "/" + board in Dicts.Keys(GetProfiles(es, filter))
  {
    FirstSegmentOf(family, board);
  }

  // ---------------------------------------------------------------------------
  // HelenOSScheduleBuildsTask

  /** The submissions and the `helenos_tasks` map of `HelenOSScheduleBuildsTask.run`. */
  datatype Builds = Builds(subs: seq<Submission>, tasks: map<string, string>)

  function ScheduleBuilds(profiles: Dicts.Dict<Option<string>>, rootDir: Value): (r: Builds)
    ensures |r.subs| == |profiles|
    ensures forall i :: 0 <= i < |profiles| ==>
              var p := profiles[i].0;
              r.subs[i].id == HelenOSBuildId(Flat(p)) && r.subs[i].deps == [] && r.subs[i].mutexes == []
              && r.subs[i].work == HelenOSBuildWork(p, Flat(p), rootDir, profiles[i].1)
    ensures forall p :: p in r.tasks <==> p in Dicts.Keys(profiles)
    ensures forall p :: p in r.tasks ==> r.tasks[p] == HelenOSBuildId(Flat(p)) && r.tasks[p] in Ids(r.subs)
  {
    var subs := seq(|profiles|, i requires 0 <= i < |profiles| =>
                      Submission("Building HelenOS for " + profiles[i].0, HelenOSBuildId(Flat(profiles[i].0)),
                                 HelenOSBuildWork(profiles[i].0, Flat(profiles[i].0), rootDir, profiles[i].1), [], []));
    var tasks := map p | p in Dicts.Keys(profiles) :: HelenOSBuildId(Flat(p));
    assert forall p :: p in tasks ==> tasks[p] in Ids(subs) by {
      forall p | p in tasks ensures tasks[p] in Ids(subs) {
        var i :| 0 <= i < |profiles| && Dicts.Keys(profiles)[i] == p;
        assert Ids(subs)[i] == tasks[p];
      }
    }
    Builds(subs, tasks)
  }

  /** The builds go through the scheduler without raising, and afterwards
      every profile's build id is registered: what the coastline and test
      submissions depend on. */
  lemma BuildsRegisterEveryProfile(s: State, profiles: Dicts.Dict<Option<string>>, rootDir: Value)
    requires Inv(s)
    ensures SubmitAll(s, ScheduleBuilds(profiles, rootDir).subs).Ok?
    ensures forall p :: p in Dicts.Keys(profiles) ==>
              HelenOSBuildId(Flat(p)) in SubmitAll(s, ScheduleBuilds(profiles, rootDir).subs).value.tasks
  {
    var b := ScheduleBuilds(profiles, rootDir);
    SubmitAllSucceeds(s, b.subs);
  }

  // ---------------------------------------------------------------------------
  // HelenOSBuildTask: the data a finished build hands on

  /** The last component of a path. */
  function Basename(path: string): (r: string)
    ensures |r| <= |path| && path[|path| - |r|..] == r
    ensures '/' !in r
    ensures r == path || path[|path| - |r| - 1] == '/'
    decreases |path|
  {
    if |path| == 0 || path[|path| - 1] == '/' then []
    else
      var n := |path| - 1;
      var r := Basename(path[..n]);
      assert path[..n][n - |r|..] == path[n - |r|..n];
      r + [path[n]]
  }

  /** The index of the last '.' in `b`. */
  function LastDot(b: string): (r: Option<nat>)
    ensures r.Some? ==> r.value < |b| && b[r.value] == '.' && '.' !in b[r.value + 1..]
    ensures r.None? ==> '.' !in b
    decreases |b|
  {
    if |b| == 0 then None
    else
      var n := |b| - 1;
      if b[n] == '.' then Some(n)
      else
        var r := LastDot(b[..n]);
        assert r.Some? ==> b[r.value + 1..] == b[..n][r.value + 1..] + [b[n]];
        assert r.None? ==> b == b[..n] + [b[n]];
        r
  }

  predicate AllDots(s: string) {
    forall i :: 0 <= i < |s| ==> s[i] == '.'
  }

  /** The extension `os.path.splitext` splits off: the basename from its
      last '.', unless only dots precede that '.' in the basename. */
  function Extension(path: string): (r: string)
    ensures |r| <= |path| && path[|path| - |r|..] == r
    ensures r == [] || (r[0] == '.' && '.' !in r[1..] && '/' !in r)
  {
    var b := Basename(path);
    match LastDot(b)
    case None => []
    case Some(i) =>
      if AllDots(b[..i]) then []
      else
        assert path[|path| - |b[i..]|..] == b[i..];
        b[i..]
  }

  /** A path without '/' is its own basename. */
  lemma {:induction false} BasenameOfName(name: string)
    requires '/' !in name
    ensures Basename(name) == name
    decreases |name|
  {
    if |name| > 0 {
      var n := |name| - 1;
      assert name[n] in name;
      BasenameOfName(name[..n]);
      assert name == name[..n] + [name[n]];
    }
  }

  /** The last dot of `stem.ext` is the one before `ext` when `ext` has none. */
  lemma {:induction false} LastDotBeforeExt(stem: string, ext: string)
    requires '.' !in ext
    ensures LastDot(stem + "." + ext) == Some(|stem|)
    decreases |ext|
  {
    var s := stem + "." + ext;
    if |ext| > 0 {
      var n := |ext| - 1;
      assert ext[n] in ext;
      assert s[..|s| - 1] == stem + "." + ext[..n];
      assert forall c :: c in ext[..n] ==> c in ext;
      LastDotBeforeExt(stem, ext[..n]);
    } else {
      assert s[|s| - 1] == '.';
    }
  }

  /** The extension of `stem.ext` is `.ext` when `ext` has no dot and the
      stem is not made of dots only (`uImage.bin` gives `.bin`, `.hidden` none). */
  lemma ExtensionOfName(stem: string, ext: string)
    requires '/' !in stem && '/' !in ext && '.' !in ext
    requires !AllDots(stem)
    ensures Extension(stem + "." + ext) == "." + ext
  {
    var s := stem + "." + ext;
    assert '/' !in stem + ".";
    BasenameOfName(s);
    LastDotBeforeExt(stem, ext);
    assert s[..|stem|] == stem;
    assert s[|stem|..] == "." + ext;
  }

  /** The commands `HelenOSBuildTask.run` runs, in order: copying the
      sources, creating the build directory, configuring for the profile,
      building and asking for the image path. */
  function BuildSteps(srcDir: string, myDir: string, profile: string): seq<seq<string>> {
    [["rsync", "-a", srcDir + "/", myDir],
     ["mkdir", myDir + "/build"],
     ["sh", myDir + "/configure.sh", profile],
     ["ninja"],
     ["ninja", "image_path"]]
  }

  /** Where the boot image of `profile` is published, relative to the artefact directory. */
  function TargetImageName(profile: string, image: string): string {
    Flat(profile) + "/helenos-" + Flat(profile) + Extension(image)
  }

  function OptionalString(s: Option<string>): Value {
    if s.Some? then VStr(s.value) else VNone
  }

  /** The data dict of a finished build, given its `image` entry. */
  function BuildData(image: Value, builtImage: Option<string>, myDir: string): Value {
    VDict(map["image" := image, "built-image" := OptionalString(builtImage), "dir" := VStr(myDir)])
  }

  lemma BuildDataEntries(image: Value, builtImage: Option<string>, myDir: string)
    ensures var d := BuildData(image, builtImage, myDir);
            d.VDict? && "image" in d.entries && "built-image" in d.entries && "dir" in d.entries
            && d.entries["image"] == image && d.entries["built-image"] == OptionalString(builtImage)
            && d.entries["dir"] == VStr(myDir)
  {
    var d := BuildData(image, builtImage, myDir);
    assert |"image"| == 5 && |"built-image"| == 11 && |"dir"| == 3;
  }

  /** `HelenOSBuildTask.run` as written: a failing command raises out of
      `run_command` (so the `res['failed']` checks never fire), and the
      `image` entry is assigned the return value of `add_downloadable_file`,
      which returns nothing. */
  function BuildRunAsWritten(srcDir: string, profile: string, image: Option<string>, myDir: string,
                             exec: seq<string> -> CommandRun): (r: RunResult)
    ensures var cmds := BuildSteps(srcDir, myDir, profile);
            && (r.Raised? <==> !AllSucceed(cmds, exec))
            && (r.Raised? ==> exists i: nat :: FirstFailure(cmds, exec, i)
                                               && r.msg == CommandFailure(cmds[i], exec(cmds[i]).lastLine))
            && (r.Returned? ==> !EqualsFalse(r.v) && r.v.VDict? && "image" in r.v.entries
                                && r.v.entries["image"] == VNone)
  {
    match RunCommands(BuildSteps(srcDir, myDir, profile), exec)
    case Err(e) => Raised(e)
    case Ok(_) =>
      BuildDataEntries(VNone, image, myDir);
      Returned(BuildData(VNone, image, myDir))
  }

  /** The absolute path `add_downloadable_file` copies the image to. */
  function ArtefactPath(artefactDir: string, relative: string): string {
    artefactDir + "/" + relative
  }

  /** The `image` entry a finished build hands on: where its image is
      published, when it has one. */
  function PublishedImage(profile: string, image: Option<string>, artefactDir: string): (v: Value)
    ensures v == VNone <==> image.None?
  {
    if image.Some? then VStr(ArtefactPath(artefactDir, TargetImageName(profile, image.value))) else VNone
  }

  /** `HelenOSBuildTask.run` with the `image` entry holding the published
      image's path, as the test runs reading it expect. */
  function BuildRun(srcDir: string, profile: string, image: Option<string>, myDir: string, artefactDir: string,
                    exec: seq<string> -> CommandRun): (r: RunResult)
    ensures var cmds := BuildSteps(srcDir, myDir, profile);
            && (r.Raised? <==> !AllSucceed(cmds, exec))
            && (r.Raised? ==> exists i: nat :: FirstFailure(cmds, exec, i)
                                               && r.msg == CommandFailure(cmds[i], exec(cmds[i]).lastLine))
    ensures r.Returned? ==>
              !EqualsFalse(r.v) && r.v.VDict?
              && "image" in r.v.entries && "built-image" in r.v.entries && "dir" in r.v.entries
              && r.v.entries["image"] == PublishedImage(profile, image, artefactDir)
              && r.v.entries["built-image"] == OptionalString(image)
              && r.v.entries["dir"] == VStr(myDir)
  {
    match RunCommands(BuildSteps(srcDir, myDir, profile), exec)
    case Err(e) => Raised(e)
    case Ok(_) =>
      var published := PublishedImage(profile, image, artefactDir);
      BuildDataEntries(published, image, myDir);
      Returned(BuildData(published, image, myDir))
  }

  /** A failing configure step fails the build with the message of the
      exception `run_command` raises, not with a returned False. */
  lemma ConfigureFailureRaises(srcDir: string, profile: string, image: Option<string>, myDir: string,
                               artefactDir: string, exec: seq<string> -> CommandRun)
    requires exec(["rsync", "-a", srcDir + "/", myDir]).rc == 0 && exec(["mkdir", myDir + "/build"]).rc == 0
    requires exec(["sh", myDir + "/configure.sh", profile]).rc != 0
    ensures Execute(BuildRun(srcDir, profile, image, myDir, artefactDir, exec))
            == Outcome(Failed, EmptyData,
                       Some("`sh " + myDir + "/configure.sh " + profile + "' failed: "
                            + exec(["sh", myDir + "/configure.sh", profile]).lastLine))
  {
    var cmds := BuildSteps(srcDir, myDir, profile);
    var r := BuildRun(srcDir, profile, image, myDir, artefactDir, exec);
    assert exec(cmds[2]).rc != 0;
    var i: nat :| FirstFailure(cmds, exec, i) && r.msg == CommandFailure(cmds[i], exec(cmds[i]).lastLine);
    assert exec(cmds[0]).rc == 0 && exec(cmds[1]).rc == 0;
    assert i == 2;
    var c := cmds[2];
    assert c[1..][1..] == [profile];
    assert Join(c[1..], " ") == myDir + "/configure.sh" + " " + profile;
    assert Join(c, " ") == "sh" + " " + (myDir + "/configure.sh" + " " + profile);
    assert r == Raised(CommandFailure(c, exec(c).lastLine));
    var rest := myDir + "/configure.sh" + " " + profile;
    assert "`" + ("sh" + " " + rest) == "`sh " + rest;
    assert "`sh " + myDir + "/configure.sh " + profile == "`sh " + rest;
  }
}
