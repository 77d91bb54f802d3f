/** The harbour handling of hbuild/builders/coastline.py.

    A harbour is a third-party package of the coastline repository; its
    `shiptugs` list names the harbours it needs. `GetHarbours` cleans those
    lists, selects the harbours to build and closes the selection under
    dependencies, then sorts it into a buildable order in rounds of leaves.
    `ScheduleFetches` and `ScheduleBuilds` are the submissions made from
    that result. Reading the directory and the `HARBOUR` files is left to the
    caller: the detected names and their raw lists are inputs. */
module Coastline {
  import opened Wrappers
  import opened Tasks
  import opened Names
  import Seqs
  import opened Scheduler
  import opened SchedulerInvariants
  import opened Submissions

  /** Harbour name to the harbours it depends on. */
  type Deps = map<string, seq<string>>

  const CircularDependency := "Circular dependency found!"

  /** The detected harbours (a directory listing, so no name twice), each with
      a dependency list naming only detected harbours. */
  ghost predicate Graph(names: seq<string>, g: Deps) {
    Seqs.NoDup(names) && (forall h :: h in g <==> h in names)
    && forall h, d :: h in g && d in g[h] ==> d in names
  }

  // ---------------------------------------------------------------------------
  // Clean-up, selection and closure

  /** The clean-up loop: each list keeps, in order, only detected harbours. */
  function CleanDeps(names: seq<string>, raw: Deps): (g: Deps)
    requires forall h :: h in names ==> h in raw
    ensures g.Keys == (set h | h in names)
    ensures forall h :: h in g ==> Seqs.Subseq(g[h], raw[h])
    ensures forall h, d :: h in g ==> (d in g[h] <==> d in raw[h] && d in names)
    ensures Seqs.NoDup(names) ==> Graph(names, g)
  {
    map h | h in names :: Restrict(raw[h], names)
  }

  /** The harbours named by the filter; every detected one when it contains `ALL`. */
  function Selected(names: seq<string>, filter: seq<string>): (r: set<string>)
    ensures forall h :: h in r <==> h in names && ("ALL" in filter || h in filter)
  {
    if "ALL" in filter then (set h | h in names) else (set h | h in names && h in filter)
  }

  /** Every dependency of a member is a member. */
  predicate Closed(g: Deps, s: set<string>) {
    forall h, d :: h in s && h in g && d in g[h] ==> d in s
  }

  /** One pass of the `while dependency_added` loop over a snapshot `s`
      (dependencies are detected harbours, so the pass stays within `names`). */
  function Grow(names: seq<string>, g: Deps, s: set<string>): (r: set<string>)
    requires Graph(names, g)
    requires forall h :: h in s ==> h in names
    ensures s <= r
    ensures forall h, d :: h in s && h in g && d in g[h] ==> d in r
    ensures forall t :: s <= t && Closed(g, t) ==> r <= t
  {
    set x | x in names && (x in s || exists h :: h in s && h in g && x in g[h])
  }

  /** The `while dependency_added` loop: grows the selection until a pass adds
      nothing. The result is the least closed set containing the selection. */
  function Closure(names: seq<string>, g: Deps, s: set<string>): (r: set<string>)
    requires Graph(names, g)
    requires forall h :: h in s ==> h in names
    ensures s <= r && Closed(g, r)
    ensures forall h :: h in r ==> h in names
    ensures forall t :: s <= t && Closed(g, t) ==> r <= t
    decreases |(set h | h in names) - s|
  {
    var s' := Grow(names, g, s);
    if s' == s then s
    else
      var all := set h | h in names;
      assert |all - s'| < |all - s| by {
        var x :| x in s' && x !in s;
        assert all - s' <= (all - s) - {x};
        SubsetCard(all - s', (all - s) - {x});
      }
      Closure(names, g, s')
  }

  lemma {:induction false} SubsetCard(a: set<string>, b: set<string>)
    requires a <= b
    ensures |a| <= |b|
    decreases |b|
  {
    if a != {} {
      var x :| x in a;
      SubsetCard(a - {x}, b - {x});
    }
  }

  // ---------------------------------------------------------------------------
  // Sorting in rounds

  /** `remaining_dependencies` with its keys in dict order. */
  datatype Remaining = Remaining(keys: seq<string>, deps: Deps)

  /** The harbours of a round with no dependency left, in dict order. */
  function Leafs(rem: Remaining): (r: seq<string>)
    ensures forall l :: l in r <==> l in rem.keys && l in rem.deps && rem.deps[l] == []
    ensures Seqs.NoDup(rem.keys) ==> Seqs.NoDup(r)
  {
    var r := Seqs.Filter(rem.keys, k => k in rem.deps && rem.deps[k] == []);
    if Seqs.NoDup(rem.keys) then
      Seqs.FilterNoDup(rem.keys, k => k in rem.deps && rem.deps[k] == []);
      r
    else r
  }

  /** The members of `xs` that are in `keep`, in order. */
  function Restrict(xs: seq<string>, keep: seq<string>): (r: seq<string>)
    ensures forall x :: x in r <==> x in xs && x in keep
  {
    Seqs.Filter(xs, x => x in keep)
  }

  /** `[x for x in xs if x != l]`. */
  function Without(xs: seq<string>, l: string): (r: seq<string>)
    ensures forall x :: x in r <==> x in xs && x != l
    ensures |r| <= |xs| && (l in xs ==> |r| < |xs|)
    ensures Seqs.NoDup(xs) ==> Seqs.NoDup(r)
  {
    var r := Seqs.Filter(xs, x => x != l);
    assert l in xs ==> |r| < |xs| by {
      if l in xs { Seqs.FilterDrops(xs, x => x != l, l); }
    }
    assert Seqs.NoDup(xs) ==> Seqs.NoDup(r) by {
      if Seqs.NoDup(xs) { Seqs.FilterNoDup(xs, x => x != l); }
    }
    r
  }

  lemma RestrictAll(xs: seq<string>, keep: seq<string>)
    requires forall x :: x in xs ==> x in keep
    ensures Restrict(xs, keep) == xs
  {
    Seqs.FilterKeepsAll(xs, x => x in keep);
  }

  /** Striking `l` from a restricted list restricts it to the smaller set. */
  lemma RestrictWithout(xs: seq<string>, keep: seq<string>, l: string, keep': seq<string>)
    requires forall x :: x in keep' <==> x in keep && x != l
    ensures Without(Restrict(xs, keep), l) == Restrict(xs, keep')
  {
    Seqs.FilterCompose(xs, x => x in keep, x => x != l, x => x in keep');
  }

  /** One iteration of `for l in leafs`: `l` loses its entry and is struck
      from every remaining list. */
  function RemoveLeaf(rem: Remaining, l: string): Remaining {
    Remaining(Without(rem.keys, l), map k | k in rem.deps && k != l :: Without(rem.deps[k], l))
  }

  function RemoveLeafs(rem: Remaining, ls: seq<string>): Remaining
    decreases |ls|
  {
    if |ls| == 0 then rem else RemoveLeafs(RemoveLeaf(rem, ls[0]), ls[1..])
  }

  /** `rem` is graph `g` with every harbour outside `rem.keys` removed: the
      remaining lists are the original ones restricted to remaining harbours. */
  ghost predicate Tracks(g: Deps, rem: Remaining) {
    Seqs.NoDup(rem.keys)
    && (forall k :: k in rem.deps <==> k in rem.keys)
    && forall k :: k in rem.keys ==> k in g && rem.deps[k] == Restrict(g[k], rem.keys)
  }

  lemma RemoveLeafTracks(g: Deps, rem: Remaining, l: string)
    requires Tracks(g, rem)
    ensures Tracks(g, RemoveLeaf(rem, l))
    ensures forall x :: x in RemoveLeaf(rem, l).keys <==> x in rem.keys && x != l
    ensures |RemoveLeaf(rem, l).keys| <= |rem.keys|
    ensures l in rem.keys ==> |RemoveLeaf(rem, l).keys| < |rem.keys|
  {
    var r := RemoveLeaf(rem, l);
    forall k | k in r.keys ensures k in g && r.deps[k] == Restrict(g[k], r.keys) {
      RestrictWithout(g[k], rem.keys, l, r.keys);
    }
  }

  lemma {:induction false} RemoveLeafsTracks(g: Deps, rem: Remaining, ls: seq<string>)
    requires Tracks(g, rem)
    ensures Tracks(g, RemoveLeafs(rem, ls))
    ensures forall x :: x in RemoveLeafs(rem, ls).keys <==> x in rem.keys && x !in ls
    ensures |RemoveLeafs(rem, ls).keys| <= |rem.keys|
    ensures |ls| > 0 && ls[0] in rem.keys ==> |RemoveLeafs(rem, ls).keys| < |rem.keys|
    decreases |ls|
  {
    if |ls| > 0 {
      var r := RemoveLeaf(rem, ls[0]);
      RemoveLeafTracks(g, rem, ls[0]);
      RemoveLeafsTracks(g, r, ls[1..]);
      assert forall x :: x in ls <==> x == ls[0] || x in ls[1..];
    }
  }

  /** Every member of `order` comes after those of its dependencies that are in `sel`. */
  ghost predicate OrderedWithin(g: Deps, sel: set<string>, order: seq<string>) {
    forall i, d :: 0 <= i < |order| && order[i] in g && d in g[order[i]] && d in sel ==> d in order[..i]
  }

  /** A non-empty set of harbours each of which depends on one of them: none
      of them can ever become a leaf. */
  ghost predicate Stuck(g: Deps, s: set<string>) {
    s != {} && forall h {:trigger DependsInto(g, h, s)} :: h in s ==> DependsInto(g, h, s)
  }

  /** Harbour `h` depends on a member of `s`. */
  ghost predicate DependsInto(g: Deps, h: string, s: set<string>) {
    h in g && exists d :: d in g[h] && d in s
  }

  /** Some stuck set lies within `keys`. */
  ghost predicate StuckWithin(g: Deps, keys: set<string>) {
    exists s :: Stuck(g, s) && s <= keys
  }

  /** What `build_order` holds between rounds: exactly the selected harbours
      already removed, each after its selected dependencies. */
  ghost predicate OrderSoFar(g: Deps, sel: set<string>, rem: Remaining, acc: seq<string>) {
    Seqs.NoDup(acc)
    && (forall x :: x in acc <==> x in g && x in sel && x !in rem.keys)
    && OrderedWithin(g, sel, acc)
  }

  /** The leaves of a round that go into `build_order`, in dict order. */
  function Emitted(leafs: seq<string>, sel: set<string>): (r: seq<string>)
    ensures forall x :: x in r <==> x in leafs && x in sel
    ensures Seqs.NoDup(leafs) ==> Seqs.NoDup(r)
  {
    var r := Seqs.Filter(leafs, l => l in sel);
    if Seqs.NoDup(leafs) then
      Seqs.FilterNoDup(leafs, l => l in sel);
      r
    else r
  }

  /** Appending harbours whose selected dependencies are all in `acc` keeps
      the order. */
  lemma OrderedAppend(g: Deps, sel: set<string>, acc: seq<string>, more: seq<string>)
    requires OrderedWithin(g, sel, acc)
    requires forall x, d :: x in more && x in g && d in g[x] && d in sel ==> d in acc
    ensures OrderedWithin(g, sel, acc + more)
  {
    var acc' := acc + more;
    forall i, d | 0 <= i < |acc'| && acc'[i] in g && d in g[acc'[i]] && d in sel ensures d in acc'[..i] {
      if i < |acc| {
        assert acc'[..i] == acc[..i];
      } else {
        assert acc'[i] in more;
        assert acc'[..i] == acc + more[..i - |acc|];
      }
    }
  }

  /** A leaf's selected dependencies have all been removed already. */
  lemma LeafDepsDone(g: Deps, sel: set<string>, rem: Remaining, acc: seq<string>, x: string)
    requires forall h, d :: h in g && d in g[h] ==> d in g
    requires Tracks(g, rem) && OrderSoFar(g, sel, rem, acc)
    requires x in Leafs(rem)
    ensures forall d :: d in g[x] && d in sel ==> d in acc
  {
    assert rem.deps[x] == [] == Restrict(g[x], rem.keys);
    forall d | d in g[x] && d in sel ensures d in acc {
      assert d !in rem.keys;
    }
  }

  /** Appending a round's selected leaves keeps `OrderSoFar`. */
  lemma RoundKeepsOrder(g: Deps, sel: set<string>, rem: Remaining, acc: seq<string>)
    requires forall h, d :: h in g && d in g[h] ==> d in g
    requires Tracks(g, rem) && OrderSoFar(g, sel, rem, acc)
    ensures OrderSoFar(g, sel, RemoveLeafs(rem, Leafs(rem)), acc + Emitted(Leafs(rem), sel))
  {
    var leafs := Leafs(rem);
    var emitted := Emitted(leafs, sel);
    RemoveLeafsTracks(g, rem, leafs);
    Seqs.NoDupAppend(acc, emitted);
    forall x | x in emitted && x in g ensures forall d :: d in g[x] && d in sel ==> d in acc {
      LeafDepsDone(g, sel, rem, acc, x);
    }
    OrderedAppend(g, sel, acc, emitted);
  }

  /** A round without leaves: the remaining harbours are a stuck set. */
  lemma NoLeafMeansStuck(g: Deps, rem: Remaining)
    requires Tracks(g, rem) && |rem.keys| > 0 && |Leafs(rem)| == 0
    ensures StuckWithin(g, rem.deps.Keys)
  {
    var s := rem.deps.Keys;
    forall h | h in s ensures DependsInto(g, h, s) {
      NotLeafDependsInto(g, rem, h);
    }
    assert rem.keys[0] in s;
    assert Stuck(g, s);
  }

  /** A remaining harbour that is no leaf depends on a remaining harbour. */
  lemma NotLeafDependsInto(g: Deps, rem: Remaining, h: string)
    requires Tracks(g, rem) && h in rem.keys && h !in Leafs(rem)
    ensures DependsInto(g, h, rem.deps.Keys)
  {
    var d := rem.deps[h][0];
    assert d in Restrict(g[h], rem.keys);
    assert d in g[h] && d in rem.deps.Keys;
  }


  /** A member of a stuck set inside the remaining harbours is no leaf. */
  lemma StuckMemberNoLeaf(g: Deps, rem: Remaining, s: set<string>, x: string)
    requires Tracks(g, rem) && Stuck(g, s) && s <= rem.deps.Keys && x in s
    ensures x !in Leafs(rem)
  {
    assert DependsInto(g, x, s);
    var d :| d in g[x] && d in s;
    assert d in Restrict(g[x], rem.keys);
  }

  /** A stuck set inside the remaining harbours loses no member in a round. */
  lemma StuckSurvivesRound(g: Deps, rem: Remaining)
    requires Tracks(g, rem) && StuckWithin(g, rem.deps.Keys)
    ensures StuckWithin(g, RemoveLeafs(rem, Leafs(rem)).deps.Keys)
  {
    var s :| Stuck(g, s) && s <= rem.deps.Keys;
    var rem' := RemoveLeafs(rem, Leafs(rem));
    RemoveLeafsTracks(g, rem, Leafs(rem));
    forall x | x in s ensures x in rem'.deps {
      StuckMemberNoLeaf(g, rem, s, x);
    }
  }

  /** The `while len(remaining_dependencies) > 0` loop. */
  function SortRounds(g: Deps, sel: set<string>, rem: Remaining, acc: seq<string>): (r: Result<seq<string>>)
    requires forall h, d :: h in g && d in g[h] ==> d in g
    requires Tracks(g, rem) && OrderSoFar(g, sel, rem, acc)
    ensures r.Ok? ==> Seqs.NoDup(r.value) && (forall x :: x in r.value <==> x in g && x in sel)
                      && OrderedWithin(g, sel, r.value)
    ensures r.Err? ==> r.msg == CircularDependency && StuckWithin(g, rem.deps.Keys)
    ensures StuckWithin(g, rem.deps.Keys) ==> r.Err?
    decreases |rem.keys|
  {
    if |rem.keys| == 0 then Ok(acc)
    else
      var leafs := Leafs(rem);
      if |leafs| == 0 then
        NoLeafMeansStuck(g, rem);
        Err(CircularDependency)
      else
        var rem' := RemoveLeafs(rem, leafs);
        RemoveLeafsTracks(g, rem, leafs);
        RoundKeepsOrder(g, sel, rem, acc);
        var r := SortRounds(g, sel, rem', acc + Emitted(leafs, sel));
        assert StuckWithin(g, rem.deps.Keys) ==> r.Err? by {
          if StuckWithin(g, rem.deps.Keys) {
            StuckSurvivesRound(g, rem);
          }
        }
        assert rem'.deps.Keys <= rem.deps.Keys;
        r
  }

  /** The sort: a buildable order of the selected harbours, or the circular
      dependency error exactly when some harbours, selected or not, depend on
      each other in a cycle. */
  function SortHarbours(names: seq<string>, g: Deps, sel: set<string>): (r: Result<seq<string>>)
    requires Graph(names, g)
    ensures r.Ok? ==> Seqs.NoDup(r.value) && (forall x :: x in r.value <==> x in names && x in sel)
                      && OrderedWithin(g, sel, r.value)
    ensures r.Err? <==> exists s :: Stuck(g, s)
    ensures r.Err? ==> r.msg == CircularDependency
  {
    var rem := Remaining(names, g);
    assert Tracks(g, rem) by {
      forall k | k in names ensures g[k] == Restrict(g[k], names) {
        RestrictAll(g[k], names);
      }
    }
    var r := SortRounds(g, sel, rem, []);
    assert (exists s :: Stuck(g, s)) ==> StuckWithin(g, g.Keys) by {
      if exists s :: Stuck(g, s) {
        var s :| Stuck(g, s);
        forall x | x in s ensures x in g {
          assert DependsInto(g, x, s);
        }
      }
    }
    r
  }

  /** Every member of `order` is a harbour of `g` listed after all of its dependencies. */
  ghost predicate BuildOrder(g: Deps, order: seq<string>) {
    Seqs.NoDup(order)
    && (forall h :: h in order ==> h in g)
    && forall i, d :: 0 <= i < |order| && d in g[order[i]] ==> d in order[..i]
  }

  /** The `harbours` and `harbour_deps` returned by `CoastlineGetHarboursTask.run`. */
  datatype Harbours = Harbours(harbours: seq<string>, harbourDeps: Deps)

  /** `CoastlineGetHarboursTask.run` after the directory scan: `names` are the
      detected harbours in listing order and `raw` their `shiptugs` lists. */
  function GetHarbours(names: seq<string>, raw: Deps, filter: seq<string>): (r: Result<Harbours>)
    requires Seqs.NoDup(names)
    requires forall h :: h in names ==> h in raw
    ensures r.Ok? ==> r.value.harbourDeps == CleanDeps(names, raw)
    ensures r.Ok? ==> BuildOrder(r.value.harbourDeps, r.value.harbours)
    ensures r.Ok? ==> forall h :: h in Selected(names, filter) ==> h in r.value.harbours
    ensures r.Ok? ==> forall t :: Selected(names, filter) <= t && Closed(CleanDeps(names, raw), t) ==>
                                  forall h :: h in r.value.harbours ==> h in t
    ensures r.Err? <==> exists s :: Stuck(CleanDeps(names, raw), s)
    ensures r.Err? ==> r.msg == CircularDependency
  {
    var g := CleanDeps(names, raw);
    var sel := Closure(names, g, Selected(names, filter));
    match SortHarbours(names, g, sel)
    case Err(msg) => Err(msg)
    case Ok(order) =>
      assert BuildOrder(g, order) by {
        forall i, d | 0 <= i < |order| && d in g[order[i]] ensures d in order[..i] {
          assert order[i] in sel;
        }
      }
      Ok(Harbours(order, g))
  }

  // ---------------------------------------------------------------------------
  // Scheduling fetches and builds

  /** The profile `CoastlineScheduleBuildsTask` skips. */
  const SkippedProfile := "special/abs32le"

  /** The submissions and the `fetch_tasks` map of `CoastlineScheduleFetchesTask.run`. */
  datatype Fetches = Fetches(subs: seq<Submission>, tasks: map<string, string>)

  function ScheduleFetches(harbours: seq<string>): (r: Fetches)
    ensures Ids(r.subs) == seq(|harbours|, i requires 0 <= i < |harbours| => FetchId(harbours[i]))
    ensures forall i :: 0 <= i < |r.subs| ==>
              r.subs[i].deps == [] && r.subs[i].mutexes == [] && r.subs[i].work == CoastlineFetchWork(harbours[i])
    ensures forall h :: h in r.tasks <==> h in harbours
    ensures forall h :: h in r.tasks ==> r.tasks[h] == FetchId(h) && r.tasks[h] in Ids(r.subs)
  {
    var subs := seq(|harbours|, i requires 0 <= i < |harbours| =>
                      Submission("Fetching tarballs for " + harbours[i], FetchId(harbours[i]),
                                 CoastlineFetchWork(harbours[i]), [], []));
    var tasks := map h | h in harbours :: FetchId(h);
    assert forall h :: h in tasks ==> tasks[h] in Ids(subs) by {
      forall h | h in tasks ensures tasks[h] in Ids(subs) {
        var i :| 0 <= i < |harbours| && harbours[i] == h;
        assert Ids(subs)[i] == FetchId(h);
      }
    }
    Fetches(subs, tasks)
  }

  /** The submission of the coastline preparation for profile `p`. */
  function PrepareSub(p: string, archiveFormat: string): Submission {
    Submission("Preparing coastline for " + p, PrepareId(Flat(p)),
               CoastlinePrebuildWork(p, Flat(p), archiveFormat), [HelenOSBuildId(Flat(p))], [])
  }

  /** The dependency list of a harbour build: the preparation, the fetch and
      the same profile's builds of the harbour's dependencies. */
  function HarbourBuildDeps(h: string, flat: string, hdeps: seq<string>): seq<string> {
    [PrepareId(flat), FetchId(h)] + seq(|hdeps|, k requires 0 <= k < |hdeps| => HarbourBuildId(hdeps[k], flat))
  }

  function HarbourBuildSub(h: string, p: string, g: Deps, archiveFormat: string): Submission
    requires h in g
  {
    Submission("Building " + h + " for " + p, HarbourBuildId(h, Flat(p)),
               CoastlineBuildWork(h, p, archiveFormat), HarbourBuildDeps(h, Flat(p), g[h]), [])
  }

  /** The submissions of one iteration of the profile loop. */
  function ProfileSubs(p: string, harbours: seq<string>, g: Deps, archiveFormat: string): seq<Submission>
    requires forall h :: h in harbours ==> h in g
  {
    [PrepareSub(p, archiveFormat)]
    + seq(|harbours|, i requires 0 <= i < |harbours| => HarbourBuildSub(harbours[i], p, g, archiveFormat))
  }

  /** The submissions and the `harbour_tasks` map of `CoastlineScheduleBuildsTask.run`. */
  datatype Builds = Builds(subs: seq<Submission>, tasks: map<string, map<string, string>>)

  function ScheduleBuilds(profiles: seq<string>, harbours: seq<string>, g: Deps, archiveFormat: string): (r: Builds)
    requires forall h :: h in harbours ==> h in g
    ensures forall p :: p in r.tasks <==> p in profiles && p != SkippedProfile
    ensures forall p :: p in r.tasks ==> forall h :: h in r.tasks[p] <==> h in harbours
    ensures forall p, h :: p in r.tasks && h in r.tasks[p] ==> r.tasks[p][h] in Ids(r.subs)
  {
    var subs := ProfileLoop(profiles, harbours, g, archiveFormat);
    var tasks := map p | p in profiles && p != SkippedProfile :: map h | h in harbours :: HarbourBuildId(h, Flat(p));
    assert forall p, h :: p in tasks && h in tasks[p] ==> tasks[p][h] in Ids(subs) by {
      forall p, h | p in tasks && h in tasks[p] ensures tasks[p][h] in Ids(subs) {
        ProfileLoopIds(profiles, harbours, g, archiveFormat, p, h);
      }
    }
    Builds(subs, tasks)
  }

  function ProfileLoop(profiles: seq<string>, harbours: seq<string>, g: Deps, archiveFormat: string): seq<Submission>
    requires forall h :: h in harbours ==> h in g
    decreases |profiles|
  {
    if |profiles| == 0 then []
    else
      (if profiles[0] == SkippedProfile then [] else ProfileSubs(profiles[0], harbours, g, archiveFormat))
      + ProfileLoop(profiles[1..], harbours, g, archiveFormat)
  }

  lemma {:induction false} ProfileLoopIds(profiles: seq<string>, harbours: seq<string>, g: Deps, archiveFormat: string,
                                          p: string, h: string)
    requires forall h :: h in harbours ==> h in g
    requires p in profiles && p != SkippedProfile && h in harbours
    ensures HarbourBuildId(h, Flat(p)) in Ids(ProfileLoop(profiles, harbours, g, archiveFormat))
    decreases |profiles|
  {
    var head := if profiles[0] == SkippedProfile then [] else ProfileSubs(profiles[0], harbours, g, archiveFormat);
    var rest := ProfileLoop(profiles[1..], harbours, g, archiveFormat);
    assert ProfileLoop(profiles, harbours, g, archiveFormat) == head + rest;
    IdsAppend(head, rest);
    if profiles[0] == p {
      var i :| 0 <= i < |harbours| && harbours[i] == h;
      assert Ids(head)[1 + i] == HarbourBuildId(h, Flat(p));
    } else {
      ProfileLoopIds(profiles[1..], harbours, g, archiveFormat, p, h);
    }
  }

  /** One profile's submissions only depend on its HelenOS build, the fetches
      and each other, in an order `submit` accepts. */
  lemma ProfileSubsDepsKnown(p: string, harbours: seq<string>, g: Deps, archiveFormat: string, known: set<string>)
    requires forall h :: h in harbours ==> h in g
    requires forall i, d :: 0 <= i < |harbours| && d in g[harbours[i]] ==> d in harbours[..i]
    requires HelenOSBuildId(Flat(p)) in known
    requires forall h :: h in harbours ==> FetchId(h) in known
    ensures DepsKnownInOrder(known, ProfileSubs(p, harbours, g, archiveFormat))
  {
    var subs := ProfileSubs(p, harbours, g, archiveFormat);
    var flat := Flat(p);
    forall i, d | 0 <= i < |subs| && d in subs[i].deps ensures d in known || d in Ids(subs)[..i] {
      if i > 0 {
        var h := harbours[i - 1];
        var hdeps := g[h];
        assert subs[i].deps == HarbourBuildDeps(h, flat, hdeps);
        if d == PrepareId(flat) {
          assert Ids(subs)[..i][0] == d;
        } else if d != FetchId(h) {
          var k :| 0 <= k < |hdeps| && d == HarbourBuildId(hdeps[k], flat);
          assert hdeps[k] in harbours[..i - 1];
          var j :| 0 <= j < i - 1 && harbours[j] == hdeps[k];
          assert Ids(subs)[..i][j + 1] == d;
        }
      }
    }
  }

  /** The build graph is consistent with `submit`'s check: when the HelenOS
      builds and the fetches are registered and the harbours come in a
      buildable order, every dependency of every harbour build is registered
      or submitted earlier in the same loop. */
  lemma {:induction false} BuildsDepsKnown(profiles: seq<string>, harbours: seq<string>, g: Deps, archiveFormat: string,
                                           known: set<string>)
    requires forall h :: h in harbours ==> h in g
    requires forall i, d :: 0 <= i < |harbours| && d in g[harbours[i]] ==> d in harbours[..i]
    requires forall p :: p in profiles && p != SkippedProfile ==> HelenOSBuildId(Flat(p)) in known
    requires forall h :: h in harbours ==> FetchId(h) in known
    ensures DepsKnownInOrder(known, ProfileLoop(profiles, harbours, g, archiveFormat))
    decreases |profiles|
  {
    if |profiles| > 0 {
      var head := if profiles[0] == SkippedProfile then [] else ProfileSubs(profiles[0], harbours, g, archiveFormat);
      if profiles[0] != SkippedProfile {
        ProfileSubsDepsKnown(profiles[0], harbours, g, archiveFormat, known);
      }
      BuildsDepsKnown(profiles[1..], harbours, g, archiveFormat, known);
      DepsKnownAppend(known, head, ProfileLoop(profiles[1..], harbours, g, archiveFormat));
    }
  }

  /** End to end: the builds scheduled from a successful `GetHarbours` are
      all accepted by the scheduler once the HelenOS builds and the fetches
      are registered. */
  lemma HarbourBuildsSubmittable(names: seq<string>, raw: Deps, filter: seq<string>, profiles: seq<string>,
                                 archiveFormat: string, s: State)
    requires Seqs.NoDup(names) && forall h :: h in names ==> h in raw
    requires GetHarbours(names, raw, filter).Ok?
    requires Inv(s)
    requires forall p :: p in profiles && p != SkippedProfile ==> HelenOSBuildId(Flat(p)) in s.tasks
    requires forall h :: h in GetHarbours(names, raw, filter).value.harbours ==> FetchId(h) in s.tasks
    ensures
      var hb := GetHarbours(names, raw, filter).value;
      SubmitAll(s, ScheduleBuilds(profiles, hb.harbours, hb.harbourDeps, archiveFormat).subs).Ok?
  {
    var hb := GetHarbours(names, raw, filter).value;
    BuildsDepsKnown(profiles, hb.harbours, hb.harbourDeps, archiveFormat, s.tasks.Keys);
    SubmitAllSucceeds(s, ScheduleBuilds(profiles, hb.harbours, hb.harbourDeps, archiveFormat).subs);
  }
}
