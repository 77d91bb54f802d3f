/** Batches of `scheduler.submit` calls, as the scheduling tasks make them.

    A scheduling task submits its tasks one after another; each call raises
    unless every dependency it names is already registered. `SubmitAll`
    runs such a batch, and `SubmitAllSucceeds` says exactly when no call of
    the batch raises: each dependency is registered beforehand or is the id
    of an earlier call of the batch. */
module Submissions {
  import opened Wrappers
  import opened Tasks
  import opened Scheduler
  import opened SchedulerInvariants

  /** The ids of a batch, in submission order. */
  function Ids(subs: seq<Submission>): (r: seq<string>)
    ensures |r| == |subs| && forall i :: 0 <= i < |subs| ==> r[i] == subs[i].id
  {
    seq(|subs|, i requires 0 <= i < |subs| => subs[i].id)
  }

  /** The ids of a batch, as a set. */
  function IdSet(subs: seq<Submission>): (r: set<string>)
    ensures forall x :: x in r <==> x in Ids(subs)
  {
    set x | x in Ids(subs)
  }

  lemma IdsAppend(a: seq<Submission>, b: seq<Submission>)
    ensures Ids(a + b) == Ids(a) + Ids(b)
  {
  }

  lemma IdSetCons(x: Submission, rest: seq<Submission>)
    ensures IdSet([x] + rest) == {x.id} + IdSet(rest)
  {
    assert Ids([x] + rest) == [x.id] + Ids(rest);
  }

  /** Every dependency of every call is in `known` or submitted earlier. */
  predicate DepsKnownInOrder(known: set<string>, subs: seq<Submission>) {
    forall i, d :: 0 <= i < |subs| && d in subs[i].deps ==> d in known || d in Ids(subs)[..i]
  }

  /** Runs the calls of a batch in order, stopping at the first that raises. */
  function SubmitAll(s: State, subs: seq<Submission>): (r: Result<State>)
    requires Inv(s)
    ensures r.Ok? ==> Inv(r.value)
    ensures r.Ok? ==> r.value.tasks.Keys == s.tasks.Keys + IdSet(subs)
    decreases |subs|
  {
    if |subs| == 0 then
      assert IdSet(subs) == {};
      Ok(s)
    else
      match Submit(s, subs[0])
      case Err(msg) => Err(msg)
      case Ok(s') =>
        SubmitKeepsInv(s, subs[0]);
        var r := SubmitAll(s', subs[1..]);
        assert r.Ok? ==> r.value.tasks.Keys == s.tasks.Keys + IdSet(subs) by {
          assert s'.tasks.Keys == s.tasks.Keys + {subs[0].id};
          assert subs == [subs[0]] + subs[1..];
          IdSetCons(subs[0], subs[1..]);
        }
        r
  }

  /** Splitting a batch: the second part sees the first part's ids as known. */
  lemma DepsKnownSplit(known: set<string>, a: Submission, rest: seq<Submission>)
    ensures DepsKnownInOrder(known, [a] + rest) <==>
              (forall d :: d in a.deps ==> d in known) && DepsKnownInOrder(known + {a.id}, rest)
  {
    var subs := [a] + rest;
    assert subs[0] == a;
    assert forall i :: 0 < i < |subs| ==> subs[i] == rest[i - 1];
    assert forall i :: 0 < i <= |subs| ==> Ids(subs)[..i] == [a.id] + Ids(rest)[..i - 1];
    if DepsKnownInOrder(known, subs) {
      forall i, d | 0 <= i < |rest| && d in rest[i].deps ensures d in known + {a.id} || d in Ids(rest)[..i] {
        assert d in subs[i + 1].deps;
      }
    }
    if (forall d :: d in a.deps ==> d in known) && DepsKnownInOrder(known + {a.id}, rest) {
      forall i, d | 0 <= i < |subs| && d in subs[i].deps ensures d in known || d in Ids(subs)[..i] {
        if i == 0 {
          assert d in a.deps;
        } else {
          assert d in rest[i - 1].deps;
          var pre := Ids(subs)[..i];
          assert pre == [a.id] + Ids(rest)[..i - 1];
          assert d in known + {a.id} || d in Ids(rest)[..i - 1];
          if d == a.id {
            assert pre[0] == a.id;
          }
        }
      }
    }
  }

  /** Two batches that each only need `known` can be run one after the other. */
  lemma DepsKnownAppend(known: set<string>, a: seq<Submission>, b: seq<Submission>)
    requires DepsKnownInOrder(known, a) && DepsKnownInOrder(known, b)
    ensures DepsKnownInOrder(known, a + b)
  {
    var ab := a + b;
    forall i, d | 0 <= i < |ab| && d in ab[i].deps ensures d in known || d in Ids(ab)[..i] {
      if i < |a| {
        assert ab[i] == a[i];
        assert Ids(ab)[..i] == Ids(a)[..i];
      } else {
        assert ab[i] == b[i - |a|];
        if d !in known {
          var j :| 0 <= j < i - |a| && Ids(b)[j] == d;
          assert Ids(ab)[|a| + j] == d;
        }
      }
    }
  }

  /** A batch cut in two: the second part sees the first part's ids as known. */
  lemma {:induction false} DepsKnownConcat(known: set<string>, a: seq<Submission>, b: seq<Submission>)
    ensures DepsKnownInOrder(known, a + b) <==> DepsKnownInOrder(known, a) && DepsKnownInOrder(known + IdSet(a), b)
    decreases |a|
  {
    if |a| == 0 {
      assert a + b == b;
      assert known + IdSet(a) == known;
    } else {
      var x := a[0];
      assert a == [x] + a[1..];
      assert a + b == [x] + (a[1..] + b);
      DepsKnownSplit(known, x, a[1..] + b);
      DepsKnownSplit(known, x, a[1..]);
      DepsKnownConcat(known + {x.id}, a[1..], b);
      IdSetCons(x, a[1..]);
      assert known + {x.id} + IdSet(a[1..]) == known + IdSet(a);
    }
  }

  /** More known ids never hurt. */
  lemma DepsKnownMonotone(known: set<string>, more: set<string>, subs: seq<Submission>)
    requires known <= more && DepsKnownInOrder(known, subs)
    ensures DepsKnownInOrder(more, subs)
  {
  }

  /** A batch goes through without raising exactly when each dependency it
      names is registered beforehand or submitted earlier in the batch. */
  lemma {:induction false} SubmitAllSucceeds(s: State, subs: seq<Submission>)
    requires Inv(s)
    ensures SubmitAll(s, subs).Ok? <==> DepsKnownInOrder(s.tasks.Keys, subs)
    decreases |subs|
  {
    if |subs| > 0 {
      var a := subs[0];
      assert subs == [a] + subs[1..];
      match Submit(s, a)
      case Err(_) =>
        assert !DepsKnownInOrder(s.tasks.Keys, subs) by {
          DepsKnownSplit(s.tasks.Keys, a, subs[1..]);
        }
      case Ok(s') =>
        assert SubmitAll(s, subs) == SubmitAll(s', subs[1..]);
        SubmitKeepsInv(s, a);
        SubmitAllSucceeds(s', subs[1..]);
        assert s'.tasks.Keys == s.tasks.Keys + {a.id};
        assert DepsKnownInOrder(s.tasks.Keys, subs) <==> DepsKnownInOrder(s'.tasks.Keys, subs[1..]) by {
          DepsKnownSplit(s.tasks.Keys, a, subs[1..]);
        }
    }
  }
}
