/** Generic sequence helpers: Python list filtering, `list.remove`, and the
    ordering of `sorted()` on strings. */
module Seqs {

  predicate NoDup<T(==)>(xs: seq<T>) {
    forall i, j :: 0 <= i < j < |xs| ==> xs[i] != xs[j]
  }

  /** `a` can be obtained from `b` by deleting elements (relative order kept). */
  predicate Subseq<T(==)>(a: seq<T>, b: seq<T>)
    decreases |b|
  {
    |a| == 0 || (|b| > 0 && if a[0] == b[0] then Subseq(a[1..], b[1..]) else Subseq(a, b[1..]))
  }

  /** `[x for x in xs if f(x)]`. */
  function Filter<T(==,!new)>(xs: seq<T>, f: T -> bool): (r: seq<T>)
    ensures |r| <= |xs|
    ensures forall x :: x in r <==> x in xs && f(x)
    ensures Subseq(r, xs)
    decreases |xs|
  {
    if |xs| == 0 then []
    else if f(xs[0]) then
      var rest := Filter(xs[1..], f);
      assert ([xs[0]] + rest)[1..] == rest;
      [xs[0]] + rest
    else
      var rest := Filter(xs[1..], f);
      assert forall x :: x in xs <==> x == xs[0] || x in xs[1..];
      rest
  }

  lemma {:induction false} FilterKeepsAll<T(!new)>(xs: seq<T>, f: T -> bool)
    requires forall i :: 0 <= i < |xs| ==> f(xs[i])
    ensures Filter(xs, f) == xs
    decreases |xs|
  {
    if |xs| > 0 {
      FilterKeepsAll(xs[1..], f);
      assert xs == [xs[0]] + xs[1..];
    }
  }

  lemma {:induction false} FilterNoDup<T(!new)>(xs: seq<T>, f: T -> bool)
    requires NoDup(xs)
    ensures NoDup(Filter(xs, f))
    decreases |xs|
  {
    if |xs| > 0 {
      assert NoDup(xs[1..]) by {
        forall i, j | 0 <= i < j < |xs| - 1 ensures xs[1..][i] != xs[1..][j] {
          assert xs[1..][i] == xs[i + 1] && xs[1..][j] == xs[j + 1];
        }
      }
      FilterNoDup(xs[1..], f);
      assert xs[0] !in xs[1..] by {
        forall k | 0 <= k < |xs| - 1 ensures xs[1..][k] != xs[0] {
          assert xs[1..][k] == xs[k + 1];
        }
      }
    }
  }

  /** Filtering twice is filtering once by both conditions. */
  lemma {:induction false} FilterCompose<T(!new)>(xs: seq<T>, f: T -> bool, g: T -> bool, fg: T -> bool)
    requires forall x :: x in xs ==> fg(x) == (f(x) && g(x))
    ensures Filter(Filter(xs, f), g) == Filter(xs, fg)
    decreases |xs|
  {
    if |xs| > 0 {
      assert forall x :: x in xs[1..] ==> x in xs;
      FilterCompose(xs[1..], f, g, fg);
      if f(xs[0]) {
        assert Filter(xs, f) == [xs[0]] + Filter(xs[1..], f);
        assert Filter(xs, f)[1..] == Filter(xs[1..], f);
      }
    }
  }

  /** Filtering drops something when some element fails the condition. */
  lemma {:induction false} FilterDrops<T(!new)>(xs: seq<T>, f: T -> bool, x: T)
    requires x in xs && !f(x)
    ensures |Filter(xs, f)| < |xs|
    decreases |xs|
  {
    if xs[0] != x {
      FilterDrops(xs[1..], f, x);
    }
  }

  /** Python's `xs.index(x)`: the position of the first occurrence of `x`. */
  function IndexOf<T(==)>(xs: seq<T>, x: T): (r: nat)
    requires x in xs
    ensures r < |xs| && xs[r] == x
    ensures forall k :: 0 <= k < r ==> xs[k] != x
    decreases |xs|
  {
    if xs[0] == x then 0 else 1 + IndexOf(xs[1..], x)
  }

  /** Python's `xs.remove(x)`: drops the first occurrence of `x`. */
  function RemoveFirst<T(==)>(xs: seq<T>, x: T): (r: seq<T>)
    requires x in xs
    ensures |r| == |xs| - 1
    ensures multiset(r) == multiset(xs) - multiset{x}
    decreases |xs|
  {
    if xs[0] == x then
      assert xs == [xs[0]] + xs[1..];
      xs[1..]
    else
      var rest := RemoveFirst(xs[1..], x);
      assert xs == [xs[0]] + xs[1..];
      [xs[0]] + rest
  }

  lemma RemoveFirstStep<T>(xs: seq<T>, x: T)
    requires x in xs && xs[0] != x
    ensures x in xs[1..] && RemoveFirst(xs, x) == [xs[0]] + RemoveFirst(xs[1..], x)
  {
    assert xs == [xs[0]] + xs[1..];
  }

  lemma ConsCut<T>(xs: seq<T>, i: nat)
    requires 0 < i < |xs|
    ensures [xs[0]] + (xs[1..][..i - 1] + xs[1..][i..]) == xs[..i] + xs[i + 1..]
  {
    assert xs[1..][..i - 1] == xs[1..i] && xs[1..][i..] == xs[i + 1..];
    assert xs[..i] == [xs[0]] + xs[1..i];
  }

  /** Removing the first occurrence of the element at `i` removes position `i`
      when no earlier position holds the same value. */
  lemma {:induction false} RemoveFirstAt<T>(xs: seq<T>, i: nat)
    requires i < |xs|
    requires forall k :: 0 <= k < i ==> xs[k] != xs[i]
    ensures RemoveFirst(xs, xs[i]) == xs[..i] + xs[i + 1..]
    decreases i
  {
    if i == 0 {
      assert xs[..0] + xs[1..] == xs[1..];
    } else {
      var t := xs[1..];
      var x := xs[i];
      assert t[i - 1] == x;
      forall k | 0 <= k < i - 1 ensures t[k] != t[i - 1] {
        assert t[k] == xs[k + 1];
      }
      RemoveFirstAt(t, i - 1);
      assert xs[0] != x;
      RemoveFirstStep(xs, x);
      ConsCut(xs, i);
    }
  }

  /** Inserting a new element keeps a list duplicate-free. */
  lemma NoDupInsert<T>(xs: seq<T>, k: nat, x: T)
    requires k <= |xs| && NoDup(xs) && x !in xs
    ensures NoDup(xs[..k] + [x] + xs[k..])
  {
    var r := xs[..k] + [x] + xs[k..];
    forall i, j | 0 <= i < j < |r| ensures r[i] != r[j] {
      if i < k && j > k {
        assert r[i] == xs[i] && r[j] == xs[j - 1];
      } else if i > k {
        assert r[i] == xs[i - 1] && r[j] == xs[j - 1];
      } else if i == k {
        assert r[j] == xs[j - 1];
      } else if j == k {
        assert r[i] == xs[i];
      }
    }
  }

  /** Concatenating two duplicate-free lists with no common element. */
  lemma NoDupAppend<T>(a: seq<T>, b: seq<T>)
    requires NoDup(a) && NoDup(b) && forall x :: x in a ==> x !in b
    ensures NoDup(a + b)
  {
    var ab := a + b;
    forall i, j | 0 <= i < j < |ab| ensures ab[i] != ab[j] {
      if j >= |a| && i < |a| {
        assert ab[i] in a && ab[j] == b[j - |a|];
      } else if i >= |a| {
        assert ab[i] == b[i - |a|] && ab[j] == b[j - |a|];
      }
    }
  }

  /** Inserting adds exactly the inserted element. */
  lemma InsertMembers<T>(xs: seq<T>, k: nat, x: T)
    requires k <= |xs|
    ensures forall q :: q in xs[..k] + [x] + xs[k..] <==> q in xs || q == x
  {
    assert xs == xs[..k] + xs[k..];
  }

  /** Deleting a position keeps a list duplicate-free and removes its value. */
  lemma NoDupDelete<T>(xs: seq<T>, k: nat)
    requires k < |xs| && NoDup(xs)
    ensures NoDup(xs[..k] + xs[k + 1..])
    ensures forall y :: y in xs[..k] + xs[k + 1..] <==> y in xs && y != xs[k]
  {
    var r := xs[..k] + xs[k + 1..];
    assert forall i :: 0 <= i < |r| ==> r[i] == (if i < k then xs[i] else xs[i + 1]);
    DeleteMembers(xs, k);
    forall y | y in r ensures y != xs[k] {
      var i :| 0 <= i < |r| && r[i] == y;
    }
  }

  /** Deleting a position keeps every other element's membership. */
  lemma DeleteMembers<T>(xs: seq<T>, k: nat)
    requires k < |xs|
    ensures forall y :: y in xs[..k] + xs[k + 1..] ==> y in xs
    ensures forall y :: y in xs && y != xs[k] ==> y in xs[..k] + xs[k + 1..]
  {
    assert xs == xs[..k] + [xs[k]] + xs[k + 1..];
  }

  /** In a duplicate-free list, `remove` deletes exactly the given element. */
  lemma RemoveFirstNoDup<T>(xs: seq<T>, i: nat)
    requires i < |xs| && NoDup(xs)
    ensures NoDup(RemoveFirst(xs, xs[i]))
    ensures forall q :: q in RemoveFirst(xs, xs[i]) <==> q in xs && q != xs[i]
  {
    assert forall k :: 0 <= k < i ==> xs[k] != xs[i];
    RemoveFirstAt(xs, i);
    NoDupDelete(xs, i);
  }

  // ---------------------------------------------------------------------------
  // Python's `sorted()` on strings: code-point lexicographic order.

  predicate LexLe(a: string, b: string)
    decreases |a|
  {
    |a| == 0 || (|b| > 0 && (a[0] < b[0] || (a[0] == b[0] && LexLe(a[1..], b[1..]))))
  }

  lemma {:induction false} LexLeTotal(a: string, b: string)
    ensures LexLe(a, b) || LexLe(b, a)
    decreases |a|
  {
    if |a| > 0 && |b| > 0 && a[0] == b[0] {
      LexLeTotal(a[1..], b[1..]);
    }
  }

  lemma {:induction false} LexLeTrans(a: string, b: string, c: string)
    requires LexLe(a, b) && LexLe(b, c)
    ensures LexLe(a, c)
    decreases |a|
  {
    if |a| > 0 && a[0] == b[0] && b[0] == c[0] {
      LexLeTrans(a[1..], b[1..], c[1..]);
    }
  }

  lemma {:induction false} LexLeAntisym(a: string, b: string)
    requires LexLe(a, b) && LexLe(b, a)
    ensures a == b
    decreases |a|
  {
    if |a| > 0 {
      LexLeAntisym(a[1..], b[1..]);
      assert a == [a[0]] + a[1..] && b == [b[0]] + b[1..];
    }
  }

  lemma {:induction false} LexLeRefl(a: string)
    ensures LexLe(a, a)
    decreases |a|
  {
    if |a| > 0 { LexLeRefl(a[1..]); }
  }

  predicate Sorted(xs: seq<string>) {
    forall i, j :: 0 <= i < j < |xs| ==> LexLe(xs[i], xs[j])
  }

  function Insert(x: string, xs: seq<string>): (r: seq<string>)
    requires Sorted(xs)
    ensures Sorted(r)
    ensures multiset(r) == multiset(xs) + multiset{x}
    decreases |xs|
  {
    if |xs| == 0 then [x]
    else if LexLe(x, xs[0]) then
      forall j | 0 <= j < |xs| ensures LexLe(x, xs[j]) {
        if j > 0 { LexLeTrans(x, xs[0], xs[j]); }
      }
      assert xs == [xs[0]] + xs[1..];
      [x] + xs
    else
      LexLeTotal(x, xs[0]);
      var rest := Insert(x, xs[1..]);
      assert xs == [xs[0]] + xs[1..];
      var r := [xs[0]] + rest;
      forall j | 0 < j < |r| ensures LexLe(xs[0], r[j]) {
        assert r[j] in multiset(rest);
        assert r[j] == x || r[j] in multiset(xs[1..]);
      }
      r
  }

  /** Python's `sorted(xs)` (insertion sort). */
  function Sort(xs: seq<string>): (r: seq<string>)
    ensures Sorted(r)
    ensures multiset(r) == multiset(xs)
    ensures forall x :: x in r <==> x in xs
    decreases |xs|
  {
    if |xs| == 0 then []
    else
      assert xs == [xs[0]] + xs[1..];
      var r := Insert(xs[0], Sort(xs[1..]));
      assert forall x :: x in r <==> x in multiset(r);
      assert forall x :: x in xs <==> x in multiset(xs);
      r
  }

  /** Two sorted arrangements of one multiset start with the same string. */
  lemma SortedHeads(a: seq<string>, b: seq<string>)
    requires Sorted(a) && Sorted(b) && |a| > 0 && |b| > 0
    requires multiset(a) == multiset(b)
    ensures a[0] == b[0]
  {
    assert a[0] in multiset(b);
    var k :| 0 <= k < |b| && b[k] == a[0];
    assert b[0] in multiset(a);
    var m :| 0 <= m < |a| && a[m] == b[0];
    assert LexLe(b[0], a[0]) by { if k > 0 { assert LexLe(b[0], b[k]); } else { LexLeRefl(a[0]); } }
    assert LexLe(a[0], b[0]) by { if m > 0 { assert LexLe(a[0], a[m]); } else { LexLeRefl(b[0]); } }
    LexLeAntisym(a[0], b[0]);
  }

  /** Dropping equal heads keeps the multisets equal. */
  lemma MultisetTails<T>(a: seq<T>, b: seq<T>)
    requires |a| > 0 && |b| > 0 && a[0] == b[0] && multiset(a) == multiset(b)
    ensures multiset(a[1..]) == multiset(b[1..])
  {
    assert a == [a[0]] + a[1..] && b == [b[0]] + b[1..];
    assert multiset(a) == multiset{a[0]} + multiset(a[1..]);
    assert multiset(b) == multiset{b[0]} + multiset(b[1..]);
    assert multiset(a[1..]) == multiset(a) - multiset{a[0]};
    assert multiset(b[1..]) == multiset(b) - multiset{b[0]};
  }

  /** A sorted arrangement of a multiset of strings is unique. */
  lemma {:induction false} SortedUnique(a: seq<string>, b: seq<string>)
    requires Sorted(a) && Sorted(b)
    requires multiset(a) == multiset(b)
    ensures a == b
    decreases |a|
  {
    assert |a| == |multiset(a)| == |b|;
    if |a| > 0 {
      SortedHeads(a, b);
      MultisetTails(a, b);
      assert Sorted(a[1..]) && Sorted(b[1..]);
      SortedUnique(a[1..], b[1..]);
      assert a == [a[0]] + a[1..] && b == [b[0]] + b[1..];
    }
  }

  /** `sorted()` gives the same list for any two arrangements of the same names. */
  lemma SortPermutationInvariant(xs: seq<string>, ys: seq<string>)
    requires multiset(xs) == multiset(ys)
    ensures Sort(xs) == Sort(ys)
  {
    SortedUnique(Sort(xs), Sort(ys));
  }
}
