/** Python dicts with string keys, as the scheduling tasks build them: a list
    of key/value pairs in insertion order, where assigning to a present key
    replaces its value in place. */
module Dicts {
  import opened Wrappers
  import Seqs

  type Dict<V> = seq<(string, V)>

  /** `list(d.keys())`. */
  function Keys<V>(d: Dict<V>): (r: seq<string>)
    ensures |r| == |d| && forall i :: 0 <= i < |d| ==> r[i] == d[i].0
  {
    seq(|d|, i requires 0 <= i < |d| => d[i].0)
  }

  /** `d.get(k)`. */
  function Get<V>(d: Dict<V>, k: string): (r: Option<V>)
    ensures r.Some? <==> k in Keys(d)
    ensures r.Some? ==> (k, r.value) in d
    decreases |d|
  {
    if |d| == 0 then None
    else
      assert Keys(d) == [d[0].0] + Keys(d[1..]);
      if d[0].0 == k then Some(d[0].1) else Get(d[1..], k)
  }

  lemma KeysCons<V>(p: (string, V), t: Dict<V>)
    ensures Keys([p] + t) == [p.0] + Keys(t)
  {
  }

  /** `d[k] = v`. */
  function Put<V>(d: Dict<V>, k: string, v: V): (r: Dict<V>)
    ensures Keys(r) == if k in Keys(d) then Keys(d) else Keys(d) + [k]
    decreases |d|
  {
    if |d| == 0 then
      KeysCons((k, v), []);
      [(k, v)]
    else
      assert d == [d[0]] + d[1..];
      KeysCons(d[0], d[1..]);
      if d[0].0 == k then
        KeysCons((k, v), d[1..]);
        [(k, v)] + d[1..]
      else
        var t := Put(d[1..], k, v);
        KeysCons(d[0], t);
        assert k !in Keys(d) ==> Keys(d) + [k] == [d[0].0] + (Keys(d[1..]) + [k]);
        [d[0]] + t
  }

  /** Assigning keeps the keys duplicate-free. */
  lemma PutNoDup<V>(d: Dict<V>, k: string, v: V)
    requires Seqs.NoDup(Keys(d))
    ensures Seqs.NoDup(Keys(Put(d, k, v)))
  {
    if k !in Keys(d) {
      Seqs.NoDupInsert(Keys(d), |Keys(d)|, k);
      assert Keys(d)[..|Keys(d)|] + [k] + Keys(d)[|Keys(d)|..] == Keys(d) + [k];
    }
  }

  /** The assigned key holds the assigned value. */
  lemma {:induction false} PutGet<V>(d: Dict<V>, k: string, v: V)
    ensures Get(Put(d, k, v), k) == Some(v)
    decreases |d|
  {
    if |d| > 0 && d[0].0 != k {
      PutGet(d[1..], k, v);
      assert ([d[0]] + Put(d[1..], k, v))[1..] == Put(d[1..], k, v);
    }
  }

  /** Assigning to `k` leaves every other key's value alone. */
  lemma {:induction false} PutKeepsOthers<V>(d: Dict<V>, k: string, v: V, k': string)
    requires k' != k
    ensures Get(Put(d, k, v), k') == Get(d, k')
    decreases |d|
  {
    if |d| > 0 && d[0].0 != k {
      PutKeepsOthers(d[1..], k, v, k');
      assert ([d[0]] + Put(d[1..], k, v))[1..] == Put(d[1..], k, v);
    } else if |d| > 0 {
      assert ([(k, v)] + d[1..])[1..] == d[1..];
    }
  }

  /** The value of the last pair with key `k`. */
  function LastValue<V>(pairs: Dict<V>, k: string): (r: Option<V>)
    ensures r.Some? <==> k in Keys(pairs)
    decreases |pairs|
  {
    if |pairs| == 0 then None
    else
      var n := |pairs| - 1;
      assert Keys(pairs) == Keys(pairs[..n]) + [pairs[n].0];
      if pairs[n].0 == k then Some(pairs[n].1) else LastValue(pairs[..n], k)
  }

  /** `for k, v in pairs: d[k] = v`. */
  function PutAll<V>(d: Dict<V>, pairs: Dict<V>): (r: Dict<V>)
    ensures forall k :: k in Keys(r) <==> k in Keys(d) || k in Keys(pairs)
    ensures Seqs.NoDup(Keys(d)) ==> Seqs.NoDup(Keys(r))
    decreases |pairs|
  {
    if |pairs| == 0 then d
    else
      var n := |pairs| - 1;
      assert Keys(pairs) == Keys(pairs[..n]) + [pairs[n].0];
      var t := PutAll(d, pairs[..n]);
      assert Seqs.NoDup(Keys(t)) ==> Seqs.NoDup(Keys(Put(t, pairs[n].0, pairs[n].1))) by {
        if Seqs.NoDup(Keys(t)) { PutNoDup(t, pairs[n].0, pairs[n].1); }
      }
      Put(t, pairs[n].0, pairs[n].1)
  }

  /** After the assignments, a key holds the value it was last assigned, or
      its old value when none assigned it. */
  lemma {:induction false} PutAllGet<V>(d: Dict<V>, pairs: Dict<V>, k: string)
    ensures Get(PutAll(d, pairs), k) == if k in Keys(pairs) then LastValue(pairs, k) else Get(d, k)
    decreases |pairs|
  {
    if |pairs| > 0 {
      var n := |pairs| - 1;
      assert Keys(pairs) == Keys(pairs[..n]) + [pairs[n].0];
      PutAllGet(d, pairs[..n], k);
      if pairs[n].0 == k {
        PutGet(PutAll(d, pairs[..n]), k, pairs[n].1);
      } else {
        PutKeepsOthers(PutAll(d, pairs[..n]), pairs[n].0, pairs[n].1, k);
      }
    }
  }

  /** When every pair with key `k` carries `v`, the last one does. */
  lemma {:induction false} LastValueUniform<V>(pairs: Dict<V>, k: string, v: V)
    requires k in Keys(pairs)
    requires forall x :: x in pairs && x.0 == k ==> x.1 == v
    ensures LastValue(pairs, k) == Some(v)
    decreases |pairs|
  {
    var n := |pairs| - 1;
    assert pairs[n] in pairs;
    if pairs[n].0 != k {
      assert Keys(pairs) == Keys(pairs[..n]) + [pairs[n].0];
      assert forall x :: x in pairs[..n] ==> x in pairs;
      LastValueUniform(pairs[..n], k, v);
    }
  }
}
