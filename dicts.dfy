/** Python dictionaries as association lists in insertion order. `Get` reads the
    last binding of a key, `Put` is `d[k] = v` (a present key keeps its place, a
    new one goes last) and `Update` is `d.update(e)`. */
module Dicts {
  import opened Wrappers

  function Keys<K, V>(d: seq<(K, V)>): (ks: seq<K>)
    ensures |ks| == |d| && forall i :: 0 <= i < |d| ==> ks[i] == d[i].0
  {
    seq(|d|, i requires 0 <= i < |d| => d[i].0)
  }

  predicate HasKey<K(==), V>(d: seq<(K, V)>, k: K) {
    exists i :: 0 <= i < |d| && d[i].0 == k
  }

  /** `d.get(k)`: the value bound last to `k`. */
  function Get<K(==), V>(d: seq<(K, V)>, k: K): (r: Option<V>)
    ensures r.None? <==> !HasKey(d, k)
    ensures r.Some? ==> exists i :: 0 <= i < |d| && d[i] == (k, r.value)
  {
    if d == [] then None
    else if d[|d| - 1].0 == k then Some(d[|d| - 1].1)
    else
      var r := Get(d[..|d| - 1], k);
      assert forall i :: 0 <= i < |d| - 1 ==> d[..|d| - 1][i] == d[i];
      r
  }

  /** Two lists that agree wherever either binds `k` give the same value for `k`. */
  lemma {:induction false} GetPointwise<K, V>(d: seq<(K, V)>, e: seq<(K, V)>, k: K)
    requires |d| == |e|
    requires forall i :: 0 <= i < |d| && (d[i].0 == k || e[i].0 == k) ==> d[i] == e[i]
    ensures Get(d, k) == Get(e, k)
  {
    if d != [] {
      GetPointwise(d[..|d| - 1], e[..|e| - 1], k);
    }
  }

  /** Rebind every occurrence of `k` in place. */
  function Replace<K(==), V>(d: seq<(K, V)>, k: K, v: V): (r: seq<(K, V)>)
    ensures |r| == |d|
    ensures forall i :: 0 <= i < |d| ==> r[i] == if d[i].0 == k then (k, v) else d[i]
  {
    seq(|d|, i requires 0 <= i < |d| => if d[i].0 == k then (k, v) else d[i])
  }

  /** `d[k] = v`. */
  function Put<K(==,!new), V>(d: seq<(K, V)>, k: K, v: V): (r: seq<(K, V)>)
    ensures Get(r, k) == Some(v)
    ensures forall j :: j != k ==> Get(r, j) == Get(d, j)
    ensures Keys(r) == if HasKey(d, k) then Keys(d) else Keys(d) + [k]
    ensures forall p :: p in r ==> p in d || p == (k, v)
  {
    if HasKey(d, k) then
      var r := Replace(d, k, v);
      forall j | j != k ensures Get(r, j) == Get(d, j) {
        GetPointwise(r, d, j);
      }
      assert HasKey(r, k);
      r
    else
      var r := d + [(k, v)];
      forall j | j != k ensures Get(r, j) == Get(d, j) {
        assert r[..|r| - 1] == d;
      }
      r
  }

  lemma HasKeyKeys<K, V>(d: seq<(K, V)>, k: K)
    ensures HasKey(d, k) <==> k in Keys(d)
  {
    if k in Keys(d) {
      var i :| 0 <= i < |d| && Keys(d)[i] == k;
    }
  }

  lemma HasKeySnoc<K, V>(e: seq<(K, V)>, k: K)
    requires e != []
    ensures HasKey(e, k) <==> HasKey(e[..|e| - 1], k) || e[|e| - 1].0 == k
  {
    if HasKey(e, k) && e[|e| - 1].0 != k {
      var i :| 0 <= i < |e| && e[i].0 == k;
      assert e[..|e| - 1][i].0 == k;
    }
    if HasKey(e[..|e| - 1], k) {
      var i :| 0 <= i < |e| - 1 && e[..|e| - 1][i].0 == k;
      assert e[i].0 == k;
    }
  }

  /** A binding added last is the one `Get` reads for its key. */
  lemma GetSnoc<K, V>(d: seq<(K, V)>, p: (K, V), k: K)
    ensures Get(d + [p], k) == if p.0 == k then Some(p.1) else Get(d, k)
  {
    assert (d + [p])[..|d|] == d;
  }

  /** One step of `Update`: adding the last binding of `e` keeps its contract. */
  lemma UpdateStep<K(!new), V>(d: seq<(K, V)>, e: seq<(K, V)>, prev: seq<(K, V)>)
    requires e != []
    requires forall k :: Get(prev, k) == if HasKey(e[..|e| - 1], k) then Get(e[..|e| - 1], k) else Get(d, k)
    requires |prev| >= |d| && forall i :: 0 <= i < |d| ==> prev[i].0 == d[i].0
    requires forall k :: HasKey(prev, k) <==> HasKey(d, k) || HasKey(e[..|e| - 1], k)
    ensures var r := Put(prev, e[|e| - 1].0, e[|e| - 1].1);
      && (forall k :: Get(r, k) == if HasKey(e, k) then Get(e, k) else Get(d, k))
      && |r| >= |d| && (forall i :: 0 <= i < |d| ==> r[i].0 == d[i].0)
      && (forall k :: HasKey(r, k) <==> HasKey(d, k) || HasKey(e, k))
  {
    var last := e[|e| - 1];
    var r := Put(prev, last.0, last.1);
    forall k ensures HasKey(e, k) <==> HasKey(e[..|e| - 1], k) || k == last.0 {
      HasKeySnoc(e, k);
    }
    forall k ensures HasKey(r, k) <==> HasKey(prev, k) || k == last.0 {
      HasKeyKeys(r, k);
      HasKeyKeys(prev, k);
    }
    assert Keys(r)[..|prev|] == Keys(prev);
  }

  /** `d.update(e)`: every binding of `e` in order. */
  function Update<K(==,!new), V>(d: seq<(K, V)>, e: seq<(K, V)>): (r: seq<(K, V)>)
    ensures forall k :: Get(r, k) == if HasKey(e, k) then Get(e, k) else Get(d, k)
    ensures |r| >= |d| && forall i :: 0 <= i < |d| ==> r[i].0 == d[i].0
    ensures forall k :: HasKey(r, k) <==> HasKey(d, k) || HasKey(e, k)
    ensures forall p :: p in r ==> p in d || p in e
  {
    if e == [] then d
    else
      var prev := Update(d, e[..|e| - 1]);
      UpdateStep(d, e, prev);
      assert e[|e| - 1] in e;
      Put(prev, e[|e| - 1].0, e[|e| - 1].1)
  }

  predicate DistinctKeys<K(==), V>(d: seq<(K, V)>) {
    forall i, j :: 0 <= i < j < |d| ==> d[i].0 != d[j].0
  }

  /** `d[k] = v` never repeats a key. */
  lemma PutDistinct<K(!new), V>(d: seq<(K, V)>, k: K, v: V)
    requires DistinctKeys(d)
    ensures DistinctKeys(Put(d, k, v))
  {
    var r := Put(d, k, v);
    assert Keys(r) == if HasKey(d, k) then Keys(d) else Keys(d) + [k];
    if !HasKey(d, k) {
      forall i | 0 <= i < |d| ensures r[i].0 != k {
        assert Keys(r)[i] == Keys(d)[i];
      }
    }
    forall i, j | 0 <= i < j < |r| ensures r[i].0 != r[j].0 {
      assert Keys(r)[i] == r[i].0 && Keys(r)[j] == r[j].0;
      if j < |d| {
        assert Keys(d)[i] == d[i].0 && Keys(d)[j] == d[j].0;
      }
    }
  }

  /** In a list without repeated keys, every pair is the binding `Get` reads. */
  lemma {:induction false} GetDistinct<K, V>(d: seq<(K, V)>, i: nat)
    requires DistinctKeys(d) && i < |d|
    ensures Get(d, d[i].0) == Some(d[i].1)
  {
    if i < |d| - 1 {
      assert d[..|d| - 1][i] == d[i];
      GetDistinct(d[..|d| - 1], i);
    }
  }

  /** `d.update(e)` never repeats a key either. */
  lemma {:induction false} UpdateDistinct<K(!new), V>(d: seq<(K, V)>, e: seq<(K, V)>)
    requires DistinctKeys(d)
    ensures DistinctKeys(Update(d, e))
  {
    if e != [] {
      UpdateDistinct(d, e[..|e| - 1]);
      PutDistinct(Update(d, e[..|e| - 1]), e[|e| - 1].0, e[|e| - 1].1);
    }
  }

  /** `del d[k]`: every binding of `k` goes, the rest keep their order. */
  function Remove<K(==), V>(d: seq<(K, V)>, k: K): (r: seq<(K, V)>)
    ensures forall i :: 0 <= i < |r| ==> r[i] in d && r[i].0 != k
    ensures forall i :: 0 <= i < |d| && d[i].0 != k ==> d[i] in r
    ensures |r| <= |d|
  {
    if d == [] then []
    else
      var rest := Remove(d[1..], k);
      assert forall i :: 1 <= i < |d| ==> d[i] == d[1..][i - 1];
      if d[0].0 == k then rest else [d[0]] + rest
  }

  lemma {:induction false} RemoveAbsent<K, V>(d: seq<(K, V)>, k: K)
    requires !HasKey(d, k)
    ensures Remove(d, k) == d
  {
    if d != [] {
      assert !HasKey(d[1..], k) by {
        forall i | 0 <= i < |d| - 1 ensures d[1..][i].0 != k {
          assert d[1..][i] == d[i + 1];
        }
      }
      RemoveAbsent(d[1..], k);
      assert d == [d[0]] + d[1..];
    }
  }

  /** Deleting the oldest key of a list without repeated keys drops exactly its first binding. */
  lemma RemoveOldest<K, V>(d: seq<(K, V)>)
    requires DistinctKeys(d) && d != []
    ensures Remove(d, d[0].0) == d[1..]
  {
    assert !HasKey(d[1..], d[0].0) by {
      forall i | 0 <= i < |d| - 1 ensures d[1..][i].0 != d[0].0 {
        assert d[1..][i] == d[i + 1];
      }
    }
    RemoveAbsent(d[1..], d[0].0);
  }

  /** `{k: f(v) for k, v in d.items()}`: same keys in the same order. */
  function MapValues<K, V, W>(d: seq<(K, V)>, f: V -> W): (r: seq<(K, W)>)
    ensures Keys(r) == Keys(d)
  {
    if d == [] then []
    else MapValues(d[..|d| - 1], f) + [(d[|d| - 1].0, f(d[|d| - 1].1))]
  }

  /** Reading a mapped dictionary is mapping what the original holds. */
  lemma {:induction false} MapValuesGet<K, V, W>(d: seq<(K, V)>, f: V -> W, k: K)
    ensures Get(MapValues(d, f), k) == if Get(d, k).Some? then Some(f(Get(d, k).value)) else None
  {
    if d != [] {
      MapValuesGet(d[..|d| - 1], f, k);
      assert MapValues(d, f)[..|d| - 1] == MapValues(d[..|d| - 1], f);
    }
  }

  /** Mapping values never repeats a key. */
  lemma MapValuesDistinct<K, V, W>(d: seq<(K, V)>, f: V -> W)
    requires DistinctKeys(d)
    ensures DistinctKeys(MapValues(d, f))
  {
    var r := MapValues(d, f);
    forall i, j | 0 <= i < j < |r| ensures r[i].0 != r[j].0 {
      assert Keys(r)[i] == Keys(d)[i] && Keys(r)[j] == Keys(d)[j];
    }
  }
}
