/** Sequence helpers shared by the loaders: mapping each element to a list and
    concatenating the lists, as a loop of `extend` calls does. */
module Seqs {

  /** A non-empty list holds what its front holds and its last element. */
  lemma SnocMember<A>(s: seq<A>, x: A)
    requires s != []
    ensures x in s <==> x in s[..|s| - 1] || x == s[|s| - 1]
  {
    assert s == s[..|s| - 1] + [s[|s| - 1]];
  }

  /** A prefix one longer ends with the next element. */
  lemma PrefixSnoc<A>(s: seq<A>, i: nat)
    requires i < |s|
    ensures s[..i + 1] == s[..i] + [s[i]]
  {
  }

  /** `f` applied to each element in turn, the results concatenated. */
  function ConcatMap<A, B>(xs: seq<A>, f: A -> seq<B>): seq<B> {
    if xs == [] then [] else ConcatMap(xs[..|xs| - 1], f) + f(xs[|xs| - 1])
  }

  lemma {:induction false} ConcatMapAppend<A, B>(a: seq<A>, b: seq<A>, f: A -> seq<B>)
    ensures ConcatMap(a + b, f) == ConcatMap(a, f) + ConcatMap(b, f)
    decreases |b|
  {
    if b != [] {
      assert (a + b)[..|a + b| - 1] == a + b[..|b| - 1];
      ConcatMapAppend(a, b[..|b| - 1], f);
    } else {
      assert a + b == a;
    }
  }

  lemma {:induction false} ConcatMapMember<A, B>(xs: seq<A>, f: A -> seq<B>, y: B)
    requires y in ConcatMap(xs, f)
    ensures exists k :: 0 <= k < |xs| && y in f(xs[k])
  {
    var init := xs[..|xs| - 1];
    if y in ConcatMap(init, f) {
      ConcatMapMember(init, f, y);
      var k :| 0 <= k < |init| && y in f(init[k]);
      assert init[k] == xs[k];
    } else {
      assert y in f(xs[|xs| - 1]);
    }
  }

  lemma {:induction false} ConcatMapPermutation<A, B>(a: seq<A>, b: seq<A>, f: A -> seq<B>)
    requires multiset(a) == multiset(b)
    ensures multiset(ConcatMap(a, f)) == multiset(ConcatMap(b, f))
    decreases |b|
  {
    assert |a| == |b| by { assert |multiset(a)| == |a| && |multiset(b)| == |b|; }
    if b != [] {
      var x := b[|b| - 1];
      var init := b[..|b| - 1];
      assert x in multiset(a);
      var i :| 0 <= i < |a| && a[i] == x;
      var rest := a[..i] + a[i + 1..];
      assert a == a[..i] + [x] + a[i + 1..];
      assert b == init + [x];
      assert multiset(a) == multiset(a[..i]) + multiset{x} + multiset(a[i + 1..]);
      assert multiset(rest) == multiset(a[..i]) + multiset(a[i + 1..]);
      assert multiset(rest) == multiset(a) - multiset{x};
      assert multiset(b) == multiset(init) + multiset{x};
      assert multiset(init) == multiset(b) - multiset{x};
      ConcatMapPermutation(rest, init, f);
      ConcatMapAppend(a[..i] + [x], a[i + 1..], f);
      ConcatMapAppend(a[..i], [x], f);
      ConcatMapAppend(a[..i], a[i + 1..], f);
      assert [x][..0] == [];
      assert ConcatMap([x], f) == f(x);
    }
  }

  /** Each element's results appear in the concatenation. */
  lemma {:induction false} ConcatMapContains<A, B>(xs: seq<A>, f: A -> seq<B>, k: nat, y: B)
    requires k < |xs| && y in f(xs[k])
    ensures y in ConcatMap(xs, f)
  {
    if k < |xs| - 1 {
      assert xs[..|xs| - 1][k] == xs[k];
      ConcatMapContains(xs[..|xs| - 1], f, k, y);
    }
  }
}
