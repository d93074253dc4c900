/**
 * Row-wise table operations: a boolean mask (`df[mask]`, `dropna`), a
 * column overwrite (`df[col] = df[col].apply(f)`) and the composition of
 * both, with the facts the pipeline needs about order and membership.
 */
module Seqs {
  import opened Wrappers

  /** Keeps the elements `p` accepts, in their original order. */
  function Filter<T>(xs: seq<T>, p: T -> bool): (r: seq<T>)
    ensures |r| <= |xs|
    ensures forall i :: 0 <= i < |r| ==> p(r[i])
    ensures forall i :: 0 <= i < |r| ==> r[i] in xs
    ensures forall i :: 0 <= i < |xs| && p(xs[i]) ==> xs[i] in r
  {
    if xs == [] then [] else (if p(xs[0]) then [xs[0]] else []) + Filter(xs[1..], p)
  }

  /** Applies `f` to every element. */
  function Map<T, U>(xs: seq<T>, f: T -> U): (r: seq<U>)
    ensures |r| == |xs|
    ensures forall i :: 0 <= i < |xs| ==> r[i] == f(xs[i])
  {
    seq(|xs|, i requires 0 <= i < |xs| => f(xs[i]))
  }

  /** Keeps the `Some` results of `f`, in the order of their elements. */
  function FilterMap<T, U>(xs: seq<T>, f: T -> Option<U>): seq<U> {
    if xs == [] then []
    else (if f(xs[0]).Some? then [f(xs[0]).value] else []) + FilterMap(xs[1..], f)
  }

  /** The positions of `xs` at which `f` gives `Some`, in increasing order. */
  function KeptIndices<T, U>(xs: seq<T>, f: T -> Option<U>): (r: seq<nat>)
    ensures forall k :: 0 <= k < |r| ==> r[k] < |xs|
  {
    if xs == [] then []
    else KeptIndices(xs[..|xs| - 1], f) + (if f(xs[|xs| - 1]).Some? then [|xs| - 1] else [])
  }

  predicate Increasing(s: seq<nat>) {
    forall i, j :: 0 <= i < j < |s| ==> s[i] < s[j]
  }

  lemma {:induction false} FilterConcat<T>(a: seq<T>, b: seq<T>, p: T -> bool)
    ensures Filter(a + b, p) == Filter(a, p) + Filter(b, p)
  {
    if a != [] {
      assert (a + b)[1..] == a[1..] + b;
      FilterConcat(a[1..], b, p);
    } else {
      assert a + b == b;
    }
  }

  lemma MapConcat<T, U>(a: seq<T>, b: seq<T>, f: T -> U)
    ensures Map(a + b, f) == Map(a, f) + Map(b, f)
  {
  }

  lemma FilterSingle<T>(x: T, p: T -> bool)
    ensures Filter([x], p) == if p(x) then [x] else []
  {
    assert [x][1..] == [];
  }

  lemma FilterMapSingle<T, U>(x: T, f: T -> Option<U>)
    ensures FilterMap([x], f) == if f(x).Some? then [f(x).value] else []
  {
    assert [x][1..] == [];
  }

  lemma {:induction false} FilterMapConcat<T, U>(a: seq<T>, b: seq<T>, f: T -> Option<U>)
    ensures FilterMap(a + b, f) == FilterMap(a, f) + FilterMap(b, f)
  {
    if a != [] {
      assert (a + b)[1..] == a[1..] + b;
      FilterMapConcat(a[1..], b, f);
    } else {
      assert a + b == b;
    }
  }

  /**
   * `FilterMap` only drops elements: its k-th result is `f` of the element
   * at the k-th kept position, the kept positions are increasing, and a
   * position is kept exactly when `f` gives `Some` there.
   */
  lemma FilterMapKeeps<T, U>(xs: seq<T>, f: T -> Option<U>)
    ensures |KeptIndices(xs, f)| == |FilterMap(xs, f)|
    ensures Increasing(KeptIndices(xs, f))
    ensures forall k :: 0 <= k < |KeptIndices(xs, f)| ==>
      f(xs[KeptIndices(xs, f)[k]]) == Some(FilterMap(xs, f)[k])
    ensures forall i :: 0 <= i < |xs| ==> (f(xs[i]).Some? <==> i in KeptIndices(xs, f))
  {
    KeptValues(xs, f);
    KeptIncreasing(xs, f);
    KeptMembership(xs, f);
  }

  /** `FilterMap` of a non-empty sequence, split before its last element. */
  lemma FilterMapSnoc<T, U>(xs: seq<T>, f: T -> Option<U>)
    requires xs != []
    ensures FilterMap(xs, f) == FilterMap(xs[..|xs| - 1], f)
      + (if f(xs[|xs| - 1]).Some? then [f(xs[|xs| - 1]).value] else [])
  {
    var n := |xs|;
    assert xs == xs[..n - 1] + [xs[n - 1]];
    FilterMapConcat(xs[..n - 1], [xs[n - 1]], f);
    FilterMapSingle(xs[n - 1], f);
  }

  lemma {:induction false} KeptValues<T, U>(xs: seq<T>, f: T -> Option<U>)
    ensures |KeptIndices(xs, f)| == |FilterMap(xs, f)|
    ensures forall k :: 0 <= k < |KeptIndices(xs, f)| ==>
      f(xs[KeptIndices(xs, f)[k]]) == Some(FilterMap(xs, f)[k])
    decreases |xs|
  {
    if xs != [] {
      var n := |xs|;
      var init := xs[..n - 1];
      KeptValues(init, f);
      FilterMapSnoc(xs, f);
      var ki := KeptIndices(init, f);
      forall k | 0 <= k < |ki| ensures xs[ki[k]] == init[ki[k]] { }
    }
  }

  lemma {:induction false} KeptIncreasing<T, U>(xs: seq<T>, f: T -> Option<U>)
    ensures Increasing(KeptIndices(xs, f))
    decreases |xs|
  {
    if xs != [] {
      KeptIncreasing(xs[..|xs| - 1], f);
    }
  }

  lemma {:induction false} KeptMembership<T, U>(xs: seq<T>, f: T -> Option<U>)
    ensures forall i :: 0 <= i < |xs| ==> (f(xs[i]).Some? <==> i in KeptIndices(xs, f))
    decreases |xs|
  {
    if xs != [] {
      var n := |xs|;
      var init := xs[..n - 1];
      KeptMembership(init, f);
      var ki := KeptIndices(init, f);
      assert n - 1 !in ki;
      forall i | 0 <= i < n - 1 ensures xs[i] == init[i] { }
    }
  }

  /** `a` is a subsequence of `b`: `b` with some elements left out. */
  predicate Subsequence<T(==)>(a: seq<T>, b: seq<T>)
    decreases |b|
  {
    if a == [] then true
    else if b == [] then false
    else (a[0] == b[0] && Subsequence(a[1..], b[1..])) || Subsequence(a, b[1..])
  }
}
