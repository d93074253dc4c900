/**
 * pandas' `groupby(key)[col].sum()` / `.count()` / `value_counts()` over
 * a table held as a sequence, and the conservation law every such
 * grouping obeys: the groups' sums add up to the sum over the table.
 */
module Groups {
  import Seqs

  /** The sum of `w` over `xs` (`df[col].sum()` when `w` reads `col`). */
  function Total<T>(xs: seq<T>, w: T -> int): int {
    if xs == [] then 0 else w(xs[0]) + Total(xs[1..], w)
  }

  /** The weight that turns a sum into a row count. */
  function One<T>(x: T): int { 1 }

  /** The rows whose key is `k`, in table order (one group of a `groupby`). */
  function WithKey<T, K(==)>(xs: seq<T>, key: T -> K, k: K): (r: seq<T>)
    ensures |r| <= |xs|
    ensures forall i :: 0 <= i < |r| ==> key(r[i]) == k
  {
    if xs == [] then []
    else (if key(xs[0]) == k then [xs[0]] else []) + WithKey(xs[1..], key, k)
  }

  /** The sum of `w` over the group whose key is `k`. */
  function GroupTotal<T, K(==)>(xs: seq<T>, key: T -> K, k: K, w: T -> int): int {
    Total(WithKey(xs, key, k), w)
  }

  /** The sum of the group totals of the keys `ks`. */
  function SumOverKeys<T, K(==)>(xs: seq<T>, key: T -> K, w: T -> int, ks: seq<K>): int {
    if ks == [] then 0 else GroupTotal(xs, key, ks[0], w) + SumOverKeys(xs, key, w, ks[1..])
  }

  /** No key is listed twice. */
  predicate Distinct<K(==)>(ks: seq<K>) {
    forall i, j :: 0 <= i < j < |ks| ==> ks[i] != ks[j]
  }

  /** Some row of `xs` has key `k`. */
  predicate HasKey<T, K(==)>(xs: seq<T>, key: T -> K, k: K) {
    exists i :: 0 <= i < |xs| && key(xs[i]) == k
  }

  /** The distinct keys of `xs`, in order of first occurrence (the groups of a `groupby`). */
  function DistinctKeys<T, K(==)>(xs: seq<T>, key: T -> K): (ks: seq<K>)
    ensures Distinct(ks)
    ensures forall i :: 0 <= i < |xs| ==> key(xs[i]) in ks
    ensures forall j :: 0 <= j < |ks| ==> HasKey(xs, key, ks[j])
    decreases |xs|
  {
    if xs == [] then []
    else
      var init := xs[..|xs| - 1];
      var k := key(xs[|xs| - 1]);
      var d := DistinctKeys(init, key);
      assert forall i :: 0 <= i < |init| ==> xs[i] == init[i];
      assert forall j :: 0 <= j < |d| ==> HasKey(init, key, d[j]) ==> HasKey(xs, key, d[j]);
      if k in d then d else d + [k]
  }

  lemma {:induction false} TotalConcat<T>(a: seq<T>, b: seq<T>, w: T -> int)
    ensures Total(a + b, w) == Total(a, w) + Total(b, w)
  {
    if a != [] {
      assert (a + b)[1..] == a[1..] + b;
      TotalConcat(a[1..], b, w);
    } else {
      assert a + b == b;
    }
  }

  /** Counting rows by summing ones. */
  lemma {:induction false} TotalOne<T>(xs: seq<T>)
    ensures Total(xs, One) == |xs|
  {
    if xs != [] {
      TotalOne(xs[1..]);
    }
  }

  /** A sum of non-negative weights is non-negative. */
  lemma {:induction false} TotalNonNegative<T>(xs: seq<T>, w: T -> int)
    requires forall i :: 0 <= i < |xs| ==> w(xs[i]) >= 0
    ensures Total(xs, w) >= 0
  {
    if xs != [] {
      assert forall i :: 0 <= i < |xs[1..]| ==> xs[1..][i] == xs[i + 1];
      TotalNonNegative(xs[1..], w);
    }
  }

  /**
   * Summing a filtered table equals summing the whole table with the
   * rejected rows weighted zero.
   */
  lemma {:induction false} TotalMasked<T>(xs: seq<T>, p: T -> bool, w: T -> int, masked: T -> int)
    requires forall x :: masked(x) == if p(x) then w(x) else 0
    ensures Total(Seqs.Filter(xs, p), w) == Total(xs, masked)
  {
    if xs != [] {
      TotalMasked(xs[1..], p, w, masked);
      TotalConcat(if p(xs[0]) then [xs[0]] else [], Seqs.Filter(xs[1..], p), w);
    }
  }

  /** With no rows, every key's group is empty. */
  lemma {:induction false} SumOverKeysEmpty<T, K>(key: T -> K, w: T -> int, ks: seq<K>)
    ensures SumOverKeys([], key, w, ks) == 0
  {
    if ks != [] {
      SumOverKeysEmpty(key, w, ks[1..]);
    }
  }

  /** The weight of row `x` as seen through the keys `ks`: counted once for each listing of its key. */
  function HitWeight<T, K(==)>(x: T, key: T -> K, w: T -> int, ks: seq<K>): int {
    if ks == [] then 0 else (if key(x) == ks[0] then w(x) else 0) + HitWeight(x, key, w, ks[1..])
  }

  /** Peeling the first row off every group. */
  lemma {:induction false} SumOverKeysCons<T, K>(xs: seq<T>, key: T -> K, w: T -> int, ks: seq<K>)
    requires xs != []
    ensures SumOverKeys(xs, key, w, ks) == HitWeight(xs[0], key, w, ks) + SumOverKeys(xs[1..], key, w, ks)
  {
    if ks != [] {
      SumOverKeysCons(xs, key, w, ks[1..]);
      var head: seq<T> := if key(xs[0]) == ks[0] then [xs[0]] else [];
      assert WithKey(xs, key, ks[0]) == head + WithKey(xs[1..], key, ks[0]);
      TotalConcat(head, WithKey(xs[1..], key, ks[0]), w);
    }
  }

  /** A row whose key is listed exactly once is counted exactly once. */
  lemma {:induction false} HitWeightOnce<T, K>(x: T, key: T -> K, w: T -> int, ks: seq<K>)
    requires Distinct(ks)
    ensures HitWeight(x, key, w, ks) == if key(x) in ks then w(x) else 0
  {
    if ks != [] {
      assert Distinct(ks[1..]) by {
        forall i, j | 0 <= i < j < |ks[1..]| ensures ks[1..][i] != ks[1..][j] {
          assert ks[1..][i] == ks[i + 1] && ks[1..][j] == ks[j + 1];
        }
      }
      HitWeightOnce(x, key, w, ks[1..]);
      if key(x) == ks[0] {
        assert key(x) !in ks[1..] by {
          forall j | 0 <= j < |ks[1..]| ensures ks[1..][j] != ks[0] {
            assert ks[1..][j] == ks[j + 1];
          }
        }
      }
    }
  }

  /**
   * Conservation: when the keys are distinct and cover every row, the
   * group totals add up to the table total.
   */
  lemma {:induction false} PartitionTotal<T, K>(xs: seq<T>, key: T -> K, w: T -> int, ks: seq<K>)
    requires Distinct(ks)
    requires forall i :: 0 <= i < |xs| ==> key(xs[i]) in ks
    ensures SumOverKeys(xs, key, w, ks) == Total(xs, w)
  {
    if xs == [] {
      SumOverKeysEmpty(key, w, ks);
    } else {
      SumOverKeysCons(xs, key, w, ks);
      HitWeightOnce(xs[0], key, w, ks);
      assert forall i :: 0 <= i < |xs[1..]| ==> xs[1..][i] == xs[i + 1];
      PartitionTotal(xs[1..], key, w, ks);
    }
  }

  /** The groups of a `groupby` add up to the whole table. */
  lemma GroupsAddUp<T, K>(xs: seq<T>, key: T -> K, w: T -> int)
    ensures SumOverKeys(xs, key, w, DistinctKeys(xs, key)) == Total(xs, w)
  {
    PartitionTotal(xs, key, w, DistinctKeys(xs, key));
  }

  /** The group of a key that occurs in the table is not empty. */
  lemma {:induction false} GroupOfPresentKey<T, K>(xs: seq<T>, key: T -> K, k: K)
    requires HasKey(xs, key, k)
    ensures |WithKey(xs, key, k)| >= 1
  {
    if key(xs[0]) != k {
      var i :| 0 <= i < |xs| && key(xs[i]) == k;
      assert xs[1..][i - 1] == xs[i];
      GroupOfPresentKey(xs[1..], key, k);
    }
  }

  /** The group of a key that occurs nowhere in the table is empty. */
  lemma {:induction false} GroupOfAbsentKey<T, K>(xs: seq<T>, key: T -> K, k: K)
    requires !HasKey(xs, key, k)
    ensures WithKey(xs, key, k) == []
  {
    if xs != [] {
      assert key(xs[0]) != k;
      assert !HasKey(xs[1..], key, k) by {
        forall i | 0 <= i < |xs[1..]| ensures key(xs[1..][i]) != k {
          assert xs[1..][i] == xs[i + 1];
        }
      }
      GroupOfAbsentKey(xs[1..], key, k);
    }
  }

  /** A key with the highest score among `ks` (`idxmax` without a promised tie-break). */
  function ArgMax<K>(ks: seq<K>, score: K -> int): (k: K)
    requires ks != []
    ensures k in ks
    ensures forall j :: 0 <= j < |ks| ==> score(ks[j]) <= score(k)
  {
    if |ks| == 1 then ks[0]
    else
      var best := ArgMax(ks[1..], score);
      assert forall j :: 1 <= j < |ks| ==> ks[j] == ks[1..][j - 1];
      if score(ks[0]) >= score(best) then ks[0] else best
  }
}
