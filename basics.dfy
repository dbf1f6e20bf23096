/** Values shared by the vision modules: optional results, colour triples,
    insertion-ordered dictionaries and the per-channel truncated mean. */
module Basics {

  datatype Option<T> = None | Some(value: T)

  datatype Result<T, E> = Ok(value: T) | Err(error: E)

  /** A colour with three non-negative integer channels (BGR, HSV or LAB,
      depending on where it comes from). */
  datatype Triple = Triple(c0: nat, c1: nat, c2: nat)

  const Black: Triple := Triple(0, 0, 0)

  function Chan(t: Triple, k: nat): nat
    requires k < 3
  {
    if k == 0 then t.c0 else if k == 1 then t.c1 else t.c2
  }

  /** Squared Euclidean distance. The source compares square roots of this
      value; the square root is monotone, so every comparison agrees. */
  function SqDist(a: Triple, b: Triple): nat
  {
    (a.c0 - b.c0) * (a.c0 - b.c0) + (a.c1 - b.c1) * (a.c1 - b.c1) + (a.c2 - b.c2) * (a.c2 - b.c2)
  }

  lemma SqDistZero(a: Triple, b: Triple)
    ensures SqDist(a, b) == 0 <==> a == b
  {
    if SqDist(a, b) == 0 {
      assert (a.c0 - b.c0) * (a.c0 - b.c0) == 0;
      assert (a.c1 - b.c1) * (a.c1 - b.c1) == 0;
    }
  }

  /** `waitKey(1) & 0xFF`, the key byte both camera loops read; Dafny's
      `%` is Euclidean, so this is the low byte for negative values (no key
      gives -1, hence 255) too. */
  function KeyByte(raw: int): (k: nat)
    ensures k < 256
    ensures raw == -1 ==> k == 255
    ensures 0 <= raw < 256 ==> k == raw
  {
    raw % 256
  }

  /** `ord('q')`. */
  const QuitKey: nat := 113

  /** A Python dictionary: its entries in iteration (insertion) order. */
  type Table<K, V> = seq<(K, V)>

  function Keys<K, V>(t: Table<K, V>): set<K>
  {
    set i | 0 <= i < |t| :: t[i].0
  }

  /** Dictionary keys are unique. */
  predicate DistinctKeys<K(==), V>(t: Table<K, V>)
  {
    forall i, j :: 0 <= i < j < |t| ==> t[i].0 != t[j].0
  }

  /** Sum of channel `k` over a list of colours. */
  function ChannelSum(s: seq<Triple>, k: nat): nat
    requires k < 3
  {
    if |s| == 0 then 0 else Chan(s[0], k) + ChannelSum(s[1..], k)
  }

  /** `m` is the per-channel mean of `s` rounded down: each channel of `m`,
      times the number of colours, is at most that channel's sum, and one
      more would exceed it. */
  predicate IsFloorMean(m: Triple, s: seq<Triple>)
  {
    forall k :: 0 <= k < 3 ==> Chan(m, k) * |s| <= ChannelSum(s, k) < (Chan(m, k) + 1) * |s|
  }

  lemma DivFloor(x: nat, n: nat)
    requires n > 0
    ensures (x / n) * n <= x < (x / n + 1) * n
  {
    var q, r := x / n, x % n;
    assert x == q * n + r && 0 <= r < n;
    assert (q + 1) * n == q * n + n;
  }

  /** The per-channel arithmetic mean, each channel truncated to an integer
      (the channels are non-negative, so truncation is floor division). */
  function Mean(s: seq<Triple>): (m: Triple)
    requires |s| > 0
    ensures IsFloorMean(m, s)
  {
    DivFloor(ChannelSum(s, 0), |s|);
    DivFloor(ChannelSum(s, 1), |s|);
    DivFloor(ChannelSum(s, 2), |s|);
    Triple(ChannelSum(s, 0) / |s|, ChannelSum(s, 1) / |s|, ChannelSum(s, 2) / |s|)
  }

  lemma MeanChan(s: seq<Triple>, k: nat)
    requires |s| > 0 && k < 3
    ensures Chan(Mean(s), k) == ChannelSum(s, k) / |s|
  {
  }

  lemma {:induction false} ChannelSumBounds(s: seq<Triple>, k: nat, lo: nat, hi: nat)
    requires k < 3
    requires forall i :: 0 <= i < |s| ==> lo <= Chan(s[i], k) <= hi
    ensures |s| * lo <= ChannelSum(s, k) <= |s| * hi
  {
    if |s| > 0 {
      ChannelSumBounds(s[1..], k, lo, hi);
      assert |s| * lo == lo + (|s| - 1) * lo;
      assert |s| * hi == hi + (|s| - 1) * hi;
    }
  }

  lemma MulCancel(n: nat, a: int, b: int)
    requires n > 0 && n * a < n * b
    ensures a < b
  {
  }

  lemma DivBounds(sum: nat, n: nat, lo: nat, hi: nat)
    requires n > 0
    requires n * lo <= sum <= n * hi
    ensures lo <= sum / n <= hi
  {
    var q, r := sum / n, sum % n;
    assert sum == n * q + r && 0 <= r < n;
    MulCancel(n, lo, q + 1);
    MulCancel(n, q, hi + 1);
  }

  /** Every channel of the mean lies within the range of that channel over
      the samples. */
  lemma MeanWithinBounds(s: seq<Triple>, k: nat, lo: nat, hi: nat)
    requires |s| > 0 && k < 3
    requires forall i :: 0 <= i < |s| ==> lo <= Chan(s[i], k) <= hi
    ensures lo <= Chan(Mean(s), k) <= hi
  {
    ChannelSumBounds(s, k, lo, hi);
    DivBounds(ChannelSum(s, k), |s|, lo, hi);
    MeanChan(s, k);
  }

  /** A list of identical colours averages to that colour. */
  lemma MeanOfUniform(s: seq<Triple>, c: Triple)
    requires |s| > 0
    requires forall i :: 0 <= i < |s| ==> s[i] == c
    ensures Mean(s) == c
  {
    MeanWithinBounds(s, 0, c.c0, c.c0);
    MeanWithinBounds(s, 1, c.c1, c.c1);
    MeanWithinBounds(s, 2, c.c2, c.c2);
  }
}
