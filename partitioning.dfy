/** How the orchestrator cuts the work list into per-worker slices
    (`work_array`, `batch_size` and `start_end_idx` in create_groundtruth_database). */
module Partitioning {
  import opened Common

  /** At most this many frames of the dataset are ever processed (`np.arange(len(dataset))[:40]`). */
  const WorkLimit: nat := 40

  /** The integers `lo, lo+1, ..., hi-1`, like `np.arange(lo, hi)`. */
  function Range(lo: nat, hi: nat): (r: seq<nat>)
    ensures |r| == if lo <= hi then hi - lo else 0
    ensures forall k :: 0 <= k < |r| ==> r[k] == lo + k
  {
    if lo < hi then seq(hi - lo, k requires 0 <= k < hi - lo => (lo + k) as nat) else []
  }

  /** The work list: the first `WorkLimit` frame indices of a dataset of `len` frames. */
  function WorkList(len: nat): (w: seq<nat>)
    ensures w == Range(0, Min(len, WorkLimit))
  {
    var all := Range(0, len);
    if |all| <= WorkLimit then all else all[..WorkLimit]
  }

  /** Python's `s[start:end]` for non-negative bounds: both are clipped to `len(s)`, and a start at or
      past the end gives the empty slice. */
  function PySlice<T>(s: seq<T>, start: nat, end: nat): (r: seq<T>)
    ensures |r| == if Min(start, |s|) <= Min(end, |s|) then Min(end, |s|) - Min(start, |s|) else 0
    ensures forall k :: 0 <= k < |r| ==> r[k] == s[start + k]
  {
    var lo, hi := Min(start, |s|), Min(end, |s|);
    if lo < hi then s[lo..hi] else []
  }

  /** `[work_array[i*b:(i+1)*b] for i in range(p+1)]` with `work_array = arange(n)` and `b = n // p`.
      `p` is the worker count; `n // 0` raises, so `p > 0` is required. */
  function Partition(n: nat, p: nat): (slices: seq<seq<nat>>)
    requires p > 0
    ensures |slices| == p + 1
    ensures forall i :: 0 <= i < |slices| ==> slices[i] == Batch(n, n / p, i)
  {
    seq(p + 1, i requires 0 <= i <= p => Submitted(n, n / p, i))
  }

  /** `work_array[i*b:(i+1)*b]`, the slice handed to the `i`-th task. */
  function Submitted(n: nat, b: nat, i: nat): (r: seq<nat>)
    ensures r == Batch(n, b, i)
  {
    MulMonotone(i, i + 1, b);
    SliceOfRange(n, i * b, (i + 1) * b);
    PySlice(Range(0, n), i * b, (i + 1) * b)
  }

  /** The `i`-th batch of width `b` of `arange(n)`: `[i*b, (i+1)*b)` clipped to `n`. */
  function Batch(n: nat, b: nat, i: nat): seq<nat>
  {
    Range(Min(i * b, n), Min((i + 1) * b, n))
  }

  /** Slicing the work list `arange(n)` gives the clipped range. */
  lemma SliceOfRange(n: nat, lo: nat, hi: nat)
    requires lo <= hi
    ensures PySlice(Range(0, n), lo, hi) == Range(Min(lo, n), Min(hi, n))
  {
  }

  /** The slices, one after the other. */
  function Concat(slices: seq<seq<nat>>): seq<nat>
  {
    if slices == [] then [] else Concat(slices[..|slices| - 1]) + slices[|slices| - 1]
  }

  lemma MulMonotone(i: nat, j: nat, b: nat)
    requires i <= j
    ensures i * b <= j * b
  {
  }

  lemma RangeAppend(a: nat, b: nat, c: nat)
    requires a <= b <= c
    ensures Range(a, b) + Range(b, c) == Range(a, c)
  {
    assert forall k :: 0 <= k < c - a ==> (Range(a, b) + Range(b, c))[k] == a + k;
  }

  /** The first `m` batches of width `b` together are the prefix `[0, min(m*b, n))` of `arange(n)`. */
  lemma {:induction false} ConcatBatches(slices: seq<seq<nat>>, n: nat, b: nat, m: nat)
    requires m <= |slices|
    requires forall i :: 0 <= i < |slices| ==> slices[i] == Batch(n, b, i)
    ensures Concat(slices[..m]) == Range(0, Min(m * b, n))
  {
    if m > 0 {
      ConcatBatches(slices, n, b, m - 1);
      assert slices[..m][..m - 1] == slices[..m - 1];
      var lo, hi := (m - 1) * b, m * b;
      assert hi == lo + b;
      assert slices[m - 1] == Range(Min(lo, n), Min(hi, n));
      RangeAppend(0, Min(lo, n), Min(hi, n));
    }
  }

  /** Slices come in ascending order and never share an index: everything in an earlier slice is
      below everything in a later one. */
  lemma SlicesAscending(n: nat, p: nat, i: nat, j: nat, x: nat, y: nat)
    requires p > 0 && i < j <= p
    requires x in Partition(n, p)[i] && y in Partition(n, p)[j]
    ensures x < y
  {
    var b := n / p;
    MulMonotone(i + 1, j, b);
  }

  /** Every index handed to a worker is a valid frame index below `n`. */
  lemma SliceInRange(n: nat, p: nat, i: nat, x: nat)
    requires p > 0 && i <= p && x in Partition(n, p)[i]
    ensures x < n
  {
  }

  /** All slices together cover exactly `[0, min(n, (p+1)*(n//p)))`. */
  lemma PartitionUnion(n: nat, p: nat)
    requires p > 0
    ensures Concat(Partition(n, p)) == Range(0, Min((p + 1) * (n / p), n))
  {
    var slices := Partition(n, p);
    assert slices[..p + 1] == slices;
    ConcatBatches(slices, n, n / p, p + 1);
  }

  lemma MulSucc(p: nat, b: nat)
    ensures (p + 1) * b == p * b + b
  {
  }

  /** `p + 1` batches of width `n // p` reach `n` exactly when the remainder fits in one batch. */
  lemma BatchesReach(n: nat, p: nat)
    requires p > 0
    ensures (p + 1) * (n / p) >= n <==> n % p <= n / p
  {
    var b, r := n / p, n % p;
    assert n == p * b + r;
    MulSucc(p, b);
  }

  /** The slices cover the whole work list exactly when the remainder `n % p` fits in one batch;
      otherwise the tail indices are never processed. */
  lemma PartitionCoversIff(n: nat, p: nat)
    requires p > 0
    ensures Concat(Partition(n, p)) == Range(0, n) <==> n % p <= n / p
  {
    PartitionUnion(n, p);
    BatchesReach(n, p);
    var m := Min((p + 1) * (n / p), n);
    if m != n {
      assert |Range(0, m)| != |Range(0, n)|;
    }
  }

  /** Three frames over four workers: the batch size is zero and nothing is processed. */
  lemma ThreeFramesFourWorkers()
    ensures Concat(Partition(3, 4)) == []
  {
    PartitionUnion(3, 4);
  }
}
