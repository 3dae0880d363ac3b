/**
 * The order-preserving partition of the input into `k` contiguous segments
 * (`chunks_of` in main.py). Segment `i` has `n / k` elements, plus one more
 * when `i < n % k`; the segments are laid out one after another from index 0.
 */
module Chunking {

  /** Concatenation of a list of segments, in order. */
  function Flatten(cs: seq<seq<int>>): seq<int>
    decreases |cs|
  {
    if cs == [] then [] else cs[0] + Flatten(cs[1..])
  }

  /** Length of segment `i`: `n // k + (1 if i < n % k else 0)`. */
  function SegmentSize(n: nat, k: nat, i: nat): nat
    requires k >= 1
  {
    n / k + (if i < n % k then 1 else 0)
  }

  /** Index where segment `i` begins: the sizes of segments `0 .. i-1` added up. */
  function SegmentStart(n: nat, k: nat, i: nat): nat
    requires k >= 1
  {
    i * (n / k) + (if i < n % k then i else n % k)
  }

  /** The ceiling `⌈n / k⌉`. */
  function Ceil(n: nat, k: nat): nat
    requires k >= 1
  {
    (n + k - 1) / k
  }

  /** Each segment begins where the previous one ends. */
  lemma {:induction false} StartStep(n: nat, k: nat, i: nat)
    requires k >= 1
    ensures SegmentStart(n, k, i + 1) == SegmentStart(n, k, i) + SegmentSize(n, k, i)
  {
    assert (i + 1) * (n / k) == i * (n / k) + n / k;
  }

  /** The segment starts run up to `n` and no further: segment `k` would begin at `n`. */
  lemma {:induction false} StartInRange(n: nat, k: nat, i: nat)
    requires k >= 1 && i <= k
    ensures SegmentStart(n, k, i) <= n
    ensures i == k ==> SegmentStart(n, k, i) == n
    decreases k - i
  {
    if i == k {
      assert k * (n / k) + n % k == n;
    } else {
      StartStep(n, k, i);
      StartInRange(n, k, i + 1);
    }
  }

  /** Segment `i` of `data` split into `k` segments. */
  function Segment(data: seq<int>, k: nat, i: nat): (s: seq<int>)
    requires k >= 1 && i < k
    ensures |s| == SegmentSize(|data|, k, i)
  {
    StartStep(|data|, k, i);
    StartInRange(|data|, k, i + 1);
    data[SegmentStart(|data|, k, i)..SegmentStart(|data|, k, i + 1)]
  }

  /** The whole partition: exactly `k` segments, segment `i` of size `SegmentSize(n, k, i)`. */
  function Partition(data: seq<int>, k: nat): (cs: seq<seq<int>>)
    requires k >= 1
    ensures |cs| == k
    ensures forall i :: 0 <= i < k ==> |cs[i]| == SegmentSize(|data|, k, i)
  {
    seq(k, i requires 0 <= i < k => Segment(data, k, i))
  }

  /** A list of `k` segments that agrees with the partition at every index is the partition. */
  lemma {:induction false} PartitionByElements(data: seq<int>, k: nat, cs: seq<seq<int>>)
    requires k >= 1 && |cs| == k
    requires forall j :: 0 <= j < k ==> cs[j] == Segment(data, k, j)
    ensures cs == Partition(data, k)
  {
    var p := Partition(data, k);
    assert forall j :: 0 <= j < k ==> p[j] == Segment(data, k, j);
  }

  /** Concatenation distributes over joining two lists of segments. */
  lemma {:induction false} FlattenAppend(a: seq<seq<int>>, b: seq<seq<int>>)
    ensures Flatten(a + b) == Flatten(a) + Flatten(b)
    decreases |a|
  {
    if a != [] {
      assert (a + b)[0] == a[0] && (a + b)[1..] == a[1..] + b;
      FlattenAppend(a[1..], b);
    } else {
      assert a + b == b;
    }
  }

  /** Appending one segment appends its elements to the concatenation. */
  lemma {:induction false} FlattenSnoc(cs: seq<seq<int>>, c: seq<int>)
    ensures Flatten(cs + [c]) == Flatten(cs) + c
  {
    FlattenAppend(cs, [c]);
    assert Flatten([c]) == c + Flatten([]);
  }

  /** The segments from `i` on concatenate to the input from `SegmentStart(i)` on. */
  lemma {:induction false} FlattenSuffix(data: seq<int>, k: nat, i: nat)
    requires k >= 1 && i <= k
    ensures SegmentStart(|data|, k, i) <= |data| && Flatten(Partition(data, k)[i..]) == data[SegmentStart(|data|, k, i)..]
    decreases k - i
  {
    var cs := Partition(data, k);
    StartInRange(|data|, k, i);
    if i < k {
      FlattenSuffix(data, k, i + 1);
      StartStep(|data|, k, i);
      StartInRange(|data|, k, i + 1);
      assert cs[i..][1..] == cs[i + 1..];
      assert data[SegmentStart(|data|, k, i)..]
          == data[SegmentStart(|data|, k, i)..SegmentStart(|data|, k, i + 1)] + data[SegmentStart(|data|, k, i + 1)..];
    } else {
      StartInRange(|data|, k, k);
      assert cs[k..] == [];
    }
  }

  /** Concatenating the segments in order reproduces the input exactly. */
  lemma {:induction false} PartitionFlattens(data: seq<int>, k: nat)
    requires k >= 1
    ensures Flatten(Partition(data, k)) == data
  {
    FlattenSuffix(data, k, 0);
    assert Partition(data, k)[0..] == Partition(data, k);
  }

  /** Multiplying by a non-negative factor keeps order. */
  lemma {:induction false} MulMonotone(x: int, y: int, k: nat)
    ensures x <= y ==> x * k <= y * k
  {
    assert y * k == x * k + (y - x) * k;
  }

  /** Euclidean division is determined by quotient and remainder. */
  lemma {:induction false} DivModUnique(a: nat, k: nat, q: nat, r: nat)
    requires k >= 1 && r < k && a == q * k + r
    ensures a / k == q && a % k == r
  {
    var q' := a / k;
    assert a == q' * k + a % k;
    MulMonotone(q + 1, q', k);
    MulMonotone(q' + 1, q, k);
    assert (q + 1) * k == q * k + k && (q' + 1) * k == q' * k + k;
  }

  /** `⌈n/k⌉` is `⌊n/k⌋`, plus one unless `k` divides `n`. */
  lemma {:induction false} CeilIsFloorPlusOne(n: nat, k: nat)
    requires k >= 1
    ensures Ceil(n, k) == n / k + (if n % k == 0 then 0 else 1)
  {
    if n % k == 0 {
      DivModUnique(n + k - 1, k, n / k, k - 1);
    } else {
      DivModUnique(n + k - 1, k, n / k + 1, n % k - 1);
    }
  }

  /**
   * Sizes are near-equal: each is `⌊n/k⌋` or `⌈n/k⌉`, exactly the first
   * `n % k` segments are the larger ones, and any two differ by at most one.
   */
  lemma {:induction false} SegmentSizesNearEqual(data: seq<int>, k: nat)
    requires k >= 1
    ensures forall i :: 0 <= i < k ==> |Partition(data, k)[i]| == |data| / k || |Partition(data, k)[i]| == Ceil(|data|, k)
    ensures forall i :: 0 <= i < k ==> (|Partition(data, k)[i]| == |data| / k + 1 <==> i < |data| % k)
    ensures forall i, j :: 0 <= i < k && 0 <= j < k ==> -1 <= |Partition(data, k)[i]| - |Partition(data, k)[j]| <= 1
  {
    var n, cs := |data|, Partition(data, k);
    CeilIsFloorPlusOne(n, k);
    assert forall i :: 0 <= i < k ==> |cs[i]| == n / k + (if i < n % k then 1 else 0);
  }

  /**
   * More segments than elements is not an error: segment `i < n` holds just
   * `data[i]` and the trailing `k - n` segments are empty.
   */
  lemma {:induction false} MoreSegmentsThanElements(data: seq<int>, k: nat)
    requires k > |data|
    ensures forall i :: 0 <= i < |data| ==> Partition(data, k)[i] == [data[i]]
    ensures forall i :: |data| <= i < k ==> Partition(data, k)[i] == []
  {
    DivModUnique(|data|, k, 0, |data|);
  }

  /** A single segment is the whole input. */
  lemma {:induction false} OneSegment(data: seq<int>)
    ensures Partition(data, 1) == [data]
  {
    StartInRange(|data|, 1, 1);
    assert Partition(data, 1)[0] == data;
  }

  /**
   * `chunks_of(data, k)`: a loop that cuts `sz` elements from `idx` and
   * advances `idx` by `sz`, once for each `i` in `range(k)`; at exit
   * `idx == n`. `k = 0` is excluded: `n // k` divides by zero in the source.
   * A negative `k` is no error there: `range(k)` is empty and nothing is
   * yielded.
   */
  method ChunksOf(data: seq<int>, k: int) returns (chunks: seq<seq<int>>)
    requires k != 0
    ensures k < 0 ==> chunks == []
    ensures k > 0 ==> chunks == Partition(data, k)
    ensures k > 0 ==> |chunks| == k && Flatten(chunks) == data
  {
    chunks := [];
    if k < 0 {
      return;
    }
    var n := |data|;
    var base := n / k;
    var rem := n % k;
    var idx := 0;
    for i := 0 to k
      invariant idx == SegmentStart(n, k, i)
      invariant |chunks| == i
      invariant forall j :: 0 <= j < i ==> chunks[j] == Segment(data, k, j)
    {
      var sz := base + (if i < rem then 1 else 0);
      StartStep(n, k, i);
      StartInRange(n, k, i + 1);
      chunks := chunks + [data[idx..idx + sz]];
      idx := idx + sz;
    }
    StartInRange(n, k, k);
    assert idx == n;
    PartitionByElements(data, k, chunks);
    PartitionFlattens(data, k);
  }
}
