/**
 * utils/helpers.py: `split_into_chunks`, the second copy of the partition,
 * written with explicit `start`/`end` bounds and a list the loop appends to.
 * It yields the same segments as `chunks_of` in main.py.
 */
module Helpers {
  import opened Chunking

  /**
   * `split_into_chunks(data, num_chunks)`. The loop keeps `start` equal to
   * the total length of the chunks appended so far; at exit `start == n`.
   * `num_chunks = 0` is excluded: `n // num_chunks` divides by zero. A
   * negative `num_chunks` gives an empty `range` and so no chunks.
   */
  method SplitIntoChunks(data: seq<int>, numChunks: int) returns (chunks: seq<seq<int>>)
    requires numChunks != 0
    ensures numChunks < 0 ==> chunks == []
    ensures numChunks > 0 ==> chunks == Partition(data, numChunks)
    ensures numChunks > 0 ==> |chunks| == numChunks && Flatten(chunks) == data
  {
    chunks := [];
    if numChunks < 0 {
      return;
    }
    var k: nat := numChunks;
    var n := |data|;
    var base := n / k;
    var rem := n % k;
    var start := 0;
    for i := 0 to k
      invariant |chunks| == i
      invariant start == |Flatten(chunks)| == SegmentStart(n, k, i) <= n
      invariant Flatten(chunks) == data[..start]
      invariant forall j :: 0 <= j < i ==> chunks[j] == Segment(data, k, j)
    {
      var end := start + base + (if i < rem then 1 else 0);
      StartStep(n, k, i);
      StartInRange(n, k, i + 1);
      FlattenSnoc(chunks, data[start..end]);
      assert data[..end] == data[..start] + data[start..end];
      chunks := chunks + [data[start..end]];
      start := end;
    }
    StartInRange(n, k, k);
    assert start == n;
    assert data[..start] == data;
    PartitionByElements(data, k, chunks);
  }

  /**
   * `split_into_chunks` and `chunks_of` are two copies of one partition: for
   * the same input and count they produce the same segments.
   */
  method CopiesAgree(data: seq<int>, k: int) returns (fromHelpers: seq<seq<int>>, fromMain: seq<seq<int>>)
    requires k != 0
    ensures fromHelpers == fromMain
    ensures k > 0 ==> |fromHelpers| == k && Flatten(fromHelpers) == data
  {
    fromHelpers := SplitIntoChunks(data, k);
    fromMain := ChunksOf(data, k);
  }
}
