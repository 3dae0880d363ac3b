/**
 * The sort workload of main.py: the map step `map_sort_chunk`, which sorts a
 * chunk in place, and `sort_threads`, which fills slot `i` of a pre-sized
 * list with sorted chunk `i` and then merges the slots.
 */
module ParallelSort {
  import opened Sortedness
  import opened Chunking
  import opened KWayMerge

  /**
   * One insertion step: with `a[..i]` ascending, move `a[i]` left past every
   * larger element, so that `a[..i+1]` is ascending. Nothing after index `i`
   * moves.
   */
  method InsertAt(a: array<int>, i: nat)
    requires i < a.Length
    requires forall p, q :: 0 <= p < q < i ==> a[p] <= a[q]
    modifies a
    ensures forall p, q :: 0 <= p < q <= i ==> a[p] <= a[q]
    ensures forall p :: i < p < a.Length ==> a[p] == old(a[p])
    ensures multiset(a[..]) == old(multiset(a[..]))
  {
    var j := i;
    while j > 0 && a[j - 1] > a[j]
      invariant 0 <= j <= i
      invariant forall p, q :: 0 <= p < q <= i && p != j && q != j ==> a[p] <= a[q]
      invariant forall q :: j < q <= i ==> a[j] <= a[q]
      invariant forall p :: i < p < a.Length ==> a[p] == old(a[p])
      invariant multiset(a[..]) == old(multiset(a[..]))
    {
      a[j - 1], a[j] := a[j], a[j - 1];
      j := j - 1;
    }
  }

  /**
   * `map_sort_chunk(chunk)`: `chunk.sort()` — the list becomes ascending and
   * keeps its elements. An insertion sort stands for Python's list sort.
   */
  method MapSortChunk(a: array<int>)
    modifies a
    ensures IsSorted(a[..])
    ensures multiset(a[..]) == old(multiset(a[..]))
  {
    var i := 0;
    while i < a.Length
      invariant 0 <= i <= a.Length
      invariant forall p, q :: 0 <= p < q < i ==> a[p] <= a[q]
      invariant multiset(a[..]) == old(multiset(a[..]))
    {
      InsertAt(a, i);
      i := i + 1;
    }
  }

  /**
   * `thread_worker(i, ch)` of `sort_threads`: `sorted_chunks[i] =
   * map_sort_chunk(ch)`. Only slot `i` is written.
   */
  method ThreadWorker(slots: array<seq<int>>, i: nat, ch: seq<int>)
    requires i < slots.Length
    modifies slots
    ensures IsSorted(slots[i]) && multiset(slots[i]) == multiset(ch)
    ensures forall j :: 0 <= j < slots.Length && j != i ==> slots[j] == old(slots[j])
  {
    var buf := new int[|ch|](p requires 0 <= p < |ch| => ch[p]);
    assert buf[..] == ch;
    MapSortChunk(buf);
    slots[i] := buf[..];
  }

  /** Chunks that are pointwise permutations of each other concatenate to permutations of each other. */
  lemma {:induction false} FlattenPointwise(xs: seq<seq<int>>, ys: seq<seq<int>>)
    requires |xs| == |ys|
    requires forall j :: 0 <= j < |xs| ==> multiset(xs[j]) == multiset(ys[j])
    ensures multiset(Flatten(xs)) == multiset(Flatten(ys))
    decreases |xs|
  {
    if xs != [] {
      FlattenPointwise(xs[1..], ys[1..]);
    }
  }

  /**
   * Once every slot holds an ascending permutation of its chunk, merging the
   * slots gives an ascending permutation of the data the chunks came from.
   */
  lemma {:induction false} MergeOfSortedSlots(slots: seq<seq<int>>, chunks: seq<seq<int>>, data: seq<int>)
    requires |slots| == |chunks| && Flatten(chunks) == data
    requires forall j :: 0 <= j < |slots| ==> IsSorted(slots[j]) && multiset(slots[j]) == multiset(chunks[j])
    ensures IsSorted(KMerge(slots))
    ensures multiset(KMerge(slots)) == multiset(data)
    ensures |KMerge(slots)| == |data|
  {
    MergeIsAscendingPermutation(slots);
    FlattenPointwise(slots, chunks);
    var r := KMerge(slots);
    assert |r| == |multiset(r)| == |multiset(data)| == |data|;
  }

  /**
   * `sort_threads(data, workers)` without the threads: every worker `i`
   * writes its sorted chunk into its own slot, so the slots are disjoint and
   * are filled here in index order. After the join every slot holds its
   * sorted chunk, and the merge of the slots is an ascending permutation of
   * `data`. `workers = 0` divides by zero in `chunks_of`; a negative count
   * gives no chunks and no slots, so the merge is empty.
   */
  method SortThreads(data: seq<int>, workers: int) returns (result: seq<int>)
    requires workers != 0
    ensures workers > 0 ==> IsSorted(result)
    ensures workers > 0 ==> multiset(result) == multiset(data)
    ensures workers > 0 ==> |result| == |data|
    ensures workers < 0 ==> result == []
  {
    var chunks := ChunksOf(data, workers);
    var slots := new seq<int>[if workers < 0 then 0 else workers];
    for i := 0 to |chunks|
      invariant forall j :: 0 <= j < i ==> IsSorted(slots[j]) && multiset(slots[j]) == multiset(chunks[j])
    {
      ThreadWorker(slots, i, chunks[i]);
    }
    var sortedChunks := slots[..];
    result := KMerge(sortedChunks);
    if workers > 0 {
      MergeOfSortedSlots(sortedChunks, chunks, data);
    } else {
      assert BestHead(sortedChunks, 0) == -1;
    }
  }
}
