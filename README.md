# Map-reduce sort and max: a Dafny model

The harness in `main.py` runs two map-reduce workloads over a list of
integers, each with a configurable number of workers.

- **Partition.** The input is cut into `k` contiguous, near-equal segments by
  `chunks_of`. `utils/helpers.py` has a second copy of this cut,
  `split_into_chunks`.
- **Sort.** Each worker sorts its segment in place (`map_sort_chunk`) and
  stores it in its own slot. After the workers join, the slots are merged with
  `heapq.merge` (`reduce_merge_sorted`). The driver checks the output with
  `is_sorted`.
- **Max.** A shared accumulator starts at a sentinel. Each worker computes the
  largest element of its segment, or the sentinel if the segment is empty.
  Then, holding a lock, it replaces the accumulator if its value is strictly
  larger.

The model has one module per part of the harness:

- `Sortedness`: `is_sorted` and facts about ascending sequences.
- `Chunking`: the partition as a closed-form function `Partition`, and
  `chunks_of` as a loop proved equal to it.
- `Helpers`: `split_into_chunks` as a loop proved equal to the same function.
- `KWayMerge`: `heapq.merge` as a k-way merge function `KMerge`. It makes the
  same choice as the heap: the smallest head, with the earlier input winning
  ties.
- `ParallelSort`: in-place chunk sorting on an `array`, and the
  fill-the-slots-then-merge body of `sort_threads`.
- `MaxAggregation`: the shared cell as a class `SharedMax`, the locked update
  as its `Update` method, and the run of all workers. The run takes the order
  in which the workers acquire the lock as a parameter, `order`. Because the
  lock makes every update atomic, each possible execution is one such order.
- `Scenario`: two worked inputs, with their partition, merge and max results proved on the model.

Inputs and results the source gets or makes outside this core:

- The input list and the worker count are parameters.
- The lock-acquisition order is a parameter.
- Timings and memory readings are not modelled.

## Model

| member | source | states |
|---|---|---|
| Sortedness.IsSorted | main.py:33-34 | `is_sorted(arr)`: every adjacent pair satisfies `arr[i] <= arr[i+1]` for `i` in `range(len(arr) - 1)`. The same predicate models the identical copy at utils/helpers.py:19-20. It has no contract of its own; what it means is proved in `SortedIffAllPairs`. |
| Sortedness.SortedIffAllPairs | main.py:33-34 | `is_sorted(arr)` holds iff every pair `i < j` is in order, which is the same as every adjacent pair being in order. Any list of length at most 1 is sorted. `IsSorted` also models the identical copy at utils/helpers.py:19-20. |
| Sortedness.SortedPermutationUnique | main.py:42-43 | Two ascending lists with the same multiset of elements are equal, so an ascending permutation of the data is unique. |
| Sortedness.SortedCons | main.py:42-43 | Putting a lower bound of an ascending list in front of it keeps the list ascending. This is what each emission of the merge relies on. |
| Chunking.Partition | main.py:19-27 | The partition has exactly `k` segments, and segment `i` has length `n // k + (1 if i < n % k else 0)`. |
| Chunking.StartStep | main.py:25-27 | Segment `i + 1` starts where segment `i` ends, that is, at its start plus its size. This is the step `idx += sz`. |
| Chunking.StartInRange | main.py:23-27 | Every segment start lies within `0 .. n`, and after `k` segments `idx` is exactly `n`. |
| Chunking.PartitionFlattens | main.py:23-27 | Concatenating the segments in order gives back the input exactly. |
| Chunking.SegmentSizesNearEqual | main.py:21-25 | Each size is `⌊n/k⌋` or `⌈n/k⌉`. A segment is one longer than `⌊n/k⌋` iff its index is below `n % k`. Any two sizes differ by at most one. |
| Chunking.MoreSegmentsThanElements | main.py:21-26 | When `k > n` nothing fails: segment `i < n` is `[data[i]]` and the trailing `k - n` segments are empty. |
| Chunking.OneSegment | main.py:19-27 | With `k = 1` the only segment is the whole input. |
| Chunking.ChunksOf | main.py:19-27 | `chunks_of` yields exactly the partition, `k` segments that concatenate to `data`. `k = 0` is excluded because `n // k` divides by zero. A negative `k` yields nothing. |
| Helpers.SplitIntoChunks | utils/helpers.py:3-13 | The loop keeps `start` equal to the total length of the chunks appended so far, and at exit `start == n`. The result is exactly `num_chunks` chunks with the sizes `base + (1 if i < rem else 0)`, and they concatenate to `data`. A negative count gives `[]`, and `num_chunks = 0` is excluded. |
| Helpers.CopiesAgree | utils/helpers.py:3-13 | `split_into_chunks` and `chunks_of` (main.py:19-27) return the same segments for the same input and count. |
| KWayMerge.BestHead | main.py:42-43 | The merge's next choice is a non-empty input whose head is no larger than any other head, the earliest such input on ties. It is -1 exactly when every input is empty. |
| KWayMerge.KMerge | main.py:42-43 | `list(heapq.merge(*chunks))`: it repeatedly emits the smallest head among the non-empty inputs, taking it from the earliest input on ties. The output is empty exactly when every input is empty. Otherwise its first element is the head of the input `BestHead` picks, and that head is no larger than any other head. |
| KWayMerge.KMergePermutation | main.py:42-43 | The merged output is a permutation of the concatenated inputs, so its length is the sum of the input lengths. |
| KWayMerge.KMergeSorted | main.py:42-43 | If every input is ascending, the merged output is ascending. |
| KWayMerge.MergeIsAscendingPermutation | main.py:42-43 | For ascending inputs the merged output is both ascending and a permutation of the concatenated inputs. |
| KWayMerge.FlattenReorder | main.py:42-43 | Passing the same inputs in a different order keeps the multiset of their concatenation. |
| KWayMerge.MergeOrderIndependent | main.py:42-43 | The order in which the ascending inputs are passed to the merge does not change its output. |
| ParallelSort.InsertAt | main.py:37-40 | One insertion step in place: if `a[..i]` is ascending, afterwards `a[..i+1]` is ascending, nothing after `i` moves, and the array keeps its multiset. |
| ParallelSort.MapSortChunk | main.py:37-40 | `chunk.sort()` in place: the same array becomes ascending and keeps its multiset of elements. |
| ParallelSort.ThreadWorker | main.py:51-52 | `sorted_chunks[i] = map_sort_chunk(ch)`: slot `i` becomes an ascending permutation of `ch`. No other slot changes. |
| ParallelSort.MergeOfSortedSlots | main.py:63 | Once every slot holds an ascending permutation of its chunk, merging the slots gives an ascending permutation of `data` with the same length. |
| ParallelSort.SortThreads | main.py:46-67 | After every slot `0 .. workers-1` has been filled with its sorted chunk, the merged result is ascending, has the multiset of `data` and has its length. A negative worker count gives `[]`, and `workers = 0` is excluded. |
| MaxAggregation.SeqMax | main.py:112 | `max(ch)` of a non-empty list is an element of the list and at least every element. |
| MaxAggregation.LocalMax | main.py:112 | A worker's local maximum is the sentinel for an empty chunk. Otherwise it is an element of the chunk that is at least every element. |
| MaxAggregation.Step | main.py:114-116 | The update leaves the larger of the accumulator and the local maximum, which is one of the two. |
| MaxAggregation.SharedMax.constructor | main.py:122 | The shared cell starts at the sentinel `-10**18`. |
| MaxAggregation.SharedMax.Update | main.py:114-116 | Under the lock, the cell takes `local_max` iff `local_max` is strictly larger than it, and stays unchanged otherwise. It ends at the maximum of the old value and `local_max`. |
| MaxAggregation.WorkerUpdate | main.py:111-116 | One worker applies one update with its local maximum. An empty chunk leaves a cell at or above the sentinel unchanged. |
| MaxAggregation.EmptyChunkNoEffect | main.py:112-116 | An empty chunk contributes the sentinel, and that never changes an accumulator already at or above the sentinel. |
| MaxAggregation.FoldUpdates | main.py:114-116 | The left fold of `Step` over a sequence of local maxima, which is what consecutive locked updates leave in the cell (the dispatch loop at main.py:128-133). The result is at least the start value and at least every update, and it equals the start value or one of the updates. |
| MaxAggregation.FoldOrderIndependent | main.py:128-133 | Any two orders of the same updates leave the same final value. |
| MaxAggregation.Contributions | main.py:128-133 | For each lock acquisition, in order, the local maximum of the chunk of the worker that acquires it. |
| MaxAggregation.ScheduleFoldIsMax | main.py:118-137 | Starting at the sentinel, with every chunk updating once in any order, the final value is at least the sentinel and at least every element of `data`. It is the sentinel or an element of `data`. |
| MaxAggregation.RunSchedule | main.py:122-137 | Creating the cell, running every worker's locked update in the order `order` and reading the cell after the joins gives the fold of their local maxima from the sentinel. |
| MaxAggregation.RunMaxWorkers | main.py:118-137 | For every lock-acquisition order, the result, at least the sentinel, is at least every element and is the sentinel or an element of `data`. It equals `max(data)` when `data` is non-empty and above the sentinel. Empty data gives the sentinel itself, with no error. A negative count gives the sentinel, and `workers = 0` is excluded. The same protocol is `max_threads` at main.py:84-107. |
| Scenario.FiveElementsPartition | main.py:19-27 | `[5, -3, 9, 9, 0]` in two segments is `[5, -3, 9]` and `[9, 0]`. |
| Scenario.FiveElementsMerge | main.py:42-43 | The sorted segments `[-3, 5, 9]` and `[0, 9]` merge to `[-3, 0, 5, 9, 9]`. |
| Scenario.FiveElementsMax | main.py:118-137 | Over those two segments, with worker 1 taking the lock first, the max run ends at 9. |
| Scenario.EmptyDataPartition | main.py:21-26 | Empty data in four segments gives four empty segments. |
| Scenario.EmptyDataMerge | main.py:42-43 | Merging four empty segments gives the empty list. |
| Scenario.EmptyDataMax | main.py:118-137 | Over four empty segments the max run ends at the sentinel. |

## Left out

- Threads, processes, `mp.Pool`, `mp.Value`, `mp.Lock`, `start`/`join` and `mp.set_start_method`: the model has no concurrency. The lock is modelled as each update being atomic, so a run is a sequence of updates in the order `order`. In `sort_threads` each worker writes only its own slot, and the model fills the slots in index order.
- `sort_processes` (main.py:71-81): for `workers >= 1`, `pool.map` returns the sorted chunks in chunk order. Its merge input is then the slot list of `sort_threads`, which `SortThreads` covers. For a negative count, `chunks_of` yields nothing and `mp.Pool(processes=workers)` (main.py:75) raises `ValueError`, so `sort_processes` fails where `SortThreads` returns `[]`.
- Timing and memory sampling (`time.perf_counter`, `tracemalloc`, `measure_memory`, `measure_memory_mb`): these are instrumentation that returns floats.
- `run_experiments` and runner.py: random data generation and table printing. runner.py also imports a module that is not part of this model.
- MaxAggregation.RunMaxWorkers: `max_threads` starts from the float `-inf` (main.py:86, main.py:90). The model uses the integer `-10**18` of `max_processes` (main.py:112, main.py:122) for both. With a positive worker count and non-empty data whose largest value is at least `-10**18`, the two agree, as on the generated data in ±10^6 (main.py:147). The model differs from `max_threads` in three cases. If every value is below `-10**18`, `max_threads` returns the largest value, and the model returns `-10**18`. For empty data, `max_threads` returns `-inf` (main.py:107), and the model returns `-10**18`. For a negative worker count no worker starts, so `max_threads` returns `-inf` (main.py:86, main.py:107), and the model returns `-10**18`.
- The C `long` width of `mp.Value('l')`: integers are unbounded in the model.
- The heap inside `heapq.merge`: `KMerge` finds the smallest head by a linear scan. It makes the same choice as the heap, including on ties.
- ParallelSort.ThreadWorker: sorts a fresh copy of the chunk and stores the copy in the slot. In the source, `chunk.sort()` (main.py:39) sorts the list object itself, so after the run `chunks[i]` and `sorted_chunks[i]` (main.py:52) are the same sorted list. The model does not capture this aliasing. Nothing reads `chunks` after the workers finish, so no result depends on it.
- ParallelSort.MapSortChunk: Python's list sort (Timsort) is replaced by an insertion sort. An ascending permutation is unique (`SortedPermutationUnique`), so the resulting list is the same.
- `chunks_of` is a generator. The model builds the list that `list(chunks_of(...))` produces.
- max_value_aggregation/ and mapreduce_sort/ are thread and process wrappers that follow the same plan as `main.py`, splitting with `split_into_chunks`, and are not part of this model. They differ from `main.py` in three ways. `max_threaded` and `_proc_worker` call `max(chunk)` with no empty guard (max_value_aggregation/max_threaded.py:10, max_value_aggregation/max_process.py:6), so more workers than elements raises `ValueError` where `max_threads` returns the maximum. `max_process` uses a 32-bit `'i'` cell starting at `-99999999` (max_value_aggregation/max_process.py:13), not `'l'` at `-10**18`. `map_sort_threaded` and `map_sort_process` sort copies with `sorted()` and return the sorted chunks without merging them (mapreduce_sort/map_sort_threaded.py:9, mapreduce_sort/map_sort_threaded.py:26, mapreduce_sort/map_sort_process.py:6, mapreduce_sort/map_sort_process.py:21).
- For empty data, a max over no elements could be treated as an error. The code instead returns the sentinel, and the model follows the code.
