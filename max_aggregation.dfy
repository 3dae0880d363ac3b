/**
 * The max workload of main.py (`max_threads` and `max_processes`): one
 * shared accumulator starts at a sentinel, every worker computes the maximum
 * of its chunk (the sentinel for an empty chunk) and, holding the lock,
 * replaces the accumulator when its local maximum is strictly larger.
 *
 * The lock makes each compare-and-update atomic, so a run is the updates of
 * all workers applied one after another in some order. That order is the
 * parameter `order` of `RunMaxWorkers`: it may be any arrangement of the
 * worker indices.
 */
module MaxAggregation {
  import opened Chunking

  /** `-10**18`, the initial value of the shared `'l'` cell and the local maximum of an empty chunk. */
  const Sentinel: int := -1_000_000_000_000_000_000

  /** Python's `max(s)` on a non-empty list. */
  function SeqMax(s: seq<int>): (m: int)
    requires s != []
    ensures m in s
    ensures forall i :: 0 <= i < |s| ==> s[i] <= m
    decreases |s|
  {
    if |s| == 1 then s[0]
    else
      var rest := SeqMax(s[1..]);
      assert forall i :: 1 <= i < |s| ==> s[i] == s[1..][i - 1];
      if s[0] >= rest then s[0] else rest
  }

  /** `local_max = max(ch) if ch else -10**18`. */
  function LocalMax(chunk: seq<int>): (m: int)
    ensures chunk == [] ==> m == Sentinel
    ensures chunk != [] ==> m in chunk && forall i :: 0 <= i < |chunk| ==> chunk[i] <= m
  {
    if chunk == [] then Sentinel else SeqMax(chunk)
  }

  /**
   * The compare-and-update under the lock, as a value: the accumulator after
   * one worker with local maximum `localMax` has gone through it. It is the
   * larger of the two.
   */
  function Step(acc: int, localMax: int): (r: int)
    ensures r >= acc && r >= localMax
    ensures r == acc || r == localMax
  {
    if localMax > acc then localMax else acc
  }

  /**
   * The accumulator after the updates `ms` were applied to `acc`, first to
   * last: the largest of its start value and every update.
   */
  function FoldUpdates(acc: int, ms: seq<int>): (r: int)
    ensures r >= acc
    ensures forall t :: 0 <= t < |ms| ==> ms[t] <= r
    ensures r == acc || r in ms
    decreases |ms|
  {
    if ms == [] then acc
    else
      var init := ms[..|ms| - 1];
      assert forall t :: 0 <= t < |init| ==> ms[t] == init[t];
      Step(FoldUpdates(acc, init), ms[|ms| - 1])
  }

  /** The order in which the updates reach the accumulator does not change the final value. */
  lemma {:induction false} FoldOrderIndependent(acc: int, ms1: seq<int>, ms2: seq<int>)
    requires multiset(ms1) == multiset(ms2)
    ensures FoldUpdates(acc, ms1) == FoldUpdates(acc, ms2)
  {
    var r1, r2 := FoldUpdates(acc, ms1), FoldUpdates(acc, ms2);
    assert r1 != acc ==> r1 in multiset(ms2);
    assert r2 != acc ==> r2 in multiset(ms1);
  }

  /** An empty chunk contributes the sentinel, which never changes an accumulator at or above it. */
  lemma {:induction false} EmptyChunkNoEffect(acc: int)
    requires acc >= Sentinel
    ensures Step(acc, LocalMax([])) == acc
  {
  }

  /**
   * The shared accumulator cell: `shared["max"]` in `max_threads`,
   * `shared_value.value` in `max_processes`.
   */
  class SharedMax {
    var value: int

    /** Created before any worker runs, holding the sentinel. */
    constructor ()
      ensures value == Sentinel
    {
      value := Sentinel;
    }

    /** `with lock: if local_max > value: value = local_max`, one atomic step. */
    method Update(localMax: int)
      modifies this
      ensures localMax > old(value) ==> value == localMax
      ensures localMax <= old(value) ==> value == old(value)
      ensures value == Step(old(value), localMax)
    {
      if localMax > value {
        value := localMax;
      }
    }
  }

  /** One worker (`thread_worker` / `process_worker_update`): its local maximum, then the locked update. */
  method WorkerUpdate(chunk: seq<int>, shared: SharedMax)
    modifies shared
    ensures shared.value == Step(old(shared.value), LocalMax(chunk))
    ensures chunk == [] && old(shared.value) >= Sentinel ==> shared.value == old(shared.value)
  {
    var localMax := LocalMax(chunk);
    shared.Update(localMax);
  }

  /** How many workers `range(workers)` starts: none for a negative count. */
  function WorkerCount(workers: int): nat {
    if workers < 0 then 0 else workers
  }

  /** `order` lists every worker index `0 .. workers-1` once: the order in which they take the lock. */
  predicate IsSchedule(order: seq<nat>, workers: nat) {
    |order| == workers &&
    (forall t :: 0 <= t < |order| ==> order[t] < workers) &&
    (forall i :: 0 <= i < workers ==> i in order)
  }

  /** Every element of a segment is an element of the concatenation, and back. */
  lemma {:induction false} InFlatten(cs: seq<seq<int>>, x: int)
    ensures x in Flatten(cs) <==> exists i :: 0 <= i < |cs| && x in cs[i]
    decreases |cs|
  {
    if cs != [] {
      InFlatten(cs[1..], x);
      assert forall i :: 1 <= i < |cs| ==> cs[i] == cs[1..][i - 1];
      if x in Flatten(cs[1..]) {
        var i :| 0 <= i < |cs[1..]| && x in cs[1..][i];
        assert x in cs[i + 1];
      }
    }
  }

  /** The local maxima of the chunks, in the order the workers take the lock. */
  function Contributions(chunks: seq<seq<int>>, order: seq<nat>): (ms: seq<int>)
    requires forall t :: 0 <= t < |order| ==> order[t] < |chunks|
    ensures |ms| == |order|
    ensures forall t :: 0 <= t < |order| ==> ms[t] == LocalMax(chunks[order[t]])
  {
    if order == [] then []
    else Contributions(chunks, order[..|order| - 1]) + [LocalMax(chunks[order[|order| - 1]])]
  }

  /**
   * What the updates of all workers, in the schedule `order`, leave in an
   * accumulator that started at the sentinel.
   */
  lemma {:induction false} ScheduleFoldIsMax(data: seq<int>, chunks: seq<seq<int>>, order: seq<nat>)
    requires Flatten(chunks) == data
    requires IsSchedule(order, |chunks|)
    ensures FoldUpdates(Sentinel, Contributions(chunks, order)) >= Sentinel
    ensures forall i :: 0 <= i < |data| ==> data[i] <= FoldUpdates(Sentinel, Contributions(chunks, order))
    ensures FoldUpdates(Sentinel, Contributions(chunks, order)) == Sentinel || FoldUpdates(Sentinel, Contributions(chunks, order)) in data
  {
    var seen := Contributions(chunks, order);
    var r := FoldUpdates(Sentinel, seen);
    forall i | 0 <= i < |data| ensures data[i] <= r {
      InFlatten(chunks, data[i]);
      var c :| 0 <= c < |chunks| && data[i] in chunks[c];
      assert c in order;
      var t :| 0 <= t < |order| && order[t] == c;
      assert seen[t] == LocalMax(chunks[c]);
    }
    if r != Sentinel {
      var t :| 0 <= t < |seen| && seen[t] == r;
      InFlatten(chunks, r);
    }
  }

  /** One more lock acquisition applies one more update to the fold of the earlier ones. */
  lemma {:induction false} ScheduleStep(chunks: seq<seq<int>>, order: seq<nat>, t: nat)
    requires t < |order|
    requires forall u :: 0 <= u < |order| ==> order[u] < |chunks|
    ensures FoldUpdates(Sentinel, Contributions(chunks, order[..t + 1]))
         == Step(FoldUpdates(Sentinel, Contributions(chunks, order[..t])), LocalMax(chunks[order[t]]))
  {
    var pre, cur := order[..t], order[..t + 1];
    assert cur[..t] == pre && cur[t] == order[t];
    var ms := Contributions(chunks, cur);
    assert ms[..|ms| - 1] == Contributions(chunks, pre);
  }

  /**
   * The dispatch-and-join part of `max_threads` / `max_processes`: the shared
   * cell is created holding the sentinel, then each worker `order[t]` in turn
   * runs its locked update on it; the cell is read after the last one.
   */
  method RunSchedule(chunks: seq<seq<int>>, order: seq<nat>) returns (result: int)
    requires IsSchedule(order, |chunks|)
    ensures result == FoldUpdates(Sentinel, Contributions(chunks, order))
  {
    var shared := new SharedMax();
    for t := 0 to |order|
      invariant shared.value == FoldUpdates(Sentinel, Contributions(chunks, order[..t]))
    {
      WorkerUpdate(chunks[order[t]], shared);
      ScheduleStep(chunks, order, t);
    }
    result := shared.value;
    assert order[..|order|] == order;
  }

  /**
   * A bound of non-empty data lying above the sentinel that is the sentinel or
   * an element of the data is `max(data)`.
   */
  lemma {:induction false} MaxAboveSentinel(data: seq<int>, r: int)
    requires data != [] && forall i :: 0 <= i < |data| ==> data[i] > Sentinel
    requires forall i :: 0 <= i < |data| ==> data[i] <= r
    requires r == Sentinel || r in data
    ensures r == SeqMax(data)
  {
    assert data[0] <= r;
    var m := SeqMax(data);
    var i :| 0 <= i < |data| && data[i] == r;
    var j :| 0 <= j < |data| && data[j] == m;
  }

  /**
   * `max_threads` / `max_processes` with the lock acquisitions in the order
   * `order`. Whatever the order, the result is the largest of the sentinel and
   * the data: the sentinel itself for empty data (no error is raised), and
   * `max(data)` when every value lies above the sentinel. `workers = 0`
   * divides by zero in `chunks_of`; a negative count starts no worker and
   * leaves the sentinel.
   */
  method RunMaxWorkers(data: seq<int>, workers: int, order: seq<nat>) returns (result: int)
    requires workers != 0
    requires IsSchedule(order, WorkerCount(workers))
    ensures result >= Sentinel
    ensures workers > 0 ==> forall i :: 0 <= i < |data| ==> data[i] <= result
    ensures result == Sentinel || result in data
    ensures data == [] ==> result == Sentinel
    ensures workers > 0 && data != [] && (forall i :: 0 <= i < |data| ==> data[i] > Sentinel) ==> result == SeqMax(data)
    ensures workers < 0 ==> result == Sentinel
  {
    var chunks := ChunksOf(data, workers);
    result := RunSchedule(chunks, order);
    if workers > 0 {
      ScheduleFoldIsMax(data, chunks, order);
      if data != [] && forall i :: 0 <= i < |data| ==> data[i] > Sentinel {
        MaxAboveSentinel(data, result);
      }
    } else {
      assert order == [];
      assert Contributions(chunks, order) == [];
    }
  }
}
