/**
 * Two worked runs of the sort and max workloads, computed on the model:
 * `data = [5, -3, 9, 9, 0]` with two workers, and empty data with four.
 */
module Scenario {
  import opened Chunking
  import opened KWayMerge
  import opened MaxAggregation

  /** Splitting `[5, -3, 9, 9, 0]` in two gives `[5, -3, 9]` and `[9, 0]`. */
  lemma FiveElementsPartition()
    ensures Partition([5, -3, 9, 9, 0], 2) == [[5, -3, 9], [9, 0]]
  {
    var data := [5, -3, 9, 9, 0];
    assert SegmentStart(5, 2, 0) == 0 && SegmentStart(5, 2, 1) == 3 && SegmentStart(5, 2, 2) == 5;
    assert Segment(data, 2, 0) == data[0..3] == [5, -3, 9];
    assert Segment(data, 2, 1) == data[3..5] == [9, 0];
  }

  /** The last steps of that merge: two equal heads are emitted one after the other. */
  lemma EqualHeadsMerge()
    ensures KMerge([[9], [9]]) == [9, 9]
  {
    assert KMerge([[], []]) == [];
    assert BestHead([[], [9]], 2) == 1;
    assert [9][1..] == [];
    assert [[], [9]][1 := [9][1..]] == [[], []];
    assert KMerge([[], [9]]) == [9];
    assert BestHead([[9], [9]], 2) == 0;
    assert [[9], [9]][0 := [9][1..]] == [[], [9]];
  }

  /** The middle of that merge: `[5, 9]` and `[0, 9]` merge to `[0, 5, 9, 9]`. */
  lemma MergeAfterFirstHead()
    ensures KMerge([[5, 9], [0, 9]]) == [0, 5, 9, 9]
  {
    EqualHeadsMerge();
    assert BestHead([[5, 9], [9]], 2) == 0;
    assert [[5, 9], [9]][0 := [5, 9][1..]] == [[9], [9]];
    assert KMerge([[5, 9], [9]]) == [5, 9, 9];
    assert BestHead([[5, 9], [0, 9]], 2) == 1;
    assert [[5, 9], [0, 9]][1 := [0, 9][1..]] == [[5, 9], [9]];
  }

  /** The sorted chunks `[-3, 5, 9]` and `[0, 9]` merge to `[-3, 0, 5, 9, 9]`. */
  lemma FiveElementsMerge()
    ensures KMerge([[-3, 5, 9], [0, 9]]) == [-3, 0, 5, 9, 9]
  {
    MergeAfterFirstHead();
    assert BestHead([[-3, 5, 9], [0, 9]], 2) == 0;
    assert [[-3, 5, 9], [0, 9]][0 := [-3, 5, 9][1..]] == [[5, 9], [0, 9]];
  }

  /** The max run over those two chunks yields 9 when worker 1 takes the lock first. */
  lemma FiveElementsMax()
    ensures FoldUpdates(Sentinel, Contributions([[5, -3, 9], [9, 0]], [1, 0])) == 9
  {
    var ms := Contributions([[5, -3, 9], [9, 0]], [1, 0]);
    assert ms[0] == LocalMax([9, 0]) == 9;
    assert ms[1] == LocalMax([5, -3, 9]) == 9;
  }

  /** Empty data with four workers: four empty chunks. */
  lemma EmptyDataPartition()
    ensures Partition([], 4) == [[], [], [], []]
  {
    MoreSegmentsThanElements([], 4);
  }

  /** Merging four empty chunks gives the empty list. */
  lemma EmptyDataMerge()
    ensures KMerge([[], [], [], []]) == []
  {
    assert BestHead([[], [], [], []], 4) == -1;
  }

  /** Over four empty chunks the max run ends at the sentinel itself. */
  lemma EmptyDataMax()
    ensures FoldUpdates(Sentinel, Contributions([[], [], [], []], [0, 1, 2, 3])) == Sentinel
  {
    var ms := Contributions([[], [], [], []], [0, 1, 2, 3]);
    assert forall t :: 0 <= t < |ms| ==> ms[t] == Sentinel;
  }
}
