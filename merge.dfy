/**
 * `reduce_merge_sorted(chunks)` in main.py is `list(heapq.merge(*chunks))`:
 * a k-way merge that repeatedly emits the smallest head among the non-empty
 * inputs, preferring the input that comes first when heads are equal. The
 * heap that makes each choice cheap is left out; the choice it makes is kept.
 */
module KWayMerge {
  import opened Sortedness
  import opened Chunking

  /**
   * Index of the chunk among `cs[..m]` whose head is smallest (the lowest
   * such index on ties), or -1 when all of them are empty.
   */
  function BestHead(cs: seq<seq<int>>, m: nat): (r: int)
    requires m <= |cs|
    ensures -1 <= r < m
    ensures r == -1 <==> forall j :: 0 <= j < m ==> cs[j] == []
    ensures r >= 0 ==> cs[r] != []
    ensures r >= 0 ==> forall j :: 0 <= j < m && cs[j] != [] ==> cs[r][0] <= cs[j][0]
    ensures r >= 0 ==> forall j :: 0 <= j < r && cs[j] != [] ==> cs[r][0] < cs[j][0]
    decreases m
  {
    if m == 0 then -1
    else
      var b := BestHead(cs, m - 1);
      if cs[m - 1] == [] then b
      else if b == -1 || cs[m - 1][0] < cs[b][0] then m - 1
      else b
  }

  /** Every chunk is ascending: the precondition of the merge. */
  predicate AllSorted(cs: seq<seq<int>>) {
    forall j :: 0 <= j < |cs| ==> IsSorted(cs[j])
  }

  /** Taking the head off chunk `j` takes exactly that one element out of the concatenation. */
  lemma {:induction false} FlattenPop(cs: seq<seq<int>>, j: nat)
    requires j < |cs| && cs[j] != []
    ensures multiset(Flatten(cs)) == multiset{cs[j][0]} + multiset(Flatten(cs[j := cs[j][1..]]))
    ensures |Flatten(cs[j := cs[j][1..]])| + 1 == |Flatten(cs)|
    decreases |cs|
  {
    var cs' := cs[j := cs[j][1..]];
    if j == 0 {
      assert cs[0] == [cs[0][0]] + cs[0][1..];
      assert cs'[1..] == cs[1..];
    } else {
      FlattenPop(cs[1..], j - 1);
      assert cs'[0] == cs[0];
      assert cs'[1..] == cs[1..][j - 1 := cs[1..][j - 1][1..]];
    }
  }

  /**
   * `heapq.merge(*chunks)`, emitting one head at a time until every chunk is
   * empty. The output is empty exactly when every chunk is; otherwise it
   * begins with the smallest head, taken from the earliest chunk holding it.
   */
  function KMerge(cs: seq<seq<int>>): (r: seq<int>)
    ensures r == [] <==> forall j :: 0 <= j < |cs| ==> cs[j] == []
    ensures r != [] ==> forall j :: 0 <= j < |cs| && cs[j] != [] ==> r[0] <= cs[j][0]
    ensures r != [] ==> r[0] == cs[BestHead(cs, |cs|)][0]
    decreases |Flatten(cs)|
  {
    var j := BestHead(cs, |cs|);
    if j == -1 then []
    else
      FlattenPop(cs, j);
      [cs[j][0]] + KMerge(cs[j := cs[j][1..]])
  }

  /** When every chunk is empty, so is their concatenation. */
  lemma {:induction false} FlattenAllEmpty(cs: seq<seq<int>>)
    requires forall j :: 0 <= j < |cs| ==> cs[j] == []
    ensures Flatten(cs) == []
    decreases |cs|
  {
    if cs != [] {
      FlattenAllEmpty(cs[1..]);
    }
  }

  /** A lower bound of every chunk is a lower bound of their concatenation. */
  lemma {:induction false} FlattenAtLeast(x: int, cs: seq<seq<int>>)
    requires forall j :: 0 <= j < |cs| ==> AllAtLeast(x, cs[j])
    ensures AllAtLeast(x, Flatten(cs))
    decreases |cs|
  {
    if cs != [] {
      FlattenAtLeast(x, cs[1..]);
      assert Flatten(cs) == cs[0] + Flatten(cs[1..]);
    }
  }

  /** The merge emits every element of the chunks, each as often as it occurs: a permutation of the concatenation. */
  lemma {:induction false} KMergePermutation(cs: seq<seq<int>>)
    ensures multiset(KMerge(cs)) == multiset(Flatten(cs))
    ensures |KMerge(cs)| == |Flatten(cs)|
    decreases |Flatten(cs)|
  {
    var j := BestHead(cs, |cs|);
    if j == -1 {
      FlattenAllEmpty(cs);
    } else {
      FlattenPop(cs, j);
      KMergePermutation(cs[j := cs[j][1..]]);
    }
    assert |KMerge(cs)| == |multiset(KMerge(cs))| == |multiset(Flatten(cs))| == |Flatten(cs)|;
  }

  /** If every chunk is ascending, so is the merged output. */
  lemma {:induction false} KMergeSorted(cs: seq<seq<int>>)
    requires AllSorted(cs)
    ensures IsSorted(KMerge(cs))
    decreases |Flatten(cs)|
  {
    var j := BestHead(cs, |cs|);
    if j != -1 {
      var x := cs[j][0];
      var cs' := cs[j := cs[j][1..]];
      FlattenPop(cs, j);
      SortedTail(cs[j]);
      assert AllSorted(cs');
      KMergeSorted(cs');
      forall i | 0 <= i < |cs'| ensures AllAtLeast(x, cs'[i]) {
        if cs[i] != [] {
          SortedHeadIsLeast(cs[i]);
        }
      }
      FlattenAtLeast(x, cs');
      KMergePermutation(cs');
      var rest := KMerge(cs');
      forall p | 0 <= p < |rest| ensures x <= rest[p] {
        assert rest[p] in multiset(rest);
        assert rest[p] in Flatten(cs');
      }
      SortedCons(x, rest);
    }
  }

  /** The linear-time check the driver runs on the merged output accepts it. */
  lemma {:induction false} MergeIsAscendingPermutation(cs: seq<seq<int>>)
    requires AllSorted(cs)
    ensures IsSorted(KMerge(cs)) && multiset(KMerge(cs)) == multiset(Flatten(cs))
    ensures |KMerge(cs)| == |Flatten(cs)|
  {
    KMergeSorted(cs);
    KMergePermutation(cs);
  }

  /** The concatenation around chunk `j`: what comes before it, the chunk, what comes after. */
  lemma {:induction false} FlattenAround(before: seq<seq<int>>, c: seq<int>, after: seq<seq<int>>)
    ensures Flatten(before + [c] + after) == Flatten(before) + c + Flatten(after)
  {
    FlattenAppend(before + [c], after);
    FlattenAppend(before, [c]);
    assert Flatten([c]) == c + Flatten([]);
  }

  /** Taking chunk `j` out of the list takes exactly its elements out of the concatenation. */
  lemma {:induction false} FlattenRemove(cs: seq<seq<int>>, j: nat)
    requires j < |cs|
    ensures multiset(Flatten(cs)) == multiset(cs[j]) + multiset(Flatten(cs[..j] + cs[j + 1..]))
  {
    var before, c, after := cs[..j], cs[j], cs[j + 1..];
    assert cs == before + [c] + after;
    FlattenAround(before, c, after);
    FlattenAppend(before, after);
    var fb, fa := Flatten(before), Flatten(after);
    assert multiset(fb + c + fa) == multiset(c) + multiset(fb + fa);
  }

  /** Reordering the chunks keeps the multiset of their concatenation. */
  lemma {:induction false} FlattenReorder(cs1: seq<seq<int>>, cs2: seq<seq<int>>)
    requires multiset(cs1) == multiset(cs2)
    ensures multiset(Flatten(cs1)) == multiset(Flatten(cs2))
    decreases |cs1|
  {
    assert |cs1| == |multiset(cs1)| == |multiset(cs2)| == |cs2|;
    if cs1 != [] {
      var c := cs1[0];
      assert c in multiset(cs2);
      var j :| 0 <= j < |cs2| && cs2[j] == c;
      var rest2 := cs2[..j] + cs2[j + 1..];
      assert multiset(cs1[1..]) == multiset(rest2) by {
        assert cs2 == cs2[..j] + [c] + cs2[j + 1..];
        assert cs1 == [c] + cs1[1..];
        assert multiset(rest2) == multiset(cs2) - multiset{c};
        assert multiset(cs1[1..]) == multiset(cs1) - multiset{c};
      }
      FlattenReorder(cs1[1..], rest2);
      FlattenRemove(cs2, j);
      FlattenRemove(cs1, 0);
      assert cs1[..0] + cs1[1..] == cs1[1..];
    }
  }

  /**
   * The order in which the sorted chunks reach the merge does not change the
   * merged output.
   */
  lemma {:induction false} MergeOrderIndependent(cs1: seq<seq<int>>, cs2: seq<seq<int>>)
    requires AllSorted(cs1)
    requires multiset(cs1) == multiset(cs2)
    ensures KMerge(cs1) == KMerge(cs2)
  {
    forall j | 0 <= j < |cs2| ensures IsSorted(cs2[j]) {
      assert cs2[j] in multiset(cs1);
    }
    FlattenReorder(cs1, cs2);
    MergeIsAscendingPermutation(cs1);
    MergeIsAscendingPermutation(cs2);
    SortedPermutationUnique(KMerge(cs1), KMerge(cs2));
  }
}
