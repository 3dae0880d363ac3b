/**
 * The sortedness check `is_sorted`, written twice in the repository with the
 * same body (main.py and utils/helpers.py): a list is sorted when every
 * adjacent pair is in non-decreasing order.
 */
module Sortedness {

  /** `is_sorted(arr)`: every adjacent pair `arr[i] <= arr[i+1]`. */
  predicate IsSorted(s: seq<int>) {
    forall i :: 0 <= i < |s| - 1 ==> s[i] <= s[i + 1]
  }

  /** Every element of `s` is at least `x`. */
  predicate AllAtLeast(x: int, s: seq<int>) {
    forall p :: 0 <= p < |s| ==> x <= s[p]
  }

  /**
   * The adjacent-pair check is the same as the all-pairs notion of order,
   * in both directions; short lists are sorted vacuously.
   */
  lemma {:induction false} SortedIffAllPairs(s: seq<int>)
    ensures IsSorted(s) <==> forall i, j :: 0 <= i < j < |s| ==> s[i] <= s[j]
    ensures |s| <= 1 ==> IsSorted(s)
    decreases |s|
  {
    if |s| > 1 {
      SortedIffAllPairs(s[1..]);
      if IsSorted(s) {
        assert IsSorted(s[1..]) by {
          forall i | 0 <= i < |s[1..]| - 1 ensures s[1..][i] <= s[1..][i + 1] {
            assert s[1..][i] == s[i + 1] && s[1..][i + 1] == s[i + 2];
          }
        }
        forall i, j | 0 <= i < j < |s| ensures s[i] <= s[j] {
          if i > 0 {
            assert s[i] == s[1..][i - 1] && s[j] == s[1..][j - 1];
          } else if j > 1 {
            assert s[1] == s[1..][0] && s[j] == s[1..][j - 1];
          }
        }
      }
    }
  }

  /** The first element of a sorted non-empty list is its least element. */
  lemma {:induction false} SortedHeadIsLeast(s: seq<int>)
    requires IsSorted(s) && s != []
    ensures AllAtLeast(s[0], s)
  {
    SortedIffAllPairs(s);
  }

  /** Dropping the first element keeps a list sorted. */
  lemma {:induction false} SortedTail(s: seq<int>)
    requires IsSorted(s) && s != []
    ensures IsSorted(s[1..])
  {
    forall i | 0 <= i < |s[1..]| - 1 ensures s[1..][i] <= s[1..][i + 1] {
      assert s[1..][i] == s[i + 1] && s[1..][i + 1] == s[i + 2];
    }
  }

  /** Putting a lower bound in front of a sorted list keeps it sorted. */
  lemma {:induction false} SortedCons(x: int, s: seq<int>)
    requires IsSorted(s) && AllAtLeast(x, s)
    ensures IsSorted([x] + s)
  {
    var t := [x] + s;
    forall i | 0 <= i < |t| - 1 ensures t[i] <= t[i + 1] {
      if i > 0 {
        assert t[i] == s[i - 1] && t[i + 1] == s[i];
      } else {
        assert t[1] == s[0];
      }
    }
  }

  /**
   * A multiset has exactly one ascending arrangement: two sorted lists with
   * the same elements are the same list.
   */
  lemma {:induction false} SortedPermutationUnique(a: seq<int>, b: seq<int>)
    requires IsSorted(a) && IsSorted(b)
    requires multiset(a) == multiset(b)
    ensures a == b
    decreases |a|
  {
    assert |a| == |multiset(a)| == |multiset(b)| == |b|;
    if a != [] {
      assert a == [a[0]] + a[1..] && b == [b[0]] + b[1..];
      assert a[0] in multiset(b) && b[0] in multiset(a);
      SortedHeadIsLeast(a);
      SortedHeadIsLeast(b);
      assert a[0] == b[0];
      assert multiset(a[1..]) == multiset(a) - multiset{a[0]};
      assert multiset(b[1..]) == multiset(b) - multiset{b[0]};
      assert multiset(a[1..]) == multiset(b[1..]);
      SortedTail(a);
      SortedTail(b);
      SortedPermutationUnique(a[1..], b[1..]);
    }
  }
}
