/**
 * Expected outputs from the crate's documentation and unit tests, derived from
 * the contracts of `TreeMultiSet` and of the flat views.
 */
module Scenarios {
  import opened Occurrences
  import opened Ranges
  import opened TreeMultiSets

  /** The crate documentation example: insert 1, 2, 2, then remove one 2. */
  method DocumentationExample() {
    var ms := new TreeMultiSet();
    ms.Insert(1);
    ms.Insert(2);
    ms.Insert(2);
    assert ms.Count(1) == 1;
    assert ms.Count(2) == 2;
    var r := ms.RemoveOne(2);
    assert r == Some(2);
    assert ms.Count(2) == 1;
  }

  /** Every query on the empty multiset reports emptiness. */
  method EmptyQueries() {
    var ms := new TreeMultiSet();
    assert ms.IsEmpty();
    assert ms.Len() == 0;
    assert ms.First() == None;
    assert ms.Last() == None;
    var a := ms.PopFirst();
    assert a == None;
    var b := ms.PopLast();
    assert b == None;
    assert ms.Iter() == [];
    assert ms.Range(Included(0), Excluded(10)) == [];
    assert ms.Range(Unbounded, Unbounded) == [];
  }

  /**
   * The counts that the range test's nested insertion loop leaves behind: each
   * of 1 to 4 counted as often as its value. The map is stated here, not built
   * through `Insert`.
   */
  function RangeTestCounts(): map<int, nat> {
    map[1 := 1, 2 := 2, 3 := 3, 4 := 4]
  }

  /** In the range test, `iter` yields 1, 2, 2, 3, 3, 3, 4, 4, 4, 4. */
  lemma RangeTestIter()
    ensures Flatten(RangeTestCounts()) == [1, 2, 2, 3, 3, 3, 4, 4, 4, 4]
  {
    var m := RangeTestCounts();
    var all := [1, 2, 2, 3, 3, 3, 4, 4, 4, 4];
    assert NonDecreasing(all);
    assert multiset(all) == multiset{1, 2, 2, 3, 3, 3, 4, 4, 4, 4};
    forall k ensures multiset(all)[k] == Mult(m, k) {
      if k !in m {
        assert k !in all;
      }
    }
    FlattenUnique(m, all);
  }

  /** On the range test's flat view, `1..=4` keeps every element. */
  lemma RestrictClosed(s: seq<int>)
    requires s == [1, 2, 2, 3, 3, 3, 4, 4, 4, 4]
    ensures Restrict(s, Included(1), Included(4)) == s
  {
    forall i | 0 <= i < |s| ensures InRange(Included(1), Included(4), s[i]) {
    }
    RestrictAllInRange(s, Included(1), Included(4));
  }

  /** On the range test's flat view, `1..3` keeps 1, 2, 2. */
  lemma RestrictHalfOpen()
    ensures Restrict([1, 2, 2, 3, 3, 3, 4, 4, 4, 4], Included(1), Excluded(3)) == [1, 2, 2]
  {
  }

  /** On the range test's flat view, `..3` keeps 1, 2, 2. */
  lemma RestrictBelow()
    ensures Restrict([1, 2, 2, 3, 3, 3, 4, 4, 4, 4], Unbounded, Excluded(3)) == [1, 2, 2]
  {
  }

  /** On the range test's flat view, `..=3` keeps 1, 2, 2, 3, 3, 3. */
  lemma RestrictUpTo()
    ensures Restrict([1, 2, 2, 3, 3, 3, 4, 4, 4, 4], Unbounded, Included(3)) == [1, 2, 2, 3, 3, 3]
  {
  }

  /** On the range test's flat view, `2..` keeps everything from 2. */
  lemma RestrictFrom()
    ensures Restrict([1, 2, 2, 3, 3, 3, 4, 4, 4, 4], Included(2), Unbounded) == [2, 2, 3, 3, 3, 4, 4, 4, 4]
  {
    var tail := [2, 2, 3, 3, 3, 4, 4, 4, 4];
    assert [1, 2, 2, 3, 3, 3, 4, 4, 4, 4] == [1] + tail;
    RestrictConcat([1], tail, Included(2), Unbounded);
    RestrictAllInRange(tail, Included(2), Unbounded);
  }

  /** On the range test's flat view, `2..=4` keeps everything from 2. */
  lemma RestrictFromTo()
    ensures Restrict([1, 2, 2, 3, 3, 3, 4, 4, 4, 4], Included(2), Included(4)) == [2, 2, 3, 3, 3, 4, 4, 4, 4]
  {
    var tail := [2, 2, 3, 3, 3, 4, 4, 4, 4];
    assert [1, 2, 2, 3, 3, 3, 4, 4, 4, 4] == [1] + tail;
    RestrictConcat([1], tail, Included(2), Included(4));
    RestrictAllInRange(tail, Included(2), Included(4));
  }

  /** Reversing the two ranges the test walks backwards. */
  lemma RangeTestReversals()
    ensures Reverse([1, 2, 2, 3, 3, 3]) == [3, 3, 3, 2, 2, 1]
    ensures Reverse([2, 2, 3, 3, 3, 4, 4, 4, 4]) == [4, 4, 4, 4, 3, 3, 3, 2, 2]
  {
  }

  /** On the range test's counts, every range is the flat view restricted to its bounds. */
  lemma RangeTestRange(lo: Bound, hi: Bound)
    ensures RangeSeq(RangeTestCounts(), lo, hi) == Restrict([1, 2, 2, 3, 3, 3, 4, 4, 4, 4], lo, hi)
  {
    RangeTestIter();
    RangeIsRestrictedIter(RangeTestCounts(), lo, hi);
  }

  /**
   * The forward assertions of the range test: `range(1..=4)`, `range(1..3)`,
   * `range(..3)`, `range(..=3)` and `range(2..)`.
   */
  lemma RangeTestForward()
    ensures RangeSeq(RangeTestCounts(), Included(1), Included(4)) == [1, 2, 2, 3, 3, 3, 4, 4, 4, 4]
    ensures RangeSeq(RangeTestCounts(), Included(1), Excluded(3)) == [1, 2, 2]
    ensures RangeSeq(RangeTestCounts(), Unbounded, Excluded(3)) == [1, 2, 2]
    ensures RangeSeq(RangeTestCounts(), Unbounded, Included(3)) == [1, 2, 2, 3, 3, 3]
    ensures RangeSeq(RangeTestCounts(), Included(2), Unbounded) == [2, 2, 3, 3, 3, 4, 4, 4, 4]
  {
    RestrictClosed([1, 2, 2, 3, 3, 3, 4, 4, 4, 4]);
    RestrictHalfOpen();
    RestrictBelow();
    RestrictUpTo();
    RestrictFrom();
    RangeTestRange(Included(1), Included(4));
    RangeTestRange(Included(1), Excluded(3));
    RangeTestRange(Unbounded, Excluded(3));
    RangeTestRange(Unbounded, Included(3));
    RangeTestRange(Included(2), Unbounded);
  }

  /** The backward assertions of the range test: `range(..=3).rev()` and `range(2..=4).rev()`. */
  lemma RangeTestBackward()
    ensures RangeBackSeq(RangeTestCounts(), Unbounded, Included(3)) == [3, 3, 3, 2, 2, 1]
    ensures RangeBackSeq(RangeTestCounts(), Included(2), Included(4)) == [4, 4, 4, 4, 3, 3, 3, 2, 2]
  {
    RestrictUpTo();
    RestrictFromTo();
    RangeTestReversals();
    RangeTestRange(Unbounded, Included(3));
    RangeTestRange(Included(2), Included(4));
    RangeBackIsReverse(RangeTestCounts(), Unbounded, Included(3));
    RangeBackIsReverse(RangeTestCounts(), Included(2), Included(4));
  }

  /** The iteration test: after inserting 1, 2, 3, 3, 4, 5, 5, `iter` yields them in that order. */
  lemma IterTest()
    ensures Flatten(map[1 := 1, 2 := 1, 3 := 2, 4 := 1, 5 := 2]) == [1, 2, 3, 3, 4, 5, 5]
  {
    var m := map[1 := 1, 2 := 1, 3 := 2, 4 := 1, 5 := 2];
    var all := [1, 2, 3, 3, 4, 5, 5];
    assert NonDecreasing(all);
    assert multiset(all) == multiset{1, 2, 3, 3, 4, 5, 5};
    forall k ensures multiset(all)[k] == Mult(m, k) {
      if k !in m {
        assert k !in all;
      }
    }
    FlattenUnique(m, all);
  }
}
