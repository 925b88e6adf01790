/**
 * `TreeMultiSet`: an ordered multiset kept as an ordered map from each distinct
 * element to its number of occurrences, plus a running total of occurrences.
 */
module TreeMultiSets {
  import opened OrderedKeys
  import opened Occurrences
  import opened Ranges

  datatype Option<T> = None | Some(value: T)

  class TreeMultiSet {
    /** Each distinct element and how many times it occurs. */
    var mp: map<int, nat>
    /** The number of occurrences of all elements together. */
    var count: nat

    /** The total matches the stored counts, and no stored count is zero. */
    ghost predicate Valid()
      reads this
    {
      NoZeroCounts(mp) && count == Sum(mp)
    }

    /** `new`: the empty multiset. */
    constructor ()
      ensures Valid()
      ensures mp == map[] && count == 0
    {
      mp := map[];
      count := 0;
    }

    /** `clear`: removes every element; from any state the result is the empty multiset. */
    method Clear()
      modifies this
      ensures Valid()
      ensures mp == map[] && count == 0
      ensures Iter() == []
    {
      mp := map[];
      count := 0;
    }

    /** `is_empty`: tests the total, which is zero exactly when no element is stored. */
    function IsEmpty(): (r: bool)
      reads this
      requires Valid()
      ensures r <==> Len() == 0
      ensures r <==> mp == map[]
      ensures r <==> Iter() == []
    {
      SumZero(mp);
      FlattenLength(mp);
      count == 0
    }

    /** `len`: the number of occurrences of all elements, which is the length of `iter`. */
    function Len(): (r: nat)
      reads this
      requires Valid()
      ensures r == |Iter()|
    {
      FlattenLength(mp);
      count
    }

    /** `count`: how many times `k` occurs in `iter`; zero exactly when `k` is absent. */
    function Count(k: int): (r: nat)
      reads this
      requires Valid()
      ensures r == multiset(Iter())[k]
      ensures r == 0 <==> !Contains(k)
    {
      FlattenCount(mp);
      if k in mp then mp[k] else 0
    }

    /** `contains`: whether `k` occurs in `iter`. */
    function Contains(k: int): (r: bool)
      reads this
      requires Valid()
      ensures r <==> k in Iter()
    {
      FlattenMembership(mp, k);
      k in mp
    }

    /** `first`: the least element, which `iter` yields first; `None` when empty. */
    function First(): (r: Option<int>)
      reads this
      requires Valid()
      ensures r.None? <==> Len() == 0
      ensures r.Some? ==> Contains(r.value) && forall k :: Contains(k) ==> r.value <= k
      ensures r.Some? ==> |Iter()| > 0 && r.value == Iter()[0]
    {
      SumZero(mp);
      if mp.Keys == {} then None
      else
        FlattenEnds(mp);
        Some(Min(mp.Keys))
    }

    /** `last`: the greatest element, which `iter` yields last; `None` when empty. */
    function Last(): (r: Option<int>)
      reads this
      requires Valid()
      ensures r.None? <==> Len() == 0
      ensures r.Some? ==> Contains(r.value) && forall k :: Contains(k) ==> k <= r.value
      ensures r.Some? ==> |Iter()| > 0 && r.value == Iter()[|Iter()| - 1]
    {
      SumZero(mp);
      if mp.Keys == {} then None
      else
        FlattenEnds(mp);
        Some(Max(mp.Keys))
    }

    /** `iter`: the elements in ascending order, each repeated as often as it occurs. */
    function Iter(): (r: seq<int>)
      reads this
      ensures NonDecreasing(r)
      ensures forall k :: multiset(r)[k] == Mult(mp, k)
    {
      FlattenSorted(mp);
      FlattenCount(mp);
      Flatten(mp)
    }

    /** `range`: what `iter` yields, restricted to the elements within the bounds. */
    function Range(lo: Bound, hi: Bound): (r: seq<int>)
      reads this
      requires Admissible(lo, hi)
      ensures r == Restrict(Iter(), lo, hi)
    {
      RangeIsRestrictedIter(mp, lo, hi);
      RangeSeq(mp, lo, hi)
    }

    /** `range(..).rev()`: the same elements as `range`, in reverse order. */
    function RangeRev(lo: Bound, hi: Bound): (r: seq<int>)
      reads this
      requires Admissible(lo, hi)
      ensures r == Reverse(Range(lo, hi))
    {
      RangeBackIsReverse(mp, lo, hi);
      RangeBackSeq(mp, lo, hi)
    }

    /** `insert`: one more occurrence of `k`; no other element changes. */
    method Insert(k: int)
      requires Valid()
      modifies this
      ensures Valid()
      ensures mp == Increment(old(mp), k) && count == old(count) + 1
      ensures Len() == old(Len()) + 1
      ensures Count(k) == old(Count(k)) + 1
      ensures forall j :: j != k ==> Mult(mp, j) == Mult(old(mp), j)
      ensures multiset(Iter()) == old(multiset(Iter())) + multiset{k}
    {
      count := count + 1;
      var c := if k in mp then mp[k] else 0;
      mp := mp[k := c + 1];
      assert mp == Increment(old(mp), k);
      IncrementSum(old(mp), k);
      IncrementFlatten(old(mp), k);
    }

    /**
     * `remove_one`: when `k` is present, one occurrence of it goes (its entry
     * with it when that was the last one) and `Some(k)` is returned; otherwise
     * `None` and nothing changes.
     */
    method RemoveOne(k: int) returns (r: Option<int>)
      requires Valid()
      modifies this
      ensures Valid()
      ensures r == if old(Contains(k)) then Some(k) else None
      ensures !old(Contains(k)) ==> mp == old(mp) && count == old(count)
      ensures old(Contains(k)) ==> mp == Decrement(old(mp), k) && count == old(count) - 1
      ensures Len() == old(Len()) - (if old(Contains(k)) then 1 else 0)
      ensures Count(k) == if old(Count(k)) == 0 then 0 else old(Count(k)) - 1
      ensures forall j :: j != k ==> Mult(mp, j) == Mult(old(mp), j)
      ensures multiset(Iter()) == old(multiset(Iter())) - multiset{k}
    {
      if k !in mp {
        return None;
      }
      var v := mp[k] - 1;
      mp := mp[k := v];
      count := count - 1;
      if v == 0 {
        mp := mp - {k};
      }
      assert mp == Decrement(old(mp), k);
      DecrementSum(old(mp), k);
      DecrementFlatten(old(mp), k);
      r := Some(k);
    }

    /**
     * `remove_all`: when `k` is present, its entry and all its occurrences go
     * and `Some(k)` is returned; otherwise `None` and nothing changes.
     */
    method RemoveAll(k: int) returns (r: Option<int>)
      requires Valid()
      modifies this
      ensures Valid()
      ensures r == if old(Contains(k)) then Some(k) else None
      ensures !old(Contains(k)) ==> mp == old(mp) && count == old(count)
      ensures mp == old(mp) - {k} && count == old(count) - old(Count(k))
      ensures Len() == old(Len()) - old(Count(k))
      ensures !Contains(k)
      ensures forall j :: j != k ==> Mult(mp, j) == Mult(old(mp), j)
      ensures multiset(Iter()) == old(multiset(Iter()))[k := 0]
    {
      RemoveKeyFlatten(mp, k);
      if k in mp {
        SumRemove(mp, k);
        count := count - mp[k];
        mp := mp - {k};
        return Some(k);
      }
      assert mp - {k} == mp;
      return None;
    }

    /**
     * `pop_first`: removes one occurrence of the least element and returns it,
     * which drops the head of `iter`; `None` and no change when empty.
     */
    method PopFirst() returns (r: Option<int>)
      requires Valid()
      modifies this
      ensures Valid()
      ensures r == old(First())
      ensures r.Some? ==> r.value in old(mp) && mp == Decrement(old(mp), r.value) && count == old(count) - 1
      ensures r.None? ==> mp == old(mp) && count == old(count)
      ensures r.Some? ==> Iter() == old(Iter())[1..] && Len() == old(Len()) - 1
    {
      var first := First();
      if first.None? {
        return None;
      }
      ghost var before := mp;
      assert Iter() == Flatten(before);
      assert first.value == Min(before.Keys);
      DecrementMin(before);
      r := RemoveOne(first.value);
      assert mp == Decrement(before, Min(before.Keys));
      assert Iter() == Flatten(mp);
    }

    /**
     * `pop_last`: removes one occurrence of the greatest element and returns it,
     * which drops the last element of `iter`; `None` and no change when empty.
     */
    method PopLast() returns (r: Option<int>)
      requires Valid()
      modifies this
      ensures Valid()
      ensures r == old(Last())
      ensures r.Some? ==> r.value in old(mp) && mp == Decrement(old(mp), r.value) && count == old(count) - 1
      ensures r.None? ==> mp == old(mp) && count == old(count)
      ensures r.Some? ==> Iter() == old(Iter())[..|old(Iter())| - 1] && Len() == old(Len()) - 1
    {
      var last := Last();
      if last.None? {
        return None;
      }
      ghost var before := mp;
      assert Iter() == Flatten(before);
      assert last.value == Max(before.Keys);
      DecrementMax(before);
      r := RemoveOne(last.value);
      assert mp == Decrement(before, Max(before.Keys));
      assert Iter() == Flatten(mp);
    }
  }
}
