/**
 * The count map of a multiset (`mp: BTreeMap<T, usize>`) and its meaning:
 * the total of the counts, and the flat view that iteration yields, where each
 * key is repeated as many times as its count, keys in ascending order.
 */
module Occurrences {
  import opened OrderedKeys

  /** Number of occurrences of `k` recorded in `m`; an absent key has none. */
  function Mult(m: map<int, nat>, k: int): nat {
    if k in m then m[k] else 0
  }

  /** No entry of `m` records zero occurrences. */
  predicate NoZeroCounts(m: map<int, nat>) {
    forall k :: k in m ==> m[k] >= 1
  }

  /** The sum of all counts stored in `m`, taken in ascending key order. */
  function Sum(m: map<int, nat>): nat
    decreases m.Keys
  {
    if m.Keys == {} then 0
    else
      var x := Min(m.Keys);
      m[x] + Sum(m - {x})
  }

  /** The sum does not depend on the order of the keys: any key can be taken out first. */
  lemma {:induction false} SumRemove(m: map<int, nat>, k: int)
    requires k in m
    ensures Sum(m) == m[k] + Sum(m - {k})
    decreases m.Keys
  {
    var x := Min(m.Keys);
    if k != x {
      var mx, mk := m - {x}, m - {k};
      assert k in mx;
      SumRemove(mx, k);
      assert x in mk.Keys;
      assert Min(mk.Keys) == x;
      assert mx - {k} == mk - {x};
    }
  }

  /** Replacing the count of `k` by `v` changes the sum by the difference. */
  lemma {:induction false} SumUpdate(m: map<int, nat>, k: int, v: nat)
    ensures Sum(m[k := v]) + Mult(m, k) == Sum(m) + v
  {
    SumRemove(m[k := v], k);
    assert m[k := v] - {k} == m - {k};
    if k in m {
      SumRemove(m, k);
    } else {
      assert m - {k} == m;
    }
  }

  /** When no count is zero, the sum is zero exactly for the empty map. */
  lemma {:induction false} SumZero(m: map<int, nat>)
    requires NoZeroCounts(m)
    ensures Sum(m) == 0 <==> m == map[]
  {
    if m.Keys != {} {
      var x := Min(m.Keys);
      assert m[x] >= 1;
      assert m != map[];
    } else {
      assert m == map[];
    }
  }

  /** `n` copies of `k`. */
  function Repeat(k: int, n: nat): (r: seq<int>)
    ensures |r| == n
    ensures forall i :: 0 <= i < n ==> r[i] == k
  {
    if n == 0 then [] else [k] + Repeat(k, n - 1)
  }

  lemma {:induction false} RepeatCount(k: int, n: nat)
    ensures forall j :: multiset(Repeat(k, n))[j] == if j == k then n else 0
  {
    if n > 0 {
      RepeatCount(k, n - 1);
      assert Repeat(k, n) == [k] + Repeat(k, n - 1);
    }
  }

  predicate NonDecreasing(s: seq<int>) {
    forall i, j :: 0 <= i <= j < |s| ==> s[i] <= s[j]
  }

  /** The keys `ks` in turn, each repeated as many times as `m` counts it. */
  function FlattenKeys(m: map<int, nat>, ks: seq<int>): seq<int>
    requires forall k :: k in ks ==> k in m
  {
    if ks == [] then [] else Repeat(ks[0], m[ks[0]]) + FlattenKeys(m, ks[1..])
  }

  /**
   * The flat, ascending view of `m`: what `iter` yields. The run of the
   * smallest key comes first, then the flat view of the remaining entries.
   */
  function Flatten(m: map<int, nat>): seq<int>
    decreases m.Keys
  {
    if m.Keys == {} then []
    else
      var x := Min(m.Keys);
      Repeat(x, m[x]) + Flatten(m - {x})
  }

  /** Only the keys listed appear in the flat view. */
  lemma {:induction false} FlattenKeysElements(m: map<int, nat>, ks: seq<int>)
    requires forall k :: k in ks ==> k in m
    ensures forall x :: x in FlattenKeys(m, ks) ==> x in ks
  {
    if ks != [] {
      FlattenKeysElements(m, ks[1..]);
      var r := Repeat(ks[0], m[ks[0]]);
      forall x | x in FlattenKeys(m, ks) ensures x in ks {
        if x !in r {
          assert x in FlattenKeys(m, ks[1..]);
        }
      }
    }
  }

  /** Each listed key occurs exactly as often as `m` counts it. */
  lemma {:induction false} FlattenKeysCount(m: map<int, nat>, ks: seq<int>)
    requires forall k :: k in ks ==> k in m
    requires StrictlyIncreasing(ks)
    ensures forall j :: multiset(FlattenKeys(m, ks))[j] == if j in ks then m[j] else 0
  {
    if ks != [] {
      var x, tail := ks[0], ks[1..];
      assert StrictlyIncreasing(tail);
      FlattenKeysCount(m, tail);
      RepeatCount(x, m[x]);
      assert multiset(FlattenKeys(m, ks)) == multiset(Repeat(x, m[x])) + multiset(FlattenKeys(m, tail));
      forall j ensures j in ks <==> j == x || j in tail {
        assert ks == [x] + tail;
      }
      forall i | 0 <= i < |tail| ensures tail[i] != x {
        assert ks[0] < ks[i + 1];
      }
    }
  }

  /** Strictly increasing keys give a non-decreasing flat view. */
  lemma {:induction false} FlattenKeysSorted(m: map<int, nat>, ks: seq<int>)
    requires forall k :: k in ks ==> k in m
    requires StrictlyIncreasing(ks)
    ensures NonDecreasing(FlattenKeys(m, ks))
  {
    if ks != [] {
      var x, tail := ks[0], ks[1..];
      assert StrictlyIncreasing(tail);
      FlattenKeysSorted(m, tail);
      FlattenKeysElements(m, tail);
      var r, rest := Repeat(x, m[x]), FlattenKeys(m, tail);
      var s := r + rest;
      forall i, j | 0 <= i <= j < |s| ensures s[i] <= s[j] {
        if j < |r| {
          assert s[i] == x && s[j] == x;
        } else if i < |r| {
          assert s[j] == rest[j - |r|];
          assert rest[j - |r|] in tail;
          var t :| 0 <= t < |tail| && tail[t] == rest[j - |r|];
          assert ks[0] < ks[t + 1];
        } else {
          assert s[i] == rest[i - |r|] && s[j] == rest[j - |r|];
        }
      }
    }
  }

  /** The flat view depends only on the counts of the listed keys. */
  lemma {:induction false} FlattenKeysAgree(m1: map<int, nat>, m2: map<int, nat>, ks: seq<int>)
    requires forall k :: k in ks ==> k in m1 && k in m2 && m1[k] == m2[k]
    ensures FlattenKeys(m1, ks) == FlattenKeys(m2, ks)
  {
    if ks != [] {
      FlattenKeysAgree(m1, m2, ks[1..]);
    }
  }

  /** Appending a key appends its run. */
  lemma {:induction false} FlattenKeysSnoc(m: map<int, nat>, ks: seq<int>, x: int)
    requires forall k :: k in ks ==> k in m
    requires x in m
    ensures FlattenKeys(m, ks + [x]) == FlattenKeys(m, ks) + Repeat(x, m[x])
  {
    if ks == [] {
      assert ks + [x] == [x];
    } else {
      assert (ks + [x])[1..] == ks[1..] + [x];
      FlattenKeysSnoc(m, ks[1..], x);
    }
  }

  /** The flat view walks the keys in ascending order. */
  lemma {:induction false} FlattenAsKeys(m: map<int, nat>)
    ensures Flatten(m) == FlattenKeys(m, SortedKeys(m.Keys))
    decreases m.Keys
  {
    if m.Keys != {} {
      var x := Min(m.Keys);
      var rest := m - {x};
      assert rest.Keys == m.Keys - {x};
      var ks := SortedKeys(m.Keys);
      assert ks[1..] == SortedKeys(rest.Keys);
      FlattenKeysAgree(m, rest, ks[1..]);
      FlattenAsKeys(rest);
    }
  }

  /** The flat view ends with the run of the largest key. */
  lemma {:induction false} FlattenUnfoldLast(m: map<int, nat>)
    requires m.Keys != {}
    ensures Flatten(m) == Flatten(m - {Max(m.Keys)}) + Repeat(Max(m.Keys), m[Max(m.Keys)])
  {
    var x := Max(m.Keys);
    var rest := m - {x};
    assert rest.Keys == m.Keys - {x};
    FlattenAsKeys(m);
    FlattenAsKeys(rest);
    SortedKeysSnoc(m.Keys);
    FlattenKeysSnoc(m, SortedKeys(m.Keys - {x}), x);
    FlattenKeysAgree(m, rest, SortedKeys(m.Keys - {x}));
  }

  /** The length of the flat view is the sum of the counts: `iter().count() == len()`. */
  lemma {:induction false} FlattenLength(m: map<int, nat>)
    ensures |Flatten(m)| == Sum(m)
    decreases m.Keys
  {
    if m.Keys != {} {
      FlattenLength(m - {Min(m.Keys)});
    }
  }

  /** Every key occurs in the flat view exactly as often as `m` counts it. */
  lemma {:induction false} FlattenCount(m: map<int, nat>)
    ensures forall k :: multiset(Flatten(m))[k] == Mult(m, k)
  {
    FlattenAsKeys(m);
    FlattenKeysCount(m, SortedKeys(m.Keys));
  }

  /** The flat view is in ascending order. */
  lemma {:induction false} FlattenSorted(m: map<int, nat>)
    ensures NonDecreasing(Flatten(m))
  {
    FlattenAsKeys(m);
    FlattenKeysSorted(m, SortedKeys(m.Keys));
  }

  /** A key is in the flat view exactly when it is stored. */
  lemma {:induction false} FlattenMembership(m: map<int, nat>, k: int)
    requires NoZeroCounts(m)
    ensures k in Flatten(m) <==> k in m
  {
    FlattenCount(m);
    assert k in Flatten(m) <==> k in multiset(Flatten(m));
  }

  /** Two ascending sequences with the same elements are equal. */
  lemma {:induction false} SortedUnique(a: seq<int>, b: seq<int>)
    requires NonDecreasing(a) && NonDecreasing(b)
    requires multiset(a) == multiset(b)
    ensures a == b
    decreases |a|
  {
    assert |a| == |multiset(a)| == |multiset(b)| == |b|;
    if a != [] {
      SameHead(a, b);
      DropHead(a);
      DropHead(b);
      SortedUnique(a[1..], b[1..]);
      assert a == [a[0]] + a[1..] && b == [b[0]] + b[1..];
    }
  }

  /** Two non-empty ascending sequences with the same elements start alike. */
  lemma {:induction false} SameHead(a: seq<int>, b: seq<int>)
    requires NonDecreasing(a) && NonDecreasing(b)
    requires multiset(a) == multiset(b)
    requires a != [] && |a| == |b|
    ensures a[0] == b[0]
  {
    var x, y := a[0], b[0];
    assert x in multiset(a) && y in multiset(b);
    HeadIsLeast(a, y);
    HeadIsLeast(b, x);
  }

  /** The tail of a sequence holds its elements less one copy of the head. */
  lemma {:induction false} DropHead(a: seq<int>)
    requires a != []
    ensures multiset(a[1..]) == multiset(a) - multiset{a[0]}
    ensures NonDecreasing(a) ==> NonDecreasing(a[1..])
  {
    assert a == [a[0]] + a[1..];
  }

  lemma {:induction false} HeadIsLeast(s: seq<int>, y: int)
    requires NonDecreasing(s)
    requires y in multiset(s)
    ensures |s| > 0 && s[0] <= y
  {
    assert y in s;
    var i :| 0 <= i < |s| && s[i] == y;
  }

  /**
   * The flat view is THE ascending arrangement of the multiset: any ascending
   * sequence holding each key as many times as `m` counts it is `Flatten(m)`.
   */
  lemma {:induction false} FlattenUnique(m: map<int, nat>, s: seq<int>)
    requires NonDecreasing(s)
    requires forall k :: multiset(s)[k] == Mult(m, k)
    ensures s == Flatten(m)
  {
    FlattenCount(m);
    FlattenSorted(m);
    assert multiset(s) == multiset(Flatten(m));
    SortedUnique(s, Flatten(m));
  }

  /** The count map after one more occurrence of `k` (`*entry(k).or_insert(0) += 1`). */
  function Increment(m: map<int, nat>, k: int): (r: map<int, nat>)
    ensures r.Keys == m.Keys + {k}
    ensures forall j :: Mult(r, j) == Mult(m, j) + (if j == k then 1 else 0)
  {
    m[k := Mult(m, k) + 1]
  }

  /** The count map after one occurrence of `k` is removed; the entry goes when its count reaches 0. */
  function Decrement(m: map<int, nat>, k: int): (r: map<int, nat>)
    requires k in m && m[k] >= 1
    ensures r.Keys == if m[k] <= 1 then m.Keys - {k} else m.Keys
    ensures forall j :: Mult(r, j) == if j == k then m[k] - 1 else Mult(m, j)
  {
    if m[k] <= 1 then m - {k} else m[k := m[k] - 1]
  }

  /** One more occurrence keeps the counts positive and raises the total by one. */
  lemma {:induction false} IncrementSum(m: map<int, nat>, k: int)
    requires NoZeroCounts(m)
    ensures NoZeroCounts(Increment(m, k))
    ensures Sum(Increment(m, k)) == Sum(m) + 1
  {
    SumUpdate(m, k, Mult(m, k) + 1);
  }

  /** One occurrence fewer of a present key keeps the counts positive and lowers the total by one. */
  lemma {:induction false} DecrementSum(m: map<int, nat>, k: int)
    requires NoZeroCounts(m) && k in m
    ensures NoZeroCounts(Decrement(m, k))
    ensures Sum(Decrement(m, k)) == Sum(m) - 1
  {
    SumRemove(m, k);
    if m[k] > 1 {
      SumUpdate(m, k, m[k] - 1);
    }
  }

  /** Inserting `k` adds exactly one `k` to the flat view. */
  lemma {:induction false} IncrementFlatten(m: map<int, nat>, k: int)
    ensures multiset(Flatten(Increment(m, k))) == multiset(Flatten(m)) + multiset{k}
  {
    forall j
      ensures multiset(Flatten(Increment(m, k)))[j] == multiset(Flatten(m))[j] + (if j == k then 1 else 0)
    {
      IncrementCountAt(m, k, j);
    }
    AddedOnce(multiset(Flatten(m)), multiset(Flatten(Increment(m, k))), k);
  }

  lemma {:induction false} IncrementCountAt(m: map<int, nat>, k: int, j: int)
    ensures multiset(Flatten(Increment(m, k)))[j] == multiset(Flatten(m))[j] + (if j == k then 1 else 0)
  {
    FlattenCount(m);
    FlattenCount(Increment(m, k));
  }

  lemma AddedOnce(before: multiset<int>, after: multiset<int>, k: int)
    requires forall j :: after[j] == before[j] + (if j == k then 1 else 0)
    ensures after == before + multiset{k}
  {
    var expected := before + multiset{k};
    assert forall j :: after[j] == expected[j];
  }

  /** Removing one occurrence of a present `k` takes exactly one `k` out of the flat view. */
  lemma {:induction false} DecrementFlatten(m: map<int, nat>, k: int)
    requires k in m && m[k] >= 1
    ensures multiset(Flatten(Decrement(m, k))) == multiset(Flatten(m)) - multiset{k}
  {
    forall j
      ensures multiset(Flatten(Decrement(m, k)))[j] + (if j == k then 1 else 0) == multiset(Flatten(m))[j]
    {
      DecrementCountAt(m, k, j);
    }
    RemovedOnce(multiset(Flatten(m)), multiset(Flatten(Decrement(m, k))), k);
  }

  lemma {:induction false} DecrementCountAt(m: map<int, nat>, k: int, j: int)
    requires k in m && m[k] >= 1
    ensures multiset(Flatten(Decrement(m, k)))[j] + (if j == k then 1 else 0) == multiset(Flatten(m))[j]
  {
    FlattenCount(m);
    FlattenCount(Decrement(m, k));
  }

  lemma RemovedOnce(before: multiset<int>, after: multiset<int>, k: int)
    requires forall j :: after[j] + (if j == k then 1 else 0) == before[j]
    ensures after == before - multiset{k}
  {
    var expected := before - multiset{k};
    assert forall j :: after[j] == expected[j];
  }

  /** Dropping the entry of `k` takes every `k` out of the flat view and nothing else. */
  lemma {:induction false} RemoveKeyFlatten(m: map<int, nat>, k: int)
    ensures multiset(Flatten(m - {k})) == multiset(Flatten(m))[k := 0]
  {
    var before, after := multiset(Flatten(m)), multiset(Flatten(m - {k}));
    FlattenCount(m);
    FlattenCount(m - {k});
    forall j ensures after[j] == before[k := 0][j] {
      assert after[j] == Mult(m - {k}, j);
    }
  }

  /** Insert followed by remove-one of the same key gives back the same count map. */
  lemma {:induction false} DecrementIncrement(m: map<int, nat>, k: int)
    requires NoZeroCounts(m)
    ensures Decrement(Increment(m, k), k) == m
  {
  }

  /** Removing one occurrence of the smallest key drops the head of the flat view. */
  lemma {:induction false} DecrementMin(m: map<int, nat>)
    requires NoZeroCounts(m) && m.Keys != {}
    ensures |Flatten(m)| > 0
    ensures Flatten(Decrement(m, Min(m.Keys))) == Flatten(m)[1..]
  {
    var x := Min(m.Keys);
    var c := m[x];
    RunFront(x, c, Flatten(m - {x}));
    if c > 1 {
      var d := m[x := c - 1];
      assert d.Keys == m.Keys;
      assert d - {x} == m - {x};
    }
  }

  /** Removing one occurrence of the largest key drops the last element of the flat view. */
  lemma {:induction false} DecrementMax(m: map<int, nat>)
    requires NoZeroCounts(m) && m.Keys != {}
    ensures |Flatten(m)| > 0
    ensures Flatten(Decrement(m, Max(m.Keys))) == Flatten(m)[..|Flatten(m)| - 1]
  {
    var x := Max(m.Keys);
    var c := m[x];
    FlattenUnfoldLast(m);
    RunBack(x, c, Flatten(m - {x}));
    if c > 1 {
      var d := m[x := c - 1];
      assert d.Keys == m.Keys;
      FlattenUnfoldLast(d);
      assert d - {x} == m - {x};
    }
  }

  lemma RunFront(x: int, c: nat, t: seq<int>)
    requires c >= 1
    ensures (Repeat(x, c) + t)[1..] == Repeat(x, c - 1) + t
  {
    assert Repeat(x, c) == [x] + Repeat(x, c - 1);
  }

  lemma RunBack(x: int, c: nat, t: seq<int>)
    requires c >= 1
    ensures (t + Repeat(x, c))[..|t| + c - 1] == t + Repeat(x, c - 1)
  {
    assert Repeat(x, c)[..c - 1] == Repeat(x, c - 1);
  }

  /** With no zero counts, the flat view starts at the smallest key and ends at the largest. */
  lemma {:induction false} FlattenEnds(m: map<int, nat>)
    requires NoZeroCounts(m) && m.Keys != {}
    ensures |Flatten(m)| > 0
    ensures Flatten(m)[0] == Min(m.Keys)
    ensures Flatten(m)[|Flatten(m)| - 1] == Max(m.Keys)
  {
    FlattenUnfoldLast(m);
  }
}
