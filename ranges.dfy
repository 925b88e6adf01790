/**
 * Range queries over the count map: the bounds of `RangeBounds`, the entries an
 * ordered map yields for a range (ascending, or from the back for `.rev()`),
 * and the flat views built from them.
 */
module Ranges {
  import opened OrderedKeys
  import opened Occurrences

  /** One end of a key range, as Rust's `std::ops::Bound`. */
  datatype Bound = Included(key: int) | Excluded(key: int) | Unbounded

  predicate AboveStart(lo: Bound, k: int) {
    match lo
    case Included(a) => a <= k
    case Excluded(a) => a < k
    case Unbounded => true
  }

  predicate BelowEnd(hi: Bound, k: int) {
    match hi
    case Included(b) => k <= b
    case Excluded(b) => k < b
    case Unbounded => true
  }

  predicate InRange(lo: Bound, hi: Bound, k: int) {
    AboveStart(lo, k) && BelowEnd(hi, k)
  }

  /**
   * The bound pairs an ordered-map range query accepts: it panics when the
   * start lies after the end, or when both ends are the same excluded key.
   */
  predicate Admissible(lo: Bound, hi: Bound) {
    lo.Unbounded? || hi.Unbounded? || lo.key < hi.key
    || (lo.key == hi.key && !(lo.Excluded? && hi.Excluded?))
  }

  /** The elements of `s` that lie within the bounds, in their original order. */
  function Restrict(s: seq<int>, lo: Bound, hi: Bound): (r: seq<int>)
    ensures forall x :: x in r ==> x in s
  {
    if s == [] then []
    else (if InRange(lo, hi, s[0]) then [s[0]] else []) + Restrict(s[1..], lo, hi)
  }

  /** An element survives the restriction exactly when it was there and lies within the bounds. */
  lemma {:induction false} RestrictMembers(s: seq<int>, lo: Bound, hi: Bound)
    ensures forall x :: x in Restrict(s, lo, hi) <==> x in s && InRange(lo, hi, x)
  {
    if s != [] {
      RestrictMembers(s[1..], lo, hi);
      assert s == [s[0]] + s[1..];
    }
  }

  /** Restricting a strictly increasing sequence keeps it strictly increasing. */
  lemma {:induction false} RestrictIncreasing(s: seq<int>, lo: Bound, hi: Bound)
    requires StrictlyIncreasing(s)
    ensures StrictlyIncreasing(Restrict(s, lo, hi))
  {
    if s != [] {
      var tail := s[1..];
      assert StrictlyIncreasing(tail);
      RestrictIncreasing(tail, lo, hi);
      RestrictMembers(tail, lo, hi);
      var rest := Restrict(tail, lo, hi);
      if InRange(lo, hi, s[0]) {
        var r := [s[0]] + rest;
        forall i, j | 0 <= i < j < |r| ensures r[i] < r[j] {
          if i == 0 {
            assert r[j] in tail;
            var t :| 0 <= t < |tail| && tail[t] == r[j];
            assert s[0] < s[t + 1];
          } else {
            assert r[i] == rest[i - 1] && r[j] == rest[j - 1];
          }
        }
      }
    }
  }

  /** The keys of `m` within the bounds, ascending: the entries `BTreeMap::range` visits. */
  function KeysInRange(m: map<int, nat>, lo: Bound, hi: Bound): (ks: seq<int>)
    ensures StrictlyIncreasing(ks)
    ensures forall k :: k in ks <==> k in m && InRange(lo, hi, k)
  {
    RestrictIncreasing(SortedKeys(m.Keys), lo, hi);
    RestrictMembers(SortedKeys(m.Keys), lo, hi);
    Restrict(SortedKeys(m.Keys), lo, hi)
  }

  /** What `range` yields: each in-range key, ascending, repeated by its count. */
  function RangeSeq(m: map<int, nat>, lo: Bound, hi: Bound): seq<int> {
    FlattenKeys(m, KeysInRange(m, lo, hi))
  }

  /** The keys `ks` walked from the back, each repeated by its count. */
  function FlattenKeysBack(m: map<int, nat>, ks: seq<int>): seq<int>
    requires forall k :: k in ks ==> k in m
  {
    if ks == [] then []
    else
      var last := ks[|ks| - 1];
      Repeat(last, m[last]) + FlattenKeysBack(m, ks[..|ks| - 1])
  }

  /** What `range(..).rev()` yields: the in-range entries taken from the largest key down. */
  function RangeBackSeq(m: map<int, nat>, lo: Bound, hi: Bound): seq<int> {
    FlattenKeysBack(m, KeysInRange(m, lo, hi))
  }

  function Reverse(s: seq<int>): (r: seq<int>)
    ensures |r| == |s|
  {
    if s == [] then [] else Reverse(s[1..]) + [s[0]]
  }

  lemma {:induction false} RestrictConcat(a: seq<int>, b: seq<int>, lo: Bound, hi: Bound)
    ensures Restrict(a + b, lo, hi) == Restrict(a, lo, hi) + Restrict(b, lo, hi)
  {
    if a != [] {
      assert (a + b)[1..] == a[1..] + b;
      RestrictConcat(a[1..], b, lo, hi);
    } else {
      assert a + b == b;
    }
  }

  lemma {:induction false} RestrictRepeat(x: int, n: nat, lo: Bound, hi: Bound)
    ensures Restrict(Repeat(x, n), lo, hi) == if InRange(lo, hi, x) then Repeat(x, n) else []
  {
    if n > 0 {
      assert Repeat(x, n)[1..] == Repeat(x, n - 1);
      RestrictRepeat(x, n - 1, lo, hi);
    }
  }

  /** When every element lies within the bounds, nothing is filtered out. */
  lemma {:induction false} RestrictAllInRange(s: seq<int>, lo: Bound, hi: Bound)
    requires forall i :: 0 <= i < |s| ==> InRange(lo, hi, s[i])
    ensures Restrict(s, lo, hi) == s
  {
    if s != [] {
      RestrictAllInRange(s[1..], lo, hi);
      assert s == [s[0]] + s[1..];
    }
  }

  /** With no bound on either side nothing is filtered out. */
  lemma {:induction false} RestrictUnbounded(s: seq<int>)
    ensures Restrict(s, Unbounded, Unbounded) == s
  {
    if s != [] {
      RestrictUnbounded(s[1..]);
      assert s == [s[0]] + s[1..];
    }
  }

  /** Filtering the keys before flattening equals filtering the flat view. */
  lemma {:induction false} FlattenKeysRestrict(m: map<int, nat>, ks: seq<int>, lo: Bound, hi: Bound)
    requires forall k :: k in ks ==> k in m
    ensures FlattenKeys(m, Restrict(ks, lo, hi)) == Restrict(FlattenKeys(m, ks), lo, hi)
  {
    if ks != [] {
      var x, tail := ks[0], ks[1..];
      var run := Repeat(x, m[x]);
      FlattenKeysRestrict(m, tail, lo, hi);
      RestrictConcat(run, FlattenKeys(m, tail), lo, hi);
      RestrictRepeat(x, m[x], lo, hi);
      var kept := Restrict(tail, lo, hi);
      if InRange(lo, hi, x) {
        assert Restrict(ks, lo, hi) == [x] + kept;
        assert ([x] + kept)[1..] == kept;
      } else {
        assert Restrict(ks, lo, hi) == kept;
      }
    }
  }

  /** `range(bounds)` yields exactly what `iter` yields, restricted to the keys within the bounds. */
  lemma RangeIsRestrictedIter(m: map<int, nat>, lo: Bound, hi: Bound)
    ensures RangeSeq(m, lo, hi) == Restrict(Flatten(m), lo, hi)
  {
    FlattenAsKeys(m);
    FlattenKeysRestrict(m, SortedKeys(m.Keys), lo, hi);
  }

  /** `range(..)` with both ends unbounded yields what `iter` yields. */
  lemma RangeUnboundedIsIter(m: map<int, nat>)
    ensures RangeSeq(m, Unbounded, Unbounded) == Flatten(m)
  {
    RangeIsRestrictedIter(m, Unbounded, Unbounded);
    RestrictUnbounded(Flatten(m));
  }

  lemma {:induction false} ReverseConcat(a: seq<int>, b: seq<int>)
    ensures Reverse(a + b) == Reverse(b) + Reverse(a)
  {
    if a == [] {
      assert a + b == b;
    } else {
      assert (a + b)[1..] == a[1..] + b;
      ReverseConcat(a[1..], b);
    }
  }

  lemma {:induction false} ReverseRepeat(x: int, n: nat)
    ensures Reverse(Repeat(x, n)) == Repeat(x, n)
  {
    if n > 0 {
      assert Repeat(x, n)[1..] == Repeat(x, n - 1);
      ReverseRepeat(x, n - 1);
      assert Repeat(x, n - 1) + [x] == Repeat(x, n);
    }
  }

  /** Walking the keys from the back yields the ascending flat view reversed. */
  lemma {:induction false} FlattenKeysBackIsReverse(m: map<int, nat>, ks: seq<int>)
    requires forall k :: k in ks ==> k in m
    ensures FlattenKeysBack(m, ks) == Reverse(FlattenKeys(m, ks))
    decreases |ks|
  {
    if ks != [] {
      var init, last := ks[..|ks| - 1], ks[|ks| - 1];
      assert ks == init + [last];
      FlattenKeysSnoc(m, init, last);
      ReverseConcat(FlattenKeys(m, init), Repeat(last, m[last]));
      ReverseRepeat(last, m[last]);
      FlattenKeysBackIsReverse(m, init);
    }
  }

  /** `range(bounds).rev()` yields the same elements as `range(bounds)`, in reverse order. */
  lemma RangeBackIsReverse(m: map<int, nat>, lo: Bound, hi: Bound)
    ensures RangeBackSeq(m, lo, hi) == Reverse(RangeSeq(m, lo, hi))
  {
    FlattenKeysBackIsReverse(m, KeysInRange(m, lo, hi));
  }
}
