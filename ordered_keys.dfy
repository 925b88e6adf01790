/**
 * The ordering side of the ordered-map substrate: the minimum and maximum of a
 * finite set of keys, and the keys of a set listed in ascending order (the order
 * in which an ordered map walks its entries).
 */
module OrderedKeys {

  predicate StrictlyIncreasing(q: seq<int>) {
    forall i, j :: 0 <= i < j < |q| ==> q[i] < q[j]
  }

  /** A set other than the empty set has an element. */
  lemma HasElement(s: set<int>)
    ensures s != {} ==> exists x :: x in s
  {
    if forall x :: x !in s {
      assert s == {};
    }
  }

  /** Every non-empty finite set of keys has a least element. */
  lemma {:induction false} MinExists(s: set<int>)
    requires s != {}
    ensures exists x :: x in s && forall y :: y in s ==> x <= y
    decreases |s|
  {
    HasElement(s);
    var x :| x in s;
    if s != {x} {
      MinExists(s - {x});
      var m :| m in s - {x} && forall y :: y in s - {x} ==> m <= y;
      if x < m {
        forall y | y in s ensures x <= y {
          if y != x { assert y in s - {x}; }
        }
      } else {
        forall y | y in s ensures m <= y {
          if y != x { assert y in s - {x}; }
        }
      }
    }
  }

  /** Every non-empty finite set of keys has a greatest element. */
  lemma {:induction false} MaxExists(s: set<int>)
    requires s != {}
    ensures exists x :: x in s && forall y :: y in s ==> y <= x
    decreases |s|
  {
    HasElement(s);
    var x :| x in s;
    if s != {x} {
      MaxExists(s - {x});
      var m :| m in s - {x} && forall y :: y in s - {x} ==> y <= m;
      if m < x {
        forall y | y in s ensures y <= x {
          if y != x { assert y in s - {x}; }
        }
      } else {
        forall y | y in s ensures y <= m {
          if y != x { assert y in s - {x}; }
        }
      }
    }
  }

  /** The smallest key of `s` (what `first_key_value` finds). */
  function Min(s: set<int>): (r: int)
    requires s != {}
    ensures r in s && forall y :: y in s ==> r <= y
  {
    MinExists(s);
    var x :| x in s && forall y :: y in s ==> x <= y; x
  }

  /** The largest key of `s` (what `last_key_value` finds). */
  function Max(s: set<int>): (r: int)
    requires s != {}
    ensures r in s && forall y :: y in s ==> y <= r
  {
    MaxExists(s);
    var x :| x in s && forall y :: y in s ==> y <= x; x
  }

  /** The keys of `s` in ascending order, each exactly once. */
  function SortedKeys(s: set<int>): (r: seq<int>)
    ensures StrictlyIncreasing(r)
    ensures forall k :: k in r <==> k in s
    ensures |r| == |s|
    decreases |s|
  {
    if s == {} then []
    else
      var x := Min(s);
      [x] + SortedKeys(s - {x})
  }

  /** A strictly increasing listing of a set is unique: it is `SortedKeys`. */
  lemma {:induction false} SortedKeysUnique(s: set<int>, q: seq<int>)
    requires StrictlyIncreasing(q)
    requires forall k :: k in q <==> k in s
    ensures q == SortedKeys(s)
    decreases |q|
  {
    if q == [] {
      assert forall k :: k !in s;
      assert s == {};
    } else {
      var x := q[0];
      ListingHead(s, q);
      ListingTail(s, q);
      SortedKeysUnique(s - {x}, q[1..]);
      assert q == [x] + q[1..];
    }
  }

  /** The first key of a strictly increasing listing of `s` is the least key of `s`. */
  lemma ListingHead(s: set<int>, q: seq<int>)
    requires StrictlyIncreasing(q) && q != []
    requires forall k :: k in q <==> k in s
    ensures s != {} && Min(s) == q[0]
  {
    assert q[0] in q;
    forall y | y in s ensures q[0] <= y {
      var i :| 0 <= i < |q| && q[i] == y;
      assert i == 0 || q[0] < q[i];
    }
  }

  /** The rest of a strictly increasing listing of `s` lists `s` without its first key. */
  lemma ListingTail(s: set<int>, q: seq<int>)
    requires StrictlyIncreasing(q) && q != []
    requires forall k :: k in q <==> k in s
    ensures StrictlyIncreasing(q[1..])
    ensures forall k :: k in q[1..] <==> k in s - {q[0]}
  {
    var tail := q[1..];
    forall k ensures k in tail <==> k in s - {q[0]} {
      if k in tail {
        var i :| 0 <= i < |tail| && tail[i] == k;
        assert q[0] < q[i + 1];
      }
      if k in s - {q[0]} {
        var i :| 0 <= i < |q| && q[i] == k;
        assert tail[i - 1] == k;
      }
    }
  }

  /** Walking the keys from the back starts at the maximum. */
  lemma SortedKeysSnoc(s: set<int>)
    requires s != {}
    ensures SortedKeys(s) == SortedKeys(s - {Max(s)}) + [Max(s)]
  {
    var x := Max(s);
    var init := SortedKeys(s - {x});
    var q := init + [x];
    assert StrictlyIncreasing(q) by {
      forall i, j | 0 <= i < j < |q| ensures q[i] < q[j] {
        if j < |init| {
          assert q[i] == init[i] && q[j] == init[j];
        } else {
          assert q[i] == init[i] && init[i] in s - {x};
        }
      }
    }
    assert forall k :: k in q <==> k in s;
    SortedKeysUnique(s, q);
  }
}
