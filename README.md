# TreeMultiSet in Dafny

A model of `TreeMultiSet<T>`, an ordered multiset ("sorted bag") built on an
ordered map. The structure has two fields:

- `mp` maps each distinct element to its number of occurrences.
- `count` is the running total of all occurrences.

Every mutating method keeps the two fields in step. Reads over the multiset
(`iter`, `range`) flatten the map in ascending key order, repeating each key as
many times as its count.

The project has five modules:

- `OrderedKeys` (ordered_keys.dfy) is the ordering side of the ordered map.
  It defines the least and greatest key of a finite key set, and the keys of a
  set listed in ascending order. That listing is proved to be the only strictly
  increasing one.
- `Occurrences` (occurrences.dfy) covers the count map and what it means:
  - the total of its counts (`Sum`);
  - the flat ascending view that `iter` yields (`Flatten`);
  - the count-map updates performed by `insert` and `remove_one`
    (`Increment`, `Decrement`);
  - the effect of each update on the total and on the flat view.
- `Ranges` (ranges.dfy) defines the bounds of Rust's `RangeBounds` as the
  `Bound` datatype. It models the flat view of a range query, walked forwards
  and with `.rev()`.
- `TreeMultiSets` (tree_multi_set.dfy) holds the class `TreeMultiSet`, with the
  source's fields `mp: map<int, nat>` and `count: nat`. Its invariant `Valid()`
  says that:
  - every stored count is at least 1;
  - `count` is the sum of the stored counts.

  The mutating operations are methods with `modifies this`. The queries are
  functions that read the object.
- `Scenarios` (scenarios.dfy) restates expected outputs from the crate's
  documentation example and unit tests, derived from the contracts.

Elements are `int`s, which stand for any `T: Ord + Clone`. `Some(k)` returned by
a removal is a value copy.

## Model

| member | source | states |
|---|---|---|
| TreeMultiSets.TreeMultiSet.constructor | src/lib.rs:45-50 | `new` gives an empty map with total 0, and the invariant holds |
| TreeMultiSets.TreeMultiSet.Clear | src/lib.rs:53-56 | from any state, the result is the empty multiset: the invariant holds, the map is empty, the total is 0 and `iter` yields nothing |
| TreeMultiSets.TreeMultiSet.IsEmpty | src/lib.rs:59-61 | testing the total for zero is the same as `len() == 0`, as the map having no keys, and as `iter` yielding nothing |
| TreeMultiSets.TreeMultiSet.Len | src/lib.rs:64-66 | the running total equals the number of elements `iter` yields |
| TreeMultiSets.TreeMultiSet.Count | src/lib.rs:71-73 | the looked-up count, or 0 for an absent key, is the number of times `k` occurs in `iter`; it is 0 exactly when `contains(k)` is false |
| TreeMultiSets.TreeMultiSet.Contains | src/lib.rs:78-80 | a key is in the map exactly when it occurs in `iter` |
| TreeMultiSets.TreeMultiSet.First | src/lib.rs:85-87 | `None` exactly when `len() == 0`; otherwise a contained element no greater than any other contained element, and the first element `iter` yields |
| TreeMultiSets.TreeMultiSet.Last | src/lib.rs:92-94 | `None` exactly when `len() == 0`; otherwise a contained element no smaller than any other contained element, and the last element `iter` yields |
| TreeMultiSets.TreeMultiSet.PopFirst | src/lib.rs:99-102 | returns what `first()` returned; on an empty multiset nothing changes; otherwise the invariant holds, the map is the old map less one occurrence of the returned least key, the total drops by 1, `iter` loses its head and `len()` drops by 1 |
| TreeMultiSets.TreeMultiSet.PopLast | src/lib.rs:107-110 | returns what `last()` returned; on an empty multiset nothing changes; otherwise the invariant holds, the map is the old map less one occurrence of the returned greatest key, the total drops by 1, `iter` loses its last element and `len()` drops by 1 |
| TreeMultiSets.TreeMultiSet.Insert | src/lib.rs:115-118 | the invariant is preserved; the map gains one occurrence of `k` and the total rises by 1; `len()` and `count(k)` rise by 1; no other key's count changes; `iter` holds one more `k` |
| TreeMultiSets.TreeMultiSet.RemoveOne | src/lib.rs:123-132 | the invariant is preserved; returns `Some(k)` exactly when `k` was contained; an absent key changes nothing; otherwise one occurrence goes, and the entry goes with it when that was the last one; the total and `len()` drop by 1 and `count(k)` by 1; other keys are unchanged; `iter` holds one `k` fewer |
| TreeMultiSets.TreeMultiSet.RemoveAll | src/lib.rs:137-145 | the invariant is preserved; returns `Some(k)` exactly when `k` was contained; an absent key changes nothing; the entry of `k` goes and the total and `len()` drop by the old `count(k)`; afterwards `contains(k)` is false; other keys are unchanged; `iter` loses every `k` and nothing else |
| TreeMultiSets.TreeMultiSet.Iter | src/lib.rs:148-150 | `iter` yields a non-decreasing sequence in which every key occurs exactly as often as the map counts it |
| TreeMultiSets.TreeMultiSet.Range | src/lib.rs:153-156 | `range(bounds)` yields exactly what `iter` yields, restricted to the elements within the bounds and kept in order |
| TreeMultiSets.TreeMultiSet.RangeRev | src/lib.rs:153-156 | `range(bounds).rev()` yields the elements of `range(bounds)` in reverse order |
| Occurrences.SumRemove | src/lib.rs:39-40 | the total of the counts can be computed by taking any key out first |
| Occurrences.SumUpdate | src/lib.rs:117 | replacing the count of one key changes the total by exactly the difference |
| Occurrences.SumZero | src/lib.rs:59-61 | when no stored count is zero, the total is zero exactly for the empty map, so `is_empty` may test the total alone |
| Occurrences.IncrementSum | src/lib.rs:115-118 | one more occurrence of a key keeps every count positive and raises the total by 1 |
| Occurrences.DecrementSum | src/lib.rs:123-132 | one occurrence fewer of a present key keeps every count positive, because the entry goes at 0, and lowers the total by 1 |
| Occurrences.Increment | src/lib.rs:117 | `entry(k).or_insert(0) += 1` adds `k` to the keys and raises its count by 1, leaving every other count alone |
| Occurrences.Decrement | src/lib.rs:124-129 | decrementing a present key lowers its count by 1, drops its entry exactly when the count reaches 0, and leaves every other count alone |
| Occurrences.FlattenLength | src/lib.rs:148-150 | the flat view has as many elements as the total of the counts |
| Occurrences.FlattenCount | src/lib.rs:148-150 | every key occurs in the flat view exactly as often as the map counts it |
| Occurrences.FlattenSorted | src/lib.rs:148-150 | the flat view is in non-decreasing order |
| Occurrences.FlattenMembership | src/lib.rs:78-80 | when no count is zero, a key is in the flat view exactly when it is a key of the map |
| Occurrences.FlattenUnique | src/lib.rs:148-150 | any non-decreasing sequence with the same per-key counts equals the flat view, so the flat view is the one sorted arrangement of the multiset |
| Occurrences.SortedUnique | src/lib.rs:148-150 | two non-decreasing sequences holding the same multiset of elements are equal |
| Occurrences.FlattenAsKeys | src/lib.rs:148-150 | the flat view walks the keys in ascending order, each repeated by its count, as `flat_map` over the ordered entries does |
| Occurrences.FlattenEnds | src/lib.rs:85-94 | when no count is zero, the flat view starts at the least key and ends at the greatest |
| Occurrences.IncrementFlatten | src/lib.rs:115-118 | inserting `k` adds exactly one `k` to the flat view |
| Occurrences.DecrementFlatten | src/lib.rs:123-132 | removing one occurrence of a present `k` takes exactly one `k` out of the flat view |
| Occurrences.RemoveKeyFlatten | src/lib.rs:137-145 | dropping the entry of `k` takes every `k` out of the flat view and nothing else |
| Occurrences.DecrementIncrement | src/lib.rs:115-132 | `insert(k)` followed by `remove_one(k)` restores the count map |
| Occurrences.DecrementMin | src/lib.rs:99-102 | removing one occurrence of the least key drops exactly the head of the flat view |
| Occurrences.DecrementMax | src/lib.rs:107-110 | removing one occurrence of the greatest key drops exactly the last element of the flat view |
| OrderedKeys.Min | src/lib.rs:86 | the least key of a non-empty key set is in the set and no greater than any key of it |
| OrderedKeys.Max | src/lib.rs:93 | the greatest key of a non-empty key set is in the set and no smaller than any key of it |
| OrderedKeys.SortedKeys | src/lib.rs:149 | the ordered map's walk over its keys is strictly increasing and lists every key of the set exactly once |
| OrderedKeys.SortedKeysUnique | src/lib.rs:149 | a strictly increasing listing of a key set is unique |
| Ranges.KeysInRange | src/lib.rs:155 | `BTreeMap::range` visits exactly the stored keys that lie within the bounds, in strictly ascending order, each once |
| Ranges.RestrictIncreasing | src/lib.rs:155 | restricting a strictly increasing key listing to the bounds keeps it strictly increasing |
| Ranges.RestrictMembers | src/lib.rs:153-156 | an element survives restriction to the bounds exactly when it was present and lies within them |
| Ranges.FlattenKeysRestrict | src/lib.rs:155 | restricting the keys before flattening gives the same sequence as restricting the flattened sequence |
| Ranges.RangeIsRestrictedIter | src/lib.rs:153-156 | `range(bounds)` is `iter` restricted to the bounds |
| Ranges.RangeUnboundedIsIter | src/lib.rs:153-156 | `range(..)` yields exactly what `iter` yields |
| Ranges.FlattenKeysBackIsReverse | src/lib.rs:155 | walking the keys from the back, each repeated by its count, reverses the forward flat view |
| Ranges.RangeBackIsReverse | src/lib.rs:153-156 | `range(bounds).rev()` is `range(bounds)` reversed |
| Scenarios.RangeTestIter | src/lib.rs:280-284 | on the counts the range test's insertion loop leaves (each of 1 to 4 counted as often as its value, stated as a map), the flat view is 1, 2, 2, 3, 3, 3, 4, 4, 4, 4 |
| Scenarios.RangeTestRange | src/lib.rs:286-292 | on those counts, every range query yields that flat view restricted to its bounds |
| Scenarios.RangeTestForward | src/lib.rs:286-291 | on those counts, `range(1..=4)`, `range(1..3)`, `range(..3)`, `range(..=3)` and `range(2..)` yield exactly the sequences the test expects |
| Scenarios.RangeTestBackward | src/lib.rs:290-292 | on those counts, `range(..=3).rev()` yields 3, 3, 3, 2, 2, 1 and `range(2..=4).rev()` yields 4, 4, 4, 4, 3, 3, 3, 2, 2 |
| Scenarios.IterTest | src/lib.rs:252-262 | on the counts left by inserting 1, 2, 3, 3, 4, 5, 5 (stated as a map), the flat view is 1, 2, 3, 3, 4, 5, 5 |
| Ranges.RestrictAllInRange | src/lib.rs:153-156 | when every element lies within the bounds, restricting to them keeps the whole sequence |

## Left out

- Generic elements: `T: Ord + Clone` is modelled by `int` with its total order. Returning `Some(k)` or a reference is a value copy.
- `usize` overflow of `count`: the total is a `nat`, so the model has no overflow, no wrap-around and no panic on pathological insert volumes.
- The balanced-tree internals of `BTreeMap`, and the complexity claims: the ordered map is a Dafny `map` plus a sorted listing of its keys.
- Lazy iteration, borrowing lifetimes and `impl Iterator`: `iter`, `range` and `range(..).rev()` are modelled as the whole sequence each would yield.
- TreeMultiSets.TreeMultiSet.Range: a bound pair that makes `BTreeMap::range` panic (the start after the end, or both ends the same excluded key) is excluded by the precondition `Admissible` instead of being modelled as a panic.
- TreeMultiSets.TreeMultiSet.RangeRev: the same precondition as `Range`.
- TreeMultiSets.TreeMultiSet.Insert: "no other key's count changes" is stated on the map's counts (`Mult`), not through `Count`. `Count(j)` is `Mult(mp, j)`, and the multiset ensures also implies it.
- TreeMultiSets.TreeMultiSet.RemoveOne: the same as `Insert` for "other keys are unchanged".
- TreeMultiSets.TreeMultiSet.RemoveAll: the same as `Insert` for "other keys are unchanged".
- Reverse traversal of `iter`: `iter` (src/lib.rs:148) returns a plain `impl Iterator`, and only `range` (src/lib.rs:153) is double-ended. Reverse traversal is modelled through `RangeRev`, and `range(..)` is proved equal to `iter` (`Ranges.RangeUnboundedIsIter`).
- The crate-level documentation example prints with `println!`, which is I/O.
- Unit tests: restated in the `Scenarios` module:
  - the documentation example (src/lib.rs:8-21) and the empty-set test (src/lib.rs:183-193), through the class;
  - the range test (src/lib.rs:286-292) and the iteration test (src/lib.rs:262), on the count maps those tests build, given as map literals.
  Not restated: the count test (src/lib.rs:164-181), the insert-and-remove test (src/lib.rs:197-229) and the contains test (src/lib.rs:232-249). The `rev_iter` test (src/lib.rs:266-275) asserts nothing.
