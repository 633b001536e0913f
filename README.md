# Integer ranges, range sets and integer vectors, modelled in Dafny

This project models three integer-only components of an Advent-of-Code data
structure library.

- **Interval**: a closed, *directed* integer range `(start, end)`.
  - `start > end` is allowed.
  - Equality is on the literal pair, so `(0, 1)` and `(1, 0)` differ.
  - Membership, length and the subset/superset/disjoint relations look only
    at the covered integers.
  - Union, intersection, difference and symmetric difference produce new
    intervals. Each result keeps the orientation of the operand it came from.
- **IntegerSet**: a mutable set of integers stored as a canonical list of
  ranges.
  - The list is sorted, every range is increasing, and consecutive ranges are
    separated by at least one missing integer.
  - Construction runs a sort-then-sweep consolidation.
  - The set has:
    - pure operators that allocate a new set;
    - in-place forms (`|= &= -= ^=`, `update`, `*_update`) that rewrite the
      receiver and leave every operand alone;
    - element operations `add`, `remove`, `discard`, `pop` and `clear`.
- **VectorTuple**: a tuple of integers with:
  - elementwise `+ - * %` over `zip`, so a result is as long as the shorter
    operand;
  - `abs` and the Manhattan magnitude;
  - `within_range`;
  - bounded orthogonal and diagonal neighbour enumeration.

The files:

- `errors.dfy`: the exceptions as values.
  - `DomainError` stands for the ValueError of an impossible interval union or
    intersection.
  - `KeyNotFound` stands for the KeyError of `remove` and `pop`.
  - `ZeroDivision`, `NotIterable` and `NotAnInteger` are the vector's errors.
- `interval.dfy` (`Intervals`): the Interval value, its operations, and the
  variadic folds.
- `interval_examples.dfy` (`IntervalExamples`): the worked interval examples as
  lemmas.
- `range_lists.dfy` (`RangeLists`): the canonical-list layer.
  - Normalisation, sorting and the `Consolidate` sweep, proved to establish
    canonical form and keep coverage.
  - Uniqueness of canonical form.
  - Membership, clipping, the subset and disjointness tests, and ascending
    iteration.
- `integer_set.dfy` (`IntegerSets`): the `IntegerSet` class.
  - It has a `ranges` field, a `Valid()` invariant and an abstract `Elems()`
    set.
  - Its methods state their result or new state in terms of `Elems()`.
- `integer_set_examples.dfy` (`IntegerSetExamples`): client checks. Each
  method builds the sets of one case in test_integer_set.py, calls the
  operations, and asserts the expected result, object identity or copy
  independence. These methods have no contracts of their own and so no rows
  below. The verifier proves their assertions from the `IntegerSet`
  contracts alone.
- `vector_tuple.dfy` (`VectorTuples`): vectors as `seq<int>`.

The implementations of Interval and IntegerSet are not part of this model.
Their behaviour is taken from the assertions in their test files, and those
assertions are what the contracts state. Two cases need a note:

- The union of merely adjacent intervals, `(0,10) | (11,20)`, fails with
  DomainError, as test_interval.py:94-101 requires. Sharing an integer is
  the condition; adjacency is not enough.
- No test pins the intersection of intervals that share no integer. The
  "no overlap" case of the intersection tests (test_interval.py:189-196)
  exercises `|`, not `&`. The model raises DomainError there as well, the
  same error union raises, since there is no interval to return.

IntegerSet's internal algorithms are unknown. The model uses these:

| operation | model |
|---|---|
| union | consolidation of the concatenated lists |
| intersection | every range clipped to every operand range, then consolidated |
| difference | interval difference applied range by range (proved to stay canonical) |
| symmetric difference | both one-sided differences, consolidated |

Python's integers are unbounded, like Dafny's `int`. Python's `%` rounds the
quotient toward minus infinity. The model writes this out as `FloorMod`, since
Dafny's `%` is Euclidean.

## Model

| member | source | states |
|---|---|---|
| `Intervals.Interval.Len` | aoc_utils/data_structures/tests/test_interval.py:466-472 | the length is the number of covered integers, `abs(end - start) + 1` |
| `Intervals.Interval.Contains` | aoc_utils/data_structures/tests/test_interval.py:385-391 | membership holds exactly for the covered integers, both ends included, either orientation |
| `Intervals.Interval.IsDisjoint` | aoc_utils/data_structures/tests/test_interval.py:393-398 | true exactly when the two intervals share no integer |
| `Intervals.Interval.IsSubset` | aoc_utils/data_structures/tests/test_interval.py:400-407 | `<=` is inclusion of the covered integers |
| `Intervals.Interval.IsProperSubset` | aoc_utils/data_structures/tests/test_interval.py:409-417 | `<` is strict inclusion, so it is false on equal intervals |
| `Intervals.Interval.IsSuperset` | aoc_utils/data_structures/tests/test_interval.py:419-426 | `>=` is reverse inclusion |
| `Intervals.Interval.IsProperSuperset` | aoc_utils/data_structures/tests/test_interval.py:428-436 | `>` is strict reverse inclusion |
| `Intervals.Interval.Union` | aoc_utils/data_structures/tests/test_interval.py:14-101 | DomainError exactly when no integer is shared (adjacent is not enough); otherwise the result covers both intervals and is increasing when self is, decreasing when both are |
| `Intervals.Interval.Intersection` | aoc_utils/data_structures/tests/test_interval.py:109-187 | DomainError exactly when no integer is shared; otherwise it covers the shared integers, oriented as in Union |
| `Intervals.Interval.Difference` | aoc_utils/data_structures/tests/test_interval.py:204-283 | the pieces cover self minus other, in self's orientation, at most two, lower first and gapped; empty exactly when self is inside other; `[self]` when disjoint |
| `Intervals.Interval.SymmetricDifference` | aoc_utils/data_structures/tests/test_interval.py:291-370 | `self - other` followed by `other - self`: the result splits into a prefix that is exactly self's integers outside other, as ascending gapped pieces in self's orientation, and a suffix that is the same for other; so it covers the integers in exactly one operand, and each piece lies in one operand and outside the other |
| `Intervals.UnionAll` | aoc_utils/data_structures/tests/test_interval.py:438-443 | the left fold of `union` succeeds exactly when every operand shares an integer with first and the operands before it; it then covers all operands, and it fails only with DomainError |
| `Intervals.IntersectionAll` | aoc_utils/data_structures/tests/test_interval.py:445-450 | succeeds exactly when some integer lies in every operand, and then covers exactly those integers |
| `Intervals.DifferenceEach` | aoc_utils/data_structures/tests/test_interval.py:452-457 | one fold step: every piece minus one operand, flattened; covers the pieces minus the operand |
| `Intervals.DifferenceEachSeparated` | aoc_utils/data_structures/tests/test_interval.py:452-457 | a fold step keeps the flattened pieces ascending and gapped |
| `Intervals.DifferenceFold` | aoc_utils/data_structures/tests/test_interval.py:452-457 | cutting operand after operand leaves the pieces minus all operands, and keeps separation and orientation |
| `Intervals.DifferenceAll` | aoc_utils/data_structures/tests/test_interval.py:452-457 | `difference(*others)` covers first minus every operand, flattened, ascending, each piece oriented like first |
| `IntervalExamples.UnionOfNested` | aoc_utils/data_structures/tests/test_interval.py:74-92 | when one interval contains the other, the union is the outer one, provided both run the same way or the outer one is self |
| `IntervalExamples.IntersectionOfNested` | aoc_utils/data_structures/tests/test_interval.py:169-187 | when one interval contains the other, the intersection is the inner one, provided both run the same way or the inner one is self |
| `IntervalExamples.ReversedCoversSame` | aoc_utils/data_structures/tests/test_interval.py:378-383 | a reversed interval covers the same integers and has the same length, but is a different value |
| `IntervalExamples.UnionScenarios` | aoc_utils/data_structures/tests/test_interval.py:14-101 | every tested union, including the adjacent case that raises |
| `IntervalExamples.IntersectionScenarios` | aoc_utils/data_structures/tests/test_interval.py:109-187 | every tested intersection |
| `IntervalExamples.DifferenceScenarios` | aoc_utils/data_structures/tests/test_interval.py:204-283 | every tested difference, with pieces and orientation |
| `IntervalExamples.SymmetricDifferenceIncreasingScenarios` | aoc_utils/data_structures/tests/test_interval.py:291-308 | increasing operands: self's leftover first, then other's, not sorted by position |
| `IntervalExamples.SymmetricDifferenceMixedScenarios` | aoc_utils/data_structures/tests/test_interval.py:309-326 | a decreasing other contributes a decreasing piece |
| `IntervalExamples.SymmetricDifferenceDecreasingScenarios` | aoc_utils/data_structures/tests/test_interval.py:327-344 | two decreasing operands give decreasing pieces |
| `IntervalExamples.SymmetricDifferenceInnerScenario` | aoc_utils/data_structures/tests/test_interval.py:345-352 | an inner operand leaves the two end pieces of self |
| `IntervalExamples.SymmetricDifferenceOuterScenario` | aoc_utils/data_structures/tests/test_interval.py:354-361 | an outer operand leaves its two end pieces |
| `IntervalExamples.SymmetricDifferenceApartScenario` | aoc_utils/data_structures/tests/test_interval.py:363-370 | disjoint operands come back whole, self first |
| `IntervalExamples.RelationScenarios` | aoc_utils/data_structures/tests/test_interval.py:378-472 | the tested membership, relation, length and equality outcomes |
| `IntervalExamples.UnionFoldScenario` | aoc_utils/data_structures/tests/test_interval.py:438-443 | `(0,1).union((1,2), (2,3)) == (0,3)` |
| `IntervalExamples.IntersectionFoldScenario` | aoc_utils/data_structures/tests/test_interval.py:445-450 | `(0,10).intersection((3,9), (1,6)) == (3,6)` |
| `IntervalExamples.DifferenceFoldScenario` | aoc_utils/data_structures/tests/test_interval.py:452-457 | `(0,10).difference((1,2), (8,9))` is the flattened `((0,0), (3,7), (10,10))` |
| `RangeLists.NormalizeAll` | aoc_utils/data_structures/tests/test_integer_set.py:486-505 | every stored range is increasing and covers exactly what the pair at the same position covered, so the whole list covers what the pairs cover |
| `RangeLists.Sort` | aoc_utils/data_structures/tests/test_integer_set.py:486-505 | consolidation's sort orders by start, then end, and is a permutation |
| `RangeLists.SortedPairs` | aoc_utils/data_structures/tests/test_integer_set.py:491-505 | the normalised, sorted pairs cover exactly what the raw pairs cover |
| `RangeLists.CoversAllPermutation` | aoc_utils/data_structures/tests/test_integer_set.py:491-505 | what a list of ranges covers does not depend on their order |
| `RangeLists.Consolidate` | aoc_utils/data_structures/tests/test_integer_set.py:486-505 | the sweep returns a canonical list (sorted, increasing, separated by a gap) covering exactly the input ranges |
| `RangeLists.SweepMerge` | aoc_utils/data_structures/tests/test_integer_set.py:47-54 | an overlapping or adjacent next range merges into the running one, keeping canonical form and coverage |
| `RangeLists.SweepEmit` | aoc_utils/data_structures/tests/test_integer_set.py:38-45 | a range past a gap closes the running one, keeping canonical form and coverage |
| `RangeLists.CanonicalUnique` | aoc_utils/data_structures/tests/test_integer_set.py:348-357 | two canonical lists covering the same integers are the same list |
| `RangeLists.CanonicalLeast` | aoc_utils/data_structures/tests/test_integer_set.py:332-340 | the first start of a canonical list is its least element |
| `RangeLists.RangesContain` | aoc_utils/data_structures/tests/test_integer_set.py:359-381 | scanning the ranges finds exactly the covered integers |
| `RangeLists.Clip` | aoc_utils/data_structures/tests/test_integer_set.py:95-111 | clipping to one range keeps exactly the shared integers |
| `RangeLists.Meet` | aoc_utils/data_structures/tests/test_integer_set.py:95-111 | clipping to every range of the other list keeps exactly the integers both cover |
| `RangeLists.DifferenceKeepsCanonical` | aoc_utils/data_structures/tests/test_integer_set.py:143-159 | cutting ranges out of a canonical list leaves a canonical list covering the difference |
| `RangeLists.Within` | aoc_utils/data_structures/tests/test_integer_set.py:392-408 | the list test for subset agrees with inclusion of the covered integers |
| `RangeLists.Apart` | aoc_utils/data_structures/tests/test_integer_set.py:383-390 | the list test for disjointness agrees with disjoint coverage |
| `RangeLists.Span` | aoc_utils/data_structures/tests/test_integer_set.py:465-474 | one range's integers, ascending, each once |
| `RangeLists.Members` | aoc_utils/data_structures/tests/test_integer_set.py:465-474 | iteration yields exactly the covered integers |
| `RangeLists.MembersAscending` | aoc_utils/data_structures/tests/test_integer_set.py:465-474 | on a canonical list, iteration is strictly ascending, so no integer repeats |
| `IntegerSets.UnionRanges` | aoc_utils/data_structures/tests/test_integer_set.py:224-231 | variadic union: a canonical list covering the base and every operand |
| `IntegerSets.IntersectRanges` | aoc_utils/data_structures/tests/test_integer_set.py:233-240 | variadic intersection: a canonical list covering what the base shares with every operand |
| `IntegerSets.SubtractRanges` | aoc_utils/data_structures/tests/test_integer_set.py:242-249 | variadic difference: a canonical list covering the base minus the union of the operands |
| `IntegerSets.XorRanges` | aoc_utils/data_structures/tests/test_integer_set.py:191-216 | a canonical list covering the integers in exactly one operand; touching pieces merge |
| `IntegerSets.CanonicalEquality` | aoc_utils/data_structures/tests/test_integer_set.py:348-357 | for canonical lists, list equality is exactly equality of covered sets |
| `IntegerSets.OrderIndependent` | aoc_utils/data_structures/tests/test_integer_set.py:491-505 | constructions from the same pairs in any order give the same list |
| `IntegerSets.IntegerSet.constructor` | aoc_utils/data_structures/tests/test_integer_set.py:486-505 | construction consolidates the pairs: valid, covering every given range in either orientation |
| `IntegerSets.IntegerSet.Contains` | aoc_utils/data_structures/tests/test_integer_set.py:359-381 | `in` holds exactly for the elements, range ends included; never on the empty set |
| `IntegerSets.IntegerSet.Equals` | aoc_utils/data_structures/tests/test_integer_set.py:348-357 | `==` on the canonical lists holds exactly when the sets hold the same integers |
| `IntegerSets.IntegerSet.IsSubset` | aoc_utils/data_structures/tests/test_integer_set.py:392-408 | `issubset`/`<=` is inclusion of the elements |
| `IntegerSets.IntegerSet.IsProperSubset` | aoc_utils/data_structures/tests/test_integer_set.py:410-417 | `<` is strict inclusion |
| `IntegerSets.IntegerSet.IsSuperset` | aoc_utils/data_structures/tests/test_integer_set.py:419-435 | `issuperset`/`>=` is reverse inclusion |
| `IntegerSets.IntegerSet.IsProperSuperset` | aoc_utils/data_structures/tests/test_integer_set.py:437-444 | `>` is strict reverse inclusion |
| `IntegerSets.IntegerSet.IsDisjoint` | aoc_utils/data_structures/tests/test_integer_set.py:383-390 | `isdisjoint` holds exactly when no element is shared |
| `IntegerSets.IntegerSet.Elements` | aoc_utils/data_structures/tests/test_integer_set.py:465-474 | iteration yields exactly the elements, ascending |
| `IntegerSets.IntegerSet.Copy` | aoc_utils/data_structures/tests/test_integer_set.py:446-455 | a fresh object with the same ranges |
| `IntegerSets.IntegerSet.Union` | aoc_utils/data_structures/tests/test_integer_set.py:26-54 | a fresh set holding self and every operand |
| `IntegerSets.IntegerSet.Intersection` | aoc_utils/data_structures/tests/test_integer_set.py:74-111 | a fresh set holding what self shares with every operand |
| `IntegerSets.IntegerSet.Difference` | aoc_utils/data_structures/tests/test_integer_set.py:131-159 | a fresh set holding self minus every operand |
| `IntegerSets.IntegerSet.SymmetricDifference` | aoc_utils/data_structures/tests/test_integer_set.py:179-216 | a fresh set holding the integers in exactly one of the two |
| `IntegerSets.IntegerSet.Update` | aoc_utils/data_structures/tests/test_integer_set.py:262-270 | in place: the old elements plus every operand's; the other operands unchanged |
| `IntegerSets.IntegerSet.IntersectionUpdate` | aoc_utils/data_structures/tests/test_integer_set.py:272-280 | in place: the old elements every operand also holds; the other operands unchanged |
| `IntegerSets.IntegerSet.DifferenceUpdate` | aoc_utils/data_structures/tests/test_integer_set.py:282-290 | in place: the old elements minus every operand's; the other operands unchanged |
| `IntegerSets.IntegerSet.SymmetricDifferenceUpdate` | aoc_utils/data_structures/tests/test_integer_set.py:292-300 | in place: the old symmetric difference; the operand unchanged |
| `IntegerSets.IntegerSet.Add` | aoc_utils/data_structures/tests/test_integer_set.py:302-310 | x joins the elements, and the list stays canonical, so neighbours merge |
| `IntegerSets.IntegerSet.Remove` | aoc_utils/data_structures/tests/test_integer_set.py:312-320 | x leaves the elements; KeyError exactly when x was absent |
| `IntegerSets.IntegerSet.Discard` | aoc_utils/data_structures/tests/test_integer_set.py:322-330 | x leaves the elements; an absent x changes nothing |
| `IntegerSets.IntegerSet.Pop` | aoc_utils/data_structures/tests/test_integer_set.py:332-340 | returns and removes one element (the least); KeyError exactly on the empty set, which stays unchanged |
| `IntegerSets.IntegerSet.Clear` | aoc_utils/data_structures/tests/test_integer_set.py:457-463 | afterwards the set is empty |
| `VectorTuples.New` | aoc_data_structures/data_structures/vector_tuple.py:12-15 | a single non-tuple argument supplies the elements (an integer is not iterable); otherwise the arguments are the elements |
| `VectorTuples.Add` | aoc_data_structures/data_structures/vector_tuple.py:17-21 | elementwise sum over the zipped pairs, as long as the shorter operand |
| `VectorTuples.Sub` | aoc_data_structures/data_structures/vector_tuple.py:23-27 | elementwise difference over the zipped pairs |
| `VectorTuples.Mul` | aoc_data_structures/data_structures/vector_tuple.py:29-33 | elementwise product over the zipped pairs |
| `VectorTuples.FloorMod` | aoc_data_structures/data_structures/vector_tuple.py:41-45 | Python's integer `%`: the remainder has the divisor's sign, is smaller in size, and completes the floor quotient |
| `VectorTuples.Mod` | aoc_data_structures/data_structures/vector_tuple.py:41-45 | ZeroDivisionError exactly when a zipped divisor is zero; otherwise the elementwise floor remainder |
| `VectorTuples.AbsAll` | aoc_data_structures/data_structures/vector_tuple.py:47-48 | elementwise absolute value, same length |
| `VectorTuples.SumOfNonNegative` | aoc_data_structures/data_structures/vector_tuple.py:104-108 | a sum of non-negative terms is non-negative, at least every term, and zero exactly when every term is |
| `VectorTuples.Manhattan` | aoc_data_structures/data_structures/vector_tuple.py:104-108 | `manhattan()`, a natural number at least the absolute value of every coordinate; ManhattanZero and ManhattanTriangle state its other properties |
| `VectorTuples.ManhattanCons` | aoc_data_structures/data_structures/vector_tuple.py:104-108 | the magnitude is the first absolute value plus that of the rest |
| `VectorTuples.ManhattanZero` | aoc_data_structures/data_structures/vector_tuple.py:104-108 | the magnitude is zero exactly for the zero vector |
| `VectorTuples.ManhattanTriangle` | aoc_data_structures/data_structures/vector_tuple.py:104-108 | the magnitude of a sum is at most the sum of the magnitudes, for operands of any lengths |
| `VectorTuples.AddSubInverse` | aoc_data_structures/data_structures/vector_tuple.py:17-27 | subtracting what was added restores the operand, cut to the shorter length |
| `VectorTuples.WithinRange` | aoc_data_structures/data_structures/vector_tuple.py:50-54 | true exactly when every zipped element lies in its range; extra elements are unchecked |
| `VectorTuples.Neighbours` | aoc_data_structures/data_structures/vector_tuple.py:56-82 | the in-grid steps, never more than there are steps |
| `VectorTuples.NeighboursOfPoint` | aoc_data_structures/data_structures/vector_tuple.py:56-82 | for a point, each of the four candidates comes out, in step order, exactly when it is in the grid |
| `VectorTuples.Orthogonals` | aoc_data_structures/data_structures/vector_tuple.py:56-68 | at most four orthogonal neighbours |
| `VectorTuples.Diagonals` | aoc_data_structures/data_structures/vector_tuple.py:70-82 | at most four diagonal neighbours |
| `VectorTuples.OrthogonalCandidates` | aoc_data_structures/data_structures/vector_tuple.py:60-68 | the orthogonal order is east, north, west, south, each kept when in the grid |
| `VectorTuples.DiagonalCandidates` | aoc_data_structures/data_structures/vector_tuple.py:74-82 | the diagonal order is NE, NW, SW, SE, each kept when in the grid |
| `VectorTuples.OrthogonalsExact` | aoc_data_structures/data_structures/vector_tuple.py:56-68 | the orthogonal neighbours are exactly the in-grid points at Manhattan distance 1 |
| `VectorTuples.DiagonalsExact` | aoc_data_structures/data_structures/vector_tuple.py:70-82 | the diagonal neighbours are exactly the in-grid points one step away in both coordinates |
| `VectorTuples.InteriorOrder` | aoc_data_structures/data_structures/vector_tuple.py:56-82 | away from the border all four neighbours come out, in order |
| `VectorTuples.ArithmeticScenarios` | aoc_data_structures/data_structures/tests/test_vector_tuple.py:14-56 | `(1,1)+(1,2) == (2,3)`, zip truncation, floor `%`, and the tested magnitudes 0 and 4 |
| `VectorTuples.ConstructorScenarios` | aoc_data_structures/data_structures/vector_tuple.py:12-15 | the argument forms: integers, one iterable, nothing, one integer, one tuple |
| `VectorTuples.CornerScenarios` | aoc_data_structures/data_structures/vector_tuple.py:56-82 | at a corner only the in-grid neighbours come out |
| `VectorTuples.FarCornerScenario` | aoc_data_structures/data_structures/vector_tuple.py:56-68 | at the opposite corner only north and west come out |

## Left out

- `Intervals.Interval.Union`: when self is decreasing and other is increasing, the result's orientation is left unstated. No test in test_interval.py:14-101 covers that combination.
- `Intervals.Interval.Intersection`: the orientation is left unstated for the same combination, for the same reason. The DomainError for two intervals that share no integer is also the model's choice, since no test pins that case; `Intervals.IntersectionAll` inherits it.
- `Intervals.UnionAll` and `Intervals.IntersectionAll` only state an orientation when first is increasing, the one case the tests use.
- `Intervals.Interval.SymmetricDifference`: binary only. No test calls the variadic form.
- `Intervals.Interval.Difference` and `Intervals.DifferenceAll`: the test suite has no case of a decreasing self (or first operand) with an interior hole. There the model puts the lower piece first, so the pieces are always ascending.
- `VectorTuples.Neighbours`, `VectorTuples.Orthogonals` and `VectorTuples.Diagonals` state the exact neighbour set and order only for 2-element positions. Longer or shorter tuples are enumerated by the same zip rules, but nothing further is proved about them.
- Interval and IntegerSet `hash`, `repr` and `id()`: identity is Dafny object identity (`fresh` results, `modifies this`), and equality is on the stored pair or canonical list.
- IntegerSet's own source is not part of this model. The algebra is modelled through consolidation, clipping and interval difference, and only the covered sets it produces are fixed by the contracts.
- `IntegerSets.IntegerSet.Pop` returns the least element. test_integer_set.py:332-340 accepts either element of `(0, 1)`, so the choice is the model's.
- The in-place operations read every operand before writing the receiver. An operand that aliases the receiver (`s |= s`) therefore contributes its old value.
- Iteration and the neighbour generators are returned as finite sequences, not lazy generators.
- `within_range` accepts step-1 ranges `range(start, stop)` only. Other steps are not modelled.
- `VectorTuples.New`: Python builds a nested tuple whenever an element is not an integer: a single tuple argument (`VectorTuple((1, 2))` gives `((1, 2),)`), or any non-integer among two or more arguments (`VectorTuple(1, [2])` gives `(1, [2])`). A nested value is outside an integer vector, so both are reported as `NotAnInteger`.
- `VectorTuple.__truediv__`: float division.
- `VectorTuple.radius`: it calls `product`, which the file never imports, so it fails as written.
- aoc_data_structures/grid_helpers.py: thin wrappers over numpy and string hashing.
- The numpy grid is consulted only for its shape, which is passed as `rows, cols: nat`.
