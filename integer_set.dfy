/** IntegerSet: a mutable set of integers kept as a canonical list of
    ranges.  The pure operations allocate a new set; the in-place ones
    rewrite the receiver's list and leave every operand as it was. */
module IntegerSets {
  import opened Errors
  import opened Intervals
  import opened RangeLists

  /** The constructor's arguments: (start, end) pairs, either orientation. */
  function Ranges(pairs: seq<(int, int)>): seq<Interval>
  {
    seq(|pairs|, k requires 0 <= k < |pairs| => Interval(pairs[k].0, pairs[k].1))
  }

  /** The integers of all the given sets. */
  ghost function UnionOf(sets: seq<IntegerSet>): set<int>
    reads sets
  {
    if sets == [] then {} else UnionOf(sets[..|sets| - 1]) + sets[|sets| - 1].Elems()
  }

  /** The integers of base that every one of the given sets also holds. */
  ghost function MeetOf(base: set<int>, sets: seq<IntegerSet>): set<int>
    reads sets
  {
    if sets == [] then base else MeetOf(base, sets[..|sets| - 1]) * sets[|sets| - 1].Elems()
  }

  /** Variadic union: consolidate the running list with each operand's list. */
  method UnionRanges(base: seq<Interval>, others: seq<IntegerSet>) returns (acc: seq<Interval>)
    requires Canonical(base)
    ensures Canonical(acc)
    ensures CoversAll(acc) == CoversAll(base) + UnionOf(others)
  {
    acc := base;
    var i := 0;
    while i < |others|
      invariant 0 <= i <= |others|
      invariant Canonical(acc)
      invariant CoversAll(acc) == CoversAll(base) + UnionOf(others[..i])
    {
      CoversAllConcat(acc, others[i].ranges);
      acc := Consolidate(acc + others[i].ranges);
      assert others[..i + 1][..i] == others[..i];
      i := i + 1;
    }
    assert others[..i] == others;
  }

  /** Variadic intersection: keep only what the running list shares with
      each operand, then consolidate. */
  method IntersectRanges(base: seq<Interval>, others: seq<IntegerSet>) returns (acc: seq<Interval>)
    requires Canonical(base)
    ensures Canonical(acc)
    ensures CoversAll(acc) == MeetOf(CoversAll(base), others)
  {
    acc := base;
    var i := 0;
    while i < |others|
      invariant 0 <= i <= |others|
      invariant Canonical(acc)
      invariant CoversAll(acc) == MeetOf(CoversAll(base), others[..i])
    {
      acc := Consolidate(Meet(acc, others[i].ranges));
      assert others[..i + 1][..i] == others[..i];
      i := i + 1;
    }
    assert others[..i] == others;
  }

  /** Variadic difference: cut each operand's ranges out of the running list. */
  method SubtractRanges(base: seq<Interval>, others: seq<IntegerSet>) returns (acc: seq<Interval>)
    requires Canonical(base)
    ensures Canonical(acc)
    ensures CoversAll(acc) == CoversAll(base) - UnionOf(others)
  {
    acc := base;
    var i := 0;
    while i < |others|
      invariant 0 <= i <= |others|
      invariant Canonical(acc)
      invariant CoversAll(acc) == CoversAll(base) - UnionOf(others[..i])
    {
      DifferenceKeepsCanonical(acc, others[i].ranges);
      acc := DifferenceFold(acc, others[i].ranges);
      assert others[..i + 1][..i] == others[..i];
      i := i + 1;
    }
    assert others[..i] == others;
  }

  /** Symmetric difference of two lists: what each has that the other lacks,
      consolidated, since pieces of the two sides may touch. */
  method XorRanges(a: seq<Interval>, b: seq<Interval>) returns (r: seq<Interval>)
    ensures Canonical(r)
    ensures CoversAll(r) == (CoversAll(a) - CoversAll(b)) + (CoversAll(b) - CoversAll(a))
  {
    CoversAllConcat(DifferenceFold(a, b), DifferenceFold(b, a));
    r := Consolidate(DifferenceFold(a, b) + DifferenceFold(b, a));
  }

  /** Two canonical lists are equal exactly when they cover the same
      integers, which is what makes list equality set equality. */
  lemma CanonicalEquality(a: seq<Interval>, b: seq<Interval>)
    requires Canonical(a) && Canonical(b)
    ensures a == b <==> CoversAll(a) == CoversAll(b)
  {
    if CoversAll(a) == CoversAll(b) {
      CanonicalUnique(a, b);
    }
  }

  /** Construction does not depend on the order of the pairs: any canonical
      lists covering the same pairs' ranges are the same list. */
  lemma {:induction false} OrderIndependent(p: seq<(int, int)>, q: seq<(int, int)>,
                                            rp: seq<Interval>, rq: seq<Interval>)
    requires multiset(p) == multiset(q)
    requires Canonical(rp) && CoversAll(rp) == CoversAll(Ranges(p))
    requires Canonical(rq) && CoversAll(rq) == CoversAll(Ranges(q))
    ensures rp == rq
  {
    forall x ensures x in CoversAll(Ranges(p)) <==> x in CoversAll(Ranges(q)) {
      CoversAllMember(Ranges(p), x);
      CoversAllMember(Ranges(q), x);
      if x in CoversAll(Ranges(p)) {
        var i :| 0 <= i < |p| && Ranges(p)[i].Contains(x);
        assert p[i] in multiset(q);
        var j :| 0 <= j < |q| && q[j] == p[i];
        assert Ranges(q)[j].Contains(x);
      }
      if x in CoversAll(Ranges(q)) {
        var j :| 0 <= j < |q| && Ranges(q)[j].Contains(x);
        assert q[j] in multiset(p);
        var i :| 0 <= i < |p| && p[i] == q[j];
        assert Ranges(p)[i].Contains(x);
      }
    }
    CanonicalUnique(rp, rq);
  }

  lemma SingletonCovers(x: int)
    ensures CoversAll([Interval(x, x)]) == {x}
  {
    assert Interval(x, x).Covers() == {x};
  }

  class IntegerSet {
    /** The canonical list of ranges. */
    var ranges: seq<Interval>

    ghost predicate Valid()
      reads this
    {
      Canonical(ranges)
    }

    /** The integers the set holds. */
    ghost function Elems(): set<int>
      reads this
    {
      CoversAll(ranges)
    }

    /** IntegerSet(*pairs): consolidate the given ranges. */
    constructor (pairs: seq<(int, int)>)
      ensures Valid()
      ensures Elems() == CoversAll(Ranges(pairs))
    {
      var r := Consolidate(Ranges(pairs));
      ranges := r;
    }

    /** `x in s`. */
    predicate Contains(x: int)
      reads this
      ensures Contains(x) <==> x in Elems()
    {
      RangesContain(ranges, x)
    }

    /** `s == t`: equality of the canonical lists. */
    predicate Equals(other: IntegerSet)
      reads this, other
      requires Valid() && other.Valid()
      ensures Equals(other) <==> Elems() == other.Elems()
    {
      CanonicalEquality(ranges, other.ranges);
      ranges == other.ranges
    }

    /** `issubset`, `<=`. */
    predicate IsSubset(other: IntegerSet)
      reads this, other
      ensures IsSubset(other) <==> Elems() <= other.Elems()
    {
      Within(ranges, other.ranges)
    }

    /** `<`: a subset that misses something of other. */
    predicate IsProperSubset(other: IntegerSet)
      reads this, other
      ensures IsProperSubset(other) <==> Elems() < other.Elems()
    {
      Within(ranges, other.ranges) && !Within(other.ranges, ranges)
    }

    /** `issuperset`, `>=`. */
    predicate IsSuperset(other: IntegerSet)
      reads this, other
      ensures IsSuperset(other) <==> other.Elems() <= Elems()
    {
      Within(other.ranges, ranges)
    }

    /** `>`. */
    predicate IsProperSuperset(other: IntegerSet)
      reads this, other
      ensures IsProperSuperset(other) <==> other.Elems() < Elems()
    {
      Within(other.ranges, ranges) && !Within(ranges, other.ranges)
    }

    /** `isdisjoint`. */
    predicate IsDisjoint(other: IntegerSet)
      reads this, other
      ensures IsDisjoint(other) <==> Elems() !! other.Elems()
    {
      Apart(ranges, other.ranges)
    }

    /** Iteration: the covered integers in ascending order, each once. */
    function Elements(): (r: seq<int>)
      reads this
      requires Valid()
      ensures forall x :: x in r <==> x in Elems()
      ensures Ascending(r)
    {
      MembersAscending(ranges);
      Members(ranges)
    }

    /** `copy()`: an equal set that shares nothing with this one. */
    method Copy() returns (r: IntegerSet)
      requires Valid()
      ensures fresh(r) && r.Valid() && r.ranges == ranges
    {
      r := new IntegerSet([]);
      r.ranges := ranges;
    }

    /** `union(*others)`, and `|` with one operand. */
    method Union(others: seq<IntegerSet>) returns (r: IntegerSet)
      requires Valid()
      ensures fresh(r) && r.Valid()
      ensures r.Elems() == Elems() + UnionOf(others)
    {
      var acc := UnionRanges(ranges, others);
      r := new IntegerSet([]);
      r.ranges := acc;
    }

    /** `intersection(*others)`, and `&` with one operand. */
    method Intersection(others: seq<IntegerSet>) returns (r: IntegerSet)
      requires Valid()
      ensures fresh(r) && r.Valid()
      ensures r.Elems() == MeetOf(Elems(), others)
    {
      var acc := IntersectRanges(ranges, others);
      r := new IntegerSet([]);
      r.ranges := acc;
    }

    /** `difference(*others)`, and `-` with one operand. */
    method Difference(others: seq<IntegerSet>) returns (r: IntegerSet)
      requires Valid()
      ensures fresh(r) && r.Valid()
      ensures r.Elems() == Elems() - UnionOf(others)
    {
      var acc := SubtractRanges(ranges, others);
      r := new IntegerSet([]);
      r.ranges := acc;
    }

    /** `symmetric_difference(other)`, and `^`. */
    method SymmetricDifference(other: IntegerSet) returns (r: IntegerSet)
      requires Valid()
      ensures fresh(r) && r.Valid()
      ensures r.Elems() == (Elems() - other.Elems()) + (other.Elems() - Elems())
    {
      var acc := XorRanges(ranges, other.ranges);
      r := new IntegerSet([]);
      r.ranges := acc;
    }

    /** `update(*others)`, and `|=` with one operand. */
    method Update(others: seq<IntegerSet>)
      requires Valid()
      modifies this
      ensures Valid()
      ensures Elems() == old(Elems() + UnionOf(others))
      ensures forall k :: 0 <= k < |others| && others[k] != this ==> others[k].ranges == old(others[k].ranges)
    {
      ranges := UnionRanges(ranges, others);
    }

    /** `intersection_update(*others)`, and `&=` with one operand. */
    method IntersectionUpdate(others: seq<IntegerSet>)
      requires Valid()
      modifies this
      ensures Valid()
      ensures Elems() == old(MeetOf(Elems(), others))
      ensures forall k :: 0 <= k < |others| && others[k] != this ==> others[k].ranges == old(others[k].ranges)
    {
      ranges := IntersectRanges(ranges, others);
    }

    /** `difference_update(*others)`, and `-=` with one operand. */
    method DifferenceUpdate(others: seq<IntegerSet>)
      requires Valid()
      modifies this
      ensures Valid()
      ensures Elems() == old(Elems() - UnionOf(others))
      ensures forall k :: 0 <= k < |others| && others[k] != this ==> others[k].ranges == old(others[k].ranges)
    {
      ranges := SubtractRanges(ranges, others);
    }

    /** `symmetric_difference_update(other)`, and `^=`. */
    method SymmetricDifferenceUpdate(other: IntegerSet)
      requires Valid()
      modifies this
      ensures Valid()
      ensures Elems() == old((Elems() - other.Elems()) + (other.Elems() - Elems()))
      ensures other != this ==> other.ranges == old(other.ranges)
    {
      ranges := XorRanges(ranges, other.ranges);
    }

    /** `add(x)`: x joins the set, merging with a neighbouring range. */
    method Add(x: int)
      requires Valid()
      modifies this
      ensures Valid()
      ensures Elems() == old(Elems()) + {x}
    {
      CoversAllAppend(ranges, Interval(x, x));
      assert Interval(x, x).Covers() == {x};
      ranges := Consolidate(ranges + [Interval(x, x)]);
    }

    /** `discard(x)`: x leaves the set if it is there, splitting its range. */
    method Discard(x: int)
      requires Valid()
      modifies this
      ensures Valid()
      ensures Elems() == old(Elems()) - {x}
    {
      DifferenceKeepsCanonical(ranges, [Interval(x, x)]);
      SingletonCovers(x);
      ranges := DifferenceFold(ranges, [Interval(x, x)]);
    }

    /** `remove(x)`: as discard, but an absent x is a KeyError. */
    method Remove(x: int) returns (o: Outcome)
      requires Valid()
      modifies this
      ensures Valid()
      ensures o == (if x in old(Elems()) then Pass else Fail(KeyNotFound))
      ensures Elems() == old(Elems()) - {x}
    {
      if !Contains(x) {
        return Fail(KeyNotFound);
      }
      Discard(x);
      o := Pass;
    }

    /** `pop()`: take out the lowest element; a KeyError on the empty set. */
    method Pop() returns (r: Result<int>)
      requires Valid()
      modifies this
      ensures Valid()
      ensures r.Err? <==> old(Elems()) == {}
      ensures r.Err? ==> r.error == KeyNotFound && Elems() == old(Elems())
      ensures r.Ok? ==> r.value in old(Elems()) && Elems() == old(Elems()) - {r.value}
      ensures r.Ok? ==> forall y :: y in old(Elems()) ==> r.value <= y
    {
      CoversAllEmpty(ranges);
      if ranges == [] {
        return Err(KeyNotFound);
      }
      var x := ranges[0].start;
      CanonicalLeast(ranges);
      Discard(x);
      r := Ok(x);
    }

    /** `clear()`. */
    method Clear()
      modifies this
      ensures Valid() && Elems() == {}
    {
      ranges := [];
    }
  }
}
