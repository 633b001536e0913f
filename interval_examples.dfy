/** Consequences of the Interval contracts, and the worked scenarios that
    pin down orientation, error and ordering behaviour. */
module IntervalExamples {
  import opened Errors
  import opened Intervals

  /** When one operand contains the other, the union is the outer one, as
      long as the outer one is self or both run the same way. */
  lemma UnionOfNested(a: Interval, b: Interval)
    ensures b.IsSubset(a) && (a.Increasing() || !b.Increasing()) ==> a.Union(b) == Ok(a)
    ensures a.IsSubset(b) && a.Increasing() == b.Increasing() ==> a.Union(b) == Ok(b)
  {
  }

  /** When one operand contains the other, the intersection is the inner one,
      as long as the inner one is self or both run the same way. */
  lemma IntersectionOfNested(a: Interval, b: Interval)
    ensures a.IsSubset(b) && (a.Increasing() || !b.Increasing()) ==> a.Intersection(b) == Ok(a)
    ensures b.IsSubset(a) && a.Increasing() == b.Increasing() ==> a.Intersection(b) == Ok(b)
  {
  }

  /** Equality is on the literal pair: reversing an interval keeps what it
      covers but gives a different value. */
  lemma ReversedCoversSame(a: Interval)
    ensures Interval(a.end, a.start).Covers() == a.Covers()
    ensures Interval(a.end, a.start).Len() == a.Len()
    ensures a.start != a.end ==> Interval(a.end, a.start) != a
  {
  }

  lemma UnionScenarios()
    ensures Interval(0, 10).Union(Interval(10, 20)) == Ok(Interval(0, 20))
    ensures Interval(0, 10).Union(Interval(-10, 0)) == Ok(Interval(-10, 10))
    ensures Interval(0, 10).Union(Interval(20, 10)) == Ok(Interval(0, 20))
    ensures Interval(0, 10).Union(Interval(0, -10)) == Ok(Interval(-10, 10))
    ensures Interval(10, 0).Union(Interval(20, 10)) == Ok(Interval(20, 0))
    ensures Interval(10, 0).Union(Interval(0, -10)) == Ok(Interval(10, -10))
    ensures Interval(0, 10).Union(Interval(1, 9)) == Ok(Interval(0, 10))
    ensures Interval(0, 10).Union(Interval(-1, 11)) == Ok(Interval(-1, 11))
    ensures Interval(0, 10).Union(Interval(11, 20)) == Err(DomainError)
  {
  }

  lemma IntersectionScenarios()
    ensures Interval(0, 10).Intersection(Interval(5, 20)) == Ok(Interval(5, 10))
    ensures Interval(0, 10).Intersection(Interval(-10, 5)) == Ok(Interval(0, 5))
    ensures Interval(0, 10).Intersection(Interval(20, 5)) == Ok(Interval(5, 10))
    ensures Interval(0, 10).Intersection(Interval(5, -10)) == Ok(Interval(0, 5))
    ensures Interval(10, 0).Intersection(Interval(20, 5)) == Ok(Interval(10, 5))
    ensures Interval(10, 0).Intersection(Interval(5, -10)) == Ok(Interval(5, 0))
    ensures Interval(0, 10).Intersection(Interval(1, 9)) == Ok(Interval(1, 9))
    ensures Interval(0, 10).Intersection(Interval(-1, 11)) == Ok(Interval(0, 10))
  {
  }

  lemma DifferenceScenarios()
    ensures Interval(0, 10).Difference(Interval(5, 20)) == [Interval(0, 4)]
    ensures Interval(0, 10).Difference(Interval(-10, 5)) == [Interval(6, 10)]
    ensures Interval(0, 10).Difference(Interval(20, 5)) == [Interval(0, 4)]
    ensures Interval(0, 10).Difference(Interval(5, -10)) == [Interval(6, 10)]
    ensures Interval(10, 0).Difference(Interval(20, 5)) == [Interval(4, 0)]
    ensures Interval(10, 0).Difference(Interval(5, -10)) == [Interval(10, 6)]
    ensures Interval(0, 10).Difference(Interval(1, 9)) == [Interval(0, 0), Interval(10, 10)]
    ensures Interval(0, 10).Difference(Interval(-1, 11)) == []
    ensures Interval(0, 10).Difference(Interval(11, 20)) == [Interval(0, 10)]
  {
  }

  lemma SymmetricDifferenceIncreasingScenarios()
    ensures Interval(0, 10).SymmetricDifference(Interval(5, 20)) == [Interval(0, 4), Interval(11, 20)]
    ensures Interval(0, 10).SymmetricDifference(Interval(-10, 5)) == [Interval(6, 10), Interval(-10, -1)]
  {
  }

  lemma SymmetricDifferenceMixedScenarios()
    ensures Interval(0, 10).SymmetricDifference(Interval(20, 5)) == [Interval(0, 4), Interval(20, 11)]
    ensures Interval(0, 10).SymmetricDifference(Interval(5, -10)) == [Interval(6, 10), Interval(-1, -10)]
  {
  }

  lemma SymmetricDifferenceDecreasingScenarios()
    ensures Interval(10, 0).SymmetricDifference(Interval(20, 5)) == [Interval(4, 0), Interval(20, 11)]
    ensures Interval(10, 0).SymmetricDifference(Interval(5, -10)) == [Interval(10, 6), Interval(-1, -10)]
  {
  }

  lemma SymmetricDifferenceInnerScenario()
    ensures Interval(0, 10).SymmetricDifference(Interval(1, 9)) == [Interval(0, 0), Interval(10, 10)]
  {
  }

  lemma SymmetricDifferenceOuterScenario()
    ensures Interval(0, 10).SymmetricDifference(Interval(-1, 11)) == [Interval(-1, -1), Interval(11, 11)]
  {
  }

  lemma SymmetricDifferenceApartScenario()
    ensures Interval(0, 10).SymmetricDifference(Interval(11, 20)) == [Interval(0, 10), Interval(11, 20)]
  {
  }

  lemma RelationScenarios()
    ensures Interval(0, 0).Contains(0) && !Interval(0, 0).Contains(1) && !Interval(0, 0).Contains(-1)
    ensures Interval(0, 0).IsDisjoint(Interval(1, 1)) && !Interval(0, 0).IsDisjoint(Interval(0, 1))
    ensures Interval(0, 10).IsSubset(Interval(0, 10))
    ensures !Interval(-1, 10).IsSubset(Interval(0, 10)) && !Interval(0, 11).IsSubset(Interval(0, 10))
    ensures Interval(1, 10).IsProperSubset(Interval(0, 10)) && Interval(0, 9).IsProperSubset(Interval(0, 10))
    ensures !Interval(0, 10).IsProperSubset(Interval(0, 10))
    ensures Interval(0, 10).IsSuperset(Interval(0, 10))
    ensures !Interval(1, 10).IsSuperset(Interval(0, 10)) && !Interval(0, 9).IsSuperset(Interval(0, 10))
    ensures Interval(0, 11).IsProperSuperset(Interval(0, 10)) && Interval(-1, 10).IsProperSuperset(Interval(0, 10))
    ensures !Interval(0, 10).IsProperSuperset(Interval(0, 10))
    ensures Interval(0, 0).Len() == 1 && Interval(0, 9).Len() == 10 && Interval(0, 99).Len() == 100
    ensures Interval(0, 1) != Interval(1, 0)
  {
  }

  lemma UnionFoldScenario()
    ensures UnionAll(Interval(0, 1), [Interval(1, 2), Interval(2, 3)]) == Ok(Interval(0, 3))
  {
  }

  lemma IntersectionFoldScenario()
    ensures IntersectionAll(Interval(0, 10), [Interval(3, 9), Interval(1, 6)]) == Ok(Interval(3, 6))
  {
  }

  lemma DifferenceFoldScenario()
    ensures DifferenceAll(Interval(0, 10), [Interval(1, 2), Interval(8, 9)])
            == [Interval(0, 0), Interval(3, 7), Interval(10, 10)]
  {
    var once := DifferenceEach([Interval(0, 10)], Interval(1, 2));
    assert once == [Interval(0, 0), Interval(3, 10)];
    var twice := DifferenceEach(once, Interval(8, 9));
    assert DifferenceEach(once[1..], Interval(8, 9)) == [Interval(3, 7), Interval(10, 10)];
    assert twice == [Interval(0, 0), Interval(3, 7), Interval(10, 10)];
  }
}
