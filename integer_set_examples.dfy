/** Client scenarios for IntegerSet: the worked examples of the operators,
    their in-place forms, the element operations and the relations. */
module IntegerSetExamples {
  import opened Errors
  import opened Intervals
  import opened RangeLists
  import opened IntegerSets

  /** The range the k-th constructor pair covers; nothing past the end. */
  ghost function PairCover(p: seq<(int, int)>, k: nat): set<int>
  {
    if k < |p| then Interval(p[k].0, p[k].1).Covers() else {}
  }

  /** What a construction from up to five pairs covers, spelled out. */
  lemma {:induction false} PairsCover(p: seq<(int, int)>)
    requires |p| <= 5
    ensures CoversAll(Ranges(p)) == PairCover(p, 0) + PairCover(p, 1) + PairCover(p, 2) + PairCover(p, 3) + PairCover(p, 4)
  {
    if p != [] {
      PairsCover(p[1..]);
      assert Ranges(p) == [Interval(p[0].0, p[0].1)] + Ranges(p[1..]);
      assert PairCover(p[1..], 0) == PairCover(p, 1) && PairCover(p[1..], 1) == PairCover(p, 2);
      assert PairCover(p[1..], 2) == PairCover(p, 3) && PairCover(p[1..], 3) == PairCover(p, 4);
    }
  }

  method Build(p: seq<(int, int)>) returns (s: IntegerSet)
    requires 1 <= |p| <= 5
    ensures fresh(s) && s.Valid()
    ensures s.Elems() == PairCover(p, 0) + PairCover(p, 1) + PairCover(p, 2) + PairCover(p, 3) + PairCover(p, 4)
  {
    s := new IntegerSet(p);
    PairsCover(p);
  }

  lemma UnionOfOne(s: IntegerSet)
    ensures UnionOf([s]) == s.Elems()
  {
    assert [s][..0] == [];
  }

  lemma UnionOfTwo(s: IntegerSet, t: IntegerSet)
    ensures UnionOf([s, t]) == s.Elems() + t.Elems()
  {
    assert [s, t][..1] == [s];
    UnionOfOne(s);
  }

  lemma MeetOfOne(base: set<int>, s: IntegerSet)
    ensures MeetOf(base, [s]) == base * s.Elems()
  {
    assert [s][..0] == [];
  }

  lemma MeetOfTwo(base: set<int>, s: IntegerSet, t: IntegerSet)
    ensures MeetOf(base, [s, t]) == base * s.Elems() * t.Elems()
  {
    assert [s, t][..1] == [s];
    MeetOfOne(base, s);
  }

  method UnionScenario()
  {
    var a := Build([(0, 10), (20, 30), (40, 50)]);
    var b := Build([(10, 20), (30, 40)]);
    var u := a.Union([b]);
    UnionOfOne(b);
    var e := Build([(0, 50)]);
    assert u != a && u != b;
    assert u.Elems() == e.Elems();
    assert u.Equals(e);
  }

  method VariadicUnionScenario()
  {
    var c := Build([(0, 10)]);
    var d := Build([(20, 30)]);
    var f := Build([(40, 50)]);
    var g := c.Union([d, f]);
    UnionOfTwo(d, f);
    var h := Build([(0, 10), (20, 30), (40, 50)]);
    assert g.Elems() == h.Elems();
    assert g.Equals(h);
  }

  method IntersectionScenario()
  {
    var a := Build([(0, 10), (20, 30), (40, 50)]);
    var b := Build([(-10, 2), (8, 42)]);
    var m := a.Intersection([b]);
    MeetOfOne(a.Elems(), b);
    var e := Build([(0, 2), (8, 10), (20, 30), (40, 42)]);
    assert m.Elems() == e.Elems();
    assert m.Equals(e);
  }

  method DisjointIntersectionScenario()
  {
    var c := Build([(0, 10)]);
    var d := Build([(20, 30)]);
    var n := c.Intersection([d]);
    MeetOfOne(c.Elems(), d);
    var empty := new IntegerSet([]);
    assert n.Elems() == {};
    assert n.Equals(empty);
  }

  method DifferenceScenario()
  {
    var a := Build([(0, 10)]);
    var b := Build([(-5, 2), (4, 6), (8, 15)]);
    var d := a.Difference([b]);
    UnionOfOne(b);
    var e := Build([(3, 3), (7, 7)]);
    assert d.Elems() == e.Elems();
    assert d.Equals(e);
  }

  method SymmetricDifferenceScenario()
  {
    var a := Build([(0, 10), (20, 30)]);
    var b := Build([(-10, -1), (11, 19)]);
    var x := a.SymmetricDifference(b);
    var e := Build([(-10, 30)]);
    assert x.Elems() == e.Elems();
    assert x.Equals(e);
  }

  method VariadicIntersectionScenario()
  {
    var a := Build([(0, 10)]);
    var b := Build([(-10, 8)]);
    var c := Build([(2, 20)]);
    var m := a.Intersection([b, c]);
    MeetOfTwo(a.Elems(), b, c);
    var e := Build([(2, 8)]);
    assert m.Elems() == e.Elems();
    assert m.Equals(e);
  }

  method OverlappingSymmetricDifferenceScenario()
  {
    var a := Build([(0, 10)]);
    var b := Build([(-5, 2), (4, 6), (8, 15)]);
    assert a.Elems() == Between(0, 10);
    assert b.Elems() == Between(-5, 2) + Between(4, 6) + Between(8, 15);
    var x := a.SymmetricDifference(b);
    var e := Build([(-5, -1), (3, 3), (7, 7), (11, 15)]);
    assert x.Elems() == e.Elems();
    assert x.Equals(e);
  }

  method MultiOverlappingSymmetricDifferenceScenario()
  {
    var a := Build([(0, 10), (20, 30), (40, 50)]);
    var b := Build([(4, 6), (25, 45)]);
    var x := a.SymmetricDifference(b);
    var e := Build([(0, 3), (7, 10), (20, 24), (31, 39), (46, 50)]);
    assert x.Elems() == e.Elems();
    assert x.Equals(e);
  }

  method IntersectionUpdateScenario()
  {
    var a := Build([(0, 10)]);
    var b := Build([(-10, 8)]);
    var c := Build([(2, 20)]);
    MeetOfTwo(a.Elems(), b, c);
    a.IntersectionUpdate([b, c]);
    var e := Build([(2, 8)]);
    assert a.Elems() == e.Elems();
    assert a.Equals(e);
  }

  method UpdateScenario()
  {
    var a := Build([(0, 10)]);
    var b := Build([(20, 30)]);
    var c := Build([(30, 40)]);
    a.Update([b, c]);
    UnionOfTwo(b, c);
    assert a.Elems() == Between(0, 10) + Between(20, 30) + Between(30, 40);
    var e := Build([(0, 10), (20, 40)]);
    assert a.Elems() == e.Elems();
    assert a.Equals(e);
  }

  method DifferenceUpdateScenario()
  {
    var s := Build([(0, 10)]);
    var t := Build([(-10, 1)]);
    var w := Build([(9, 20)]);
    s.DifferenceUpdate([t, w]);
    UnionOfTwo(t, w);
    var f := Build([(2, 8)]);
    assert s.Elems() == f.Elems();
    assert s.Equals(f);
  }

  method SymmetricDifferenceUpdateScenario()
  {
    var x := Build([(0, 20)]);
    var y := Build([(10, 30)]);
    x.SymmetricDifferenceUpdate(y);
    var g := Build([(0, 9), (21, 30)]);
    assert x.Elems() == g.Elems();
    assert x.Equals(g);
  }

  method AddScenario()
  {
    var s := Build([(0, 10)]);
    s.Add(12);
    var e := Build([(0, 10), (12, 12)]);
    assert s.Elems() == e.Elems();
    assert s.Equals(e);
    s.Add(11);
    var f := Build([(0, 12)]);
    assert s.Elems() == f.Elems();
    assert s.Equals(f);
  }

  method RemoveScenario()
  {
    var t := Build([(0, 10)]);
    var o := t.Remove(5);
    var g := Build([(0, 4), (6, 10)]);
    assert t.Elems() == g.Elems();
    assert o == Pass && t.Equals(g);
    o := t.Remove(11);
    assert o == Fail(KeyNotFound) && t.Equals(g);
  }

  method PopScenario()
  {
    var p := Build([(0, 1)]);
    assert p.Elems() == {0, 1};
    var first := p.Pop();
    var second := p.Pop();
    var third := p.Pop();
    assert first == Ok(0) && second == Ok(1);
    assert third == Err(KeyNotFound);
  }

  method ClearScenario()
  {
    var q := Build([(0, 1)]);
    q.Clear();
    var empty := new IntegerSet([]);
    assert q.Equals(empty);
  }

  method CopyScenario()
  {
    var s := Build([(0, 10)]);
    var c := s.Copy();
    assert s.Equals(c) && s != c;
    var more := Build([(10, 11)]);
    s.Update([more]);
    UnionOfOne(more);
    assert 11 in s.Elems() && 11 !in c.Elems();
    assert !s.Equals(c);
  }

  method SubsetScenario()
  {
    var a := Build([(0, 10)]);
    var b := Build([(0, 1), (9, 10)]);
    assert a.IsSubset(a) && !a.IsProperSubset(a);
    assert 5 in a.Elems() && 5 !in b.Elems();
    assert b.IsSubset(a) && b.IsProperSubset(a);
  }

  method NotSubsetScenario()
  {
    var a := Build([(0, 10)]);
    var c := Build([(-1, -1), (9, 10)]);
    assert -1 in c.Elems() && -1 !in a.Elems();
    assert !c.IsSubset(a) && !c.IsProperSubset(a);
  }

  method SupersetScenario()
  {
    var a := Build([(0, 10)]);
    var d := Build([(-1, 1), (2, 11)]);
    assert a.Elems() == Between(0, 10);
    assert d.Elems() == Between(-1, 1) + Between(2, 11);
    assert a.Elems() <= d.Elems();
    assert -1 in d.Elems() && -1 !in a.Elems();
    assert d.IsSuperset(a) && d.IsProperSuperset(a);
  }

  method SelfSupersetScenario()
  {
    var a := Build([(0, 10)]);
    assert a.IsSuperset(a) && !a.IsProperSuperset(a);
  }

  method NotSupersetScenario()
  {
    var a := Build([(0, 10)]);
    var e := Build([(-1, 9)]);
    assert 10 in a.Elems() && 10 !in e.Elems();
    assert !e.IsSuperset(a);
  }

  method DisjointScenario()
  {
    var a := Build([(0, 10), (20, 30)]);
    var z := Build([(0, 0)]);
    var m := Build([(-1, -1)]);
    assert 0 in a.Elems() && 0 in z.Elems();
    assert !a.IsDisjoint(z) && a.IsDisjoint(m);
    assert a.Contains(0) && a.Contains(10) && a.Contains(20) && a.Contains(30);
    assert !a.Contains(-1) && !a.Contains(11) && !a.Contains(19) && !a.Contains(31);
  }

  method IterationScenario()
  {
    var s := Build([(0, 2), (10, 12)]);
    var xs := s.Elements();
    assert forall x :: x in xs <==> x in {0, 1, 2, 10, 11, 12};
  }

  method ConsolidationScenario()
  {
    var up := new IntegerSet([(0, 10), (0, 20)]);
    var down := new IntegerSet([(0, 20), (0, 10)]);
    OrderIndependent([(0, 10), (0, 20)], [(0, 20), (0, 10)], up.ranges, down.ranges);
    assert up.Equals(down);
    var one := Build([(0, 20)]);
    PairsCover([(0, 10), (0, 20)]);
    assert up.Elems() == one.Elems();
    assert up.Equals(one);
  }
}
