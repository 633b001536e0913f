/** A closed, directed integer range.  `Interval(start, end)` covers every
    integer between its two ends inclusive, in either order; equality is on
    the literal pair, so `Interval(0, 1) != Interval(1, 0)` although both
    cover {0, 1}.  Containment, subset and disjointness look only at the
    covered integers, while the results of union, intersection and
    difference keep the orientation of the operand they come from. */
module Intervals {
  import opened Errors

  function Min(a: int, b: int): int { if a <= b then a else b }
  function Max(a: int, b: int): int { if a <= b then b else a }
  function Abs(a: int): nat { if a < 0 then -a else a }

  predicate InRange(lo: int, x: int, hi: int) { lo <= x <= hi }

  /** Every integer from lo to hi inclusive (empty when lo > hi).  The bare
      comparisons give Dafny the finite bounds of the comprehension, and the
      repeated `InRange` gives its quantifier a term to trigger on. */
  ghost function Between(lo: int, hi: int): set<int> { set x | lo <= x <= hi && InRange(lo, x, hi) }

  lemma {:induction false} BetweenSize(lo: int, hi: int)
    requires lo <= hi
    ensures |Between(lo, hi)| == hi - lo + 1
    decreases hi - lo
  {
    if lo < hi {
      BetweenSize(lo, hi - 1);
      assert Between(lo, hi) == Between(lo, hi - 1) + {hi};
    } else {
      assert Between(lo, hi) == {lo};
    }
  }

  datatype Interval = Interval(start: int, end: int) {

    predicate Increasing() { start <= end }

    function Lo(): int { Min(start, end) }

    function Hi(): int { Max(start, end) }

    /** The integers the interval covers, whatever its orientation. */
    ghost function Covers(): set<int> { Between(Lo(), Hi()) }

    /** `r` runs the same way as this interval: increasing when this one is,
        non-increasing when this one decreases. */
    predicate OrientedLike(r: Interval) {
      (Increasing() ==> r.start <= r.end) && (!Increasing() ==> r.start >= r.end)
    }

    /** `len(i)`: |end - start| + 1. */
    function Len(): (n: nat)
      ensures n == |Covers()|
    {
      BetweenSize(Lo(), Hi());
      Abs(end - start) + 1
    }

    /** `x in i`: inclusive at both ends, in either orientation. */
    predicate Contains(x: int)
      ensures Contains(x) <==> x in Covers()
    {
      Lo() <= x <= Hi()
    }

    /** `i.isdisjoint(other)`: no integer is covered by both. */
    predicate IsDisjoint(other: Interval)
      ensures IsDisjoint(other) <==> Covers() !! other.Covers()
    {
      var w := Max(Lo(), other.Lo());
      assert w in Covers() && w in other.Covers() <== !(Hi() < other.Lo() || other.Hi() < Lo());
      Hi() < other.Lo() || other.Hi() < Lo()
    }

    /** `i <= other`, `i.issubset(other)`. */
    predicate IsSubset(other: Interval)
      ensures IsSubset(other) <==> Covers() <= other.Covers()
    {
      assert Lo() in Covers() && Hi() in Covers();
      other.Lo() <= Lo() && Hi() <= other.Hi()
    }

    /** `i < other`: a subset that misses at least one integer of `other`. */
    predicate IsProperSubset(other: Interval)
      ensures IsProperSubset(other) <==> Covers() < other.Covers()
    {
      assert Lo() in Covers() && Hi() in Covers();
      assert other.Lo() in other.Covers() && other.Hi() in other.Covers();
      other.Lo() <= Lo() && Hi() <= other.Hi() && (other.Lo() < Lo() || Hi() < other.Hi())
    }

    /** `i >= other`, `i.issuperset(other)`. */
    predicate IsSuperset(other: Interval)
      ensures IsSuperset(other) <==> other.Covers() <= Covers()
    {
      other.IsSubset(this)
    }

    /** `i > other`. */
    predicate IsProperSuperset(other: Interval)
      ensures IsProperSuperset(other) <==> other.Covers() < Covers()
    {
      other.IsProperSubset(this)
    }

    /** The interval over [lo, hi] running the same way as this one. */
    function Orient(lo: int, hi: int): (r: Interval)
      requires lo <= hi
      ensures r.Lo() == lo && r.Hi() == hi && OrientedLike(r)
    {
      if Increasing() then Interval(lo, hi) else Interval(hi, lo)
    }

    /** `i | other`: defined only when the two share an integer (merely
        adjacent intervals fail); the result spans both. */
    function Union(other: Interval): (r: Result<Interval>)
      ensures r.Err? <==> Covers() !! other.Covers()
      ensures r.Err? ==> r.error == DomainError
      ensures r.Ok? ==> r.value.Covers() == Covers() + other.Covers()
      ensures r.Ok? && (Increasing() || !other.Increasing()) ==> OrientedLike(r.value)
    {
      if IsDisjoint(other) then Err(DomainError)
      else Ok(Orient(Min(Lo(), other.Lo()), Max(Hi(), other.Hi())))
    }

    /** `i & other`: the shared integers, when there are any. */
    function Intersection(other: Interval): (r: Result<Interval>)
      ensures r.Err? <==> Covers() !! other.Covers()
      ensures r.Err? ==> r.error == DomainError
      ensures r.Ok? ==> r.value.Covers() == Covers() * other.Covers()
      ensures r.Ok? && (Increasing() || !other.Increasing()) ==> OrientedLike(r.value)
    {
      if IsDisjoint(other) then Err(DomainError)
      else Ok(Orient(Max(Lo(), other.Lo()), Min(Hi(), other.Hi())))
    }

    /** `i - other`: the pieces of this interval that `other` does not cover,
        lower piece first, each running the same way as this interval. */
    function Difference(other: Interval): (r: seq<Interval>)
      ensures CoversAll(r) == Covers() - other.Covers()
      ensures r == [] <==> IsSubset(other)
      ensures IsDisjoint(other) ==> r == [this]
      ensures |r| <= 2
      ensures forall k :: 0 <= k < |r| ==> r[k].IsSubset(this) && r[k].IsDisjoint(other) && OrientedLike(r[k])
      ensures Separated(r)
    {
      if IsDisjoint(other) then
        [this]
      else
        var left := if Lo() < other.Lo() then [Orient(Lo(), other.Lo() - 1)] else [];
        var right := if other.Hi() < Hi() then [Orient(other.Hi() + 1, Hi())] else [];
        CoversAllConcat(left, right);
        left + right
    }

    /** `i ^ other`: the pieces of this interval outside `other`, then the
        pieces of `other` outside this one, each keeping its source's
        orientation; not sorted by position. */
    function SymmetricDifference(other: Interval): (r: seq<Interval>)
      ensures CoversAll(r) == (Covers() - other.Covers()) + (other.Covers() - Covers())
      ensures forall k :: 0 <= k < |r| ==>
                || (r[k].IsSubset(this) && r[k].IsDisjoint(other) && OrientedLike(r[k]))
                || (r[k].IsSubset(other) && r[k].IsDisjoint(this) && other.OrientedLike(r[k]))
      ensures forall i, j :: 0 <= i < j < |r| && r[j].IsDisjoint(other) ==> r[i].IsDisjoint(other)
      ensures exists n :: 0 <= n <= |r| && PiecesOutside(r[..n], this, other) && PiecesOutside(r[n..], other, this)
    {
      var mine, theirs := Difference(other), other.Difference(this);
      CoversAllConcat(mine, theirs);
      PieceSources(mine, theirs, this, other);
      PieceOrder(mine, theirs, this, other);
      SplitWitness(mine, theirs, this, other);
      mine + theirs
    }
  }

  /** `ps` holds exactly the integers of `from` outside `cut`, as ascending,
      gapped pieces that run the same way as `from`: the only such list is
      the maximal runs, lowest first. */
  ghost predicate PiecesOutside(ps: seq<Interval>, from: Interval, cut: Interval)
  {
    && CoversAll(ps) == from.Covers() - cut.Covers()
    && Separated(ps)
    && forall k :: 0 <= k < |ps| ==> from.OrientedLike(ps[k])
  }

  /** An interval never misses an interval that contains it. */
  lemma SubsetMeets(t: Interval, b: Interval)
    requires t.IsSubset(b)
    ensures !t.IsDisjoint(b)
  {
    assert t.Contains(t.start);
  }

  /** Each piece of a's leftovers followed by b's comes from one operand. */
  lemma PieceSources(mine: seq<Interval>, theirs: seq<Interval>, a: Interval, b: Interval)
    requires mine == a.Difference(b) && theirs == b.Difference(a)
    ensures forall k :: 0 <= k < |mine + theirs| ==>
              || ((mine + theirs)[k].IsSubset(a) && (mine + theirs)[k].IsDisjoint(b) && a.OrientedLike((mine + theirs)[k]))
              || ((mine + theirs)[k].IsSubset(b) && (mine + theirs)[k].IsDisjoint(a) && b.OrientedLike((mine + theirs)[k]))
  {
    var r := mine + theirs;
    assert forall k :: |mine| <= k < |r| ==> r[k] == theirs[k - |mine|];
  }

  /** a's leftovers come before b's: no piece of b's follows one outside b. */
  lemma PieceOrder(mine: seq<Interval>, theirs: seq<Interval>, a: Interval, b: Interval)
    requires mine == a.Difference(b) && theirs == b.Difference(a)
    ensures forall i, j :: 0 <= i < j < |mine + theirs| && (mine + theirs)[j].IsDisjoint(b) ==> (mine + theirs)[i].IsDisjoint(b)
  {
    var r := mine + theirs;
    forall k | |mine| <= k < |r|
      ensures !r[k].IsDisjoint(b)
    {
      assert r[k] == theirs[k - |mine|];
      SubsetMeets(r[k], b);
    }
  }

  /** The concatenation of a's pieces outside b and b's pieces outside a
      splits back into the two. */
  lemma SplitWitness(mine: seq<Interval>, theirs: seq<Interval>, a: Interval, b: Interval)
    requires mine == a.Difference(b) && theirs == b.Difference(a)
    ensures exists n :: 0 <= n <= |mine + theirs|
              && PiecesOutside((mine + theirs)[..n], a, b) && PiecesOutside((mine + theirs)[n..], b, a)
  {
    var r := mine + theirs;
    assert r[..|mine|] == mine && r[|mine|..] == theirs;
    assert PiecesOutside(r[..|mine|], a, b) && PiecesOutside(r[|mine|..], b, a);
  }

  /** The integers covered by any of the intervals. */
  ghost function CoversAll(ivs: seq<Interval>): set<int>
  {
    if ivs == [] then {} else ivs[0].Covers() + CoversAll(ivs[1..])
  }

  lemma {:induction false} CoversAllConcat(a: seq<Interval>, b: seq<Interval>)
    ensures CoversAll(a + b) == CoversAll(a) + CoversAll(b)
  {
    if a == [] {
      assert a + b == b;
    } else {
      assert (a + b)[1..] == a[1..] + b;
      CoversAllConcat(a[1..], b);
    }
  }

  lemma {:induction false} CoversAllMember(ivs: seq<Interval>, x: int)
    ensures x in CoversAll(ivs) <==> exists i :: 0 <= i < |ivs| && ivs[i].Contains(x)
  {
    if ivs != [] {
      CoversAllMember(ivs[1..], x);
      if exists i :: 0 <= i < |ivs| && ivs[i].Contains(x) {
        var i :| 0 <= i < |ivs| && ivs[i].Contains(x);
        if i > 0 {
          assert ivs[1..][i - 1] == ivs[i];
        }
      }
      if exists i :: 0 <= i < |ivs[1..]| && ivs[1..][i].Contains(x) {
        var i :| 0 <= i < |ivs[1..]| && ivs[1..][i].Contains(x);
        assert ivs[i + 1].Contains(x);
      }
    }
  }

  /** Listed in ascending order with a gap of at least one integer between
      consecutive intervals. */
  predicate Separated(ivs: seq<Interval>)
  {
    forall i, j :: 0 <= i < j < |ivs| ==> ivs[i].Hi() + 1 < ivs[j].Lo()
  }

  lemma SeparatedConcat(a: seq<Interval>, b: seq<Interval>, mid: int)
    requires Separated(a) && Separated(b)
    requires forall i :: 0 <= i < |a| ==> a[i].Hi() <= mid
    requires forall j :: 0 <= j < |b| ==> mid + 1 < b[j].Lo()
    ensures Separated(a + b)
  {
  }

  lemma OrientationSplit(ivs: seq<Interval>)
    requires ivs != []
    ensures AllIncreasing(ivs) ==> ivs[0].Increasing() && AllIncreasing(ivs[1..])
    ensures AllNonIncreasing(ivs) ==> ivs[0].start >= ivs[0].end && AllNonIncreasing(ivs[1..])
  {
  }

  lemma OrientationConcat(a: seq<Interval>, b: seq<Interval>)
    ensures AllIncreasing(a) && AllIncreasing(b) ==> AllIncreasing(a + b)
    ensures AllNonIncreasing(a) && AllNonIncreasing(b) ==> AllNonIncreasing(a + b)
  {
  }

  predicate AllIncreasing(ivs: seq<Interval>)
  {
    forall k :: 0 <= k < |ivs| ==> ivs[k].start <= ivs[k].end
  }

  predicate AllNonIncreasing(ivs: seq<Interval>)
  {
    forall k :: 0 <= k < |ivs| ==> ivs[k].start >= ivs[k].end
  }

  /** `first.union(*others)`: a left fold of `|`; fails as soon as one step
      finds no shared integer. */
  function UnionAll(first: Interval, others: seq<Interval>): (r: Result<Interval>)
    ensures r.Ok? <==> forall k :: 0 <= k < |others| ==> !((first.Covers() + CoversAll(others[..k])) !! others[k].Covers())
    ensures r.Err? ==> r.error == DomainError
    ensures r.Ok? ==> r.value.Covers() == first.Covers() + CoversAll(others)
    ensures r.Ok? && first.Increasing() ==> r.value.Increasing()
    decreases |others|
  {
    if others == [] then Ok(first)
    else match first.Union(others[0])
      case Err(e) =>
        assert others[..0] == [];
        Err(e)
      case Ok(u) =>
        assert forall k :: 1 <= k <= |others| ==>
                 first.Covers() + CoversAll(others[..k]) == u.Covers() + CoversAll(others[1..][..k - 1]) by {
          forall k | 1 <= k <= |others| {
            CoversAllPrefix(others, k);
          }
        }
        assert forall k :: 1 <= k < |others| ==> others[1..][k - 1] == others[k];
        UnionAll(u, others[1..])
  }

  /** The first k intervals cover the head and the next k - 1. */
  lemma CoversAllPrefix(ivs: seq<Interval>, k: nat)
    requires 1 <= k <= |ivs|
    ensures CoversAll(ivs[..k]) == ivs[0].Covers() + CoversAll(ivs[1..][..k - 1])
  {
    assert ivs[..k][1..] == ivs[1..][..k - 1];
  }

  /** `x` is covered by every one of the intervals. */
  predicate InAll(ivs: seq<Interval>, x: int)
  {
    forall k :: 0 <= k < |ivs| ==> ivs[k].Contains(x)
  }

  /** `first.intersection(*others)`: a left fold of `&`.  It fails exactly
      when no integer is common to all the operands. */
  function IntersectionAll(first: Interval, others: seq<Interval>): (r: Result<Interval>)
    ensures r.Ok? <==> exists x :: first.Contains(x) && InAll(others, x)
    ensures r.Err? ==> r.error == DomainError
    ensures r.Ok? ==> forall x :: r.value.Contains(x) <==> first.Contains(x) && InAll(others, x)
    ensures r.Ok? && first.Increasing() ==> r.value.Increasing()
    decreases |others|
  {
    if others == [] then
      assert first.Contains(first.Lo()) && InAll(others, first.Lo());
      Ok(first)
    else match first.Intersection(others[0])
      case Err(e) =>
        assert forall x :: InAll(others, x) ==> others[0].Contains(x);
        Err(e)
      case Ok(c) =>
        assert forall x :: InAll(others, x) <==> others[0].Contains(x) && InAll(others[1..], x) by {
          forall x ensures InAll(others, x) <==> others[0].Contains(x) && InAll(others[1..], x) {
            if others[0].Contains(x) && InAll(others[1..], x) {
              forall k | 1 <= k < |others| ensures others[k].Contains(x) {
                assert others[1..][k - 1] == others[k];
              }
            }
          }
        }
        IntersectionAll(c, others[1..])
  }

  /** Every piece minus `other`, the leftovers flattened in order. */
  function DifferenceEach(pieces: seq<Interval>, other: Interval): (r: seq<Interval>)
    ensures CoversAll(r) == CoversAll(pieces) - other.Covers()
    ensures forall k :: 0 <= k < |r| ==> r[k].IsDisjoint(other)
  {
    if pieces == [] then []
    else
      var head, rest := pieces[0].Difference(other), DifferenceEach(pieces[1..], other);
      CoversAllConcat(head, rest);
      head + rest
  }

  /** Every leftover lies inside the piece it came from, so a lower bound
      on the pieces bounds the leftovers too. */
  lemma {:induction false} DifferenceEachAbove(pieces: seq<Interval>, other: Interval, b: int)
    requires forall k :: 0 <= k < |pieces| ==> b <= pieces[k].Lo()
    ensures forall k :: 0 <= k < |DifferenceEach(pieces, other)| ==> b <= DifferenceEach(pieces, other)[k].Lo()
  {
    if pieces != [] {
      var head, rest := pieces[0].Difference(other), DifferenceEach(pieces[1..], other);
      assert DifferenceEach(pieces, other) == head + rest;
      assert forall k :: 0 <= k < |pieces[1..]| ==> pieces[1..][k] == pieces[k + 1];
      DifferenceEachAbove(pieces[1..], other, b);
      assert forall k :: 0 <= k < |head| ==> head[k].IsSubset(pieces[0]);
    }
  }

  /** Cutting keeps the pieces in ascending, gapped order. */
  lemma {:induction false} DifferenceEachSeparated(pieces: seq<Interval>, other: Interval)
    requires Separated(pieces)
    ensures Separated(DifferenceEach(pieces, other))
  {
    if pieces != [] {
      var head, rest := pieces[0].Difference(other), DifferenceEach(pieces[1..], other);
      assert DifferenceEach(pieces, other) == head + rest;
      assert Separated(pieces[1..]);
      DifferenceEachSeparated(pieces[1..], other);
      assert forall k :: 0 <= k < |pieces[1..]| ==> pieces[0].Hi() + 2 <= pieces[1..][k].Lo();
      DifferenceEachAbove(pieces[1..], other, pieces[0].Hi() + 2);
      assert forall k :: 0 <= k < |head| ==> head[k].IsSubset(pieces[0]);
      SeparatedConcat(head, rest, pieces[0].Hi());
    }
  }

  /** Cutting keeps every leftover running the same way as its piece. */
  lemma {:induction false} DifferenceEachOrientation(pieces: seq<Interval>, other: Interval)
    ensures AllIncreasing(pieces) ==> AllIncreasing(DifferenceEach(pieces, other))
    ensures AllNonIncreasing(pieces) ==> AllNonIncreasing(DifferenceEach(pieces, other))
  {
    if pieces != [] {
      var head, rest := pieces[0].Difference(other), DifferenceEach(pieces[1..], other);
      assert DifferenceEach(pieces, other) == head + rest;
      OrientationSplit(pieces);
      DifferenceEachOrientation(pieces[1..], other);
      OrientationConcat(head, rest);
    }
  }

  /** The fold behind `difference`: each operand in turn is cut out of all
      the pieces left so far. */
  function DifferenceFold(pieces: seq<Interval>, others: seq<Interval>): (r: seq<Interval>)
    ensures CoversAll(r) == CoversAll(pieces) - CoversAll(others)
    ensures Separated(pieces) ==> Separated(r)
    ensures AllIncreasing(pieces) ==> AllIncreasing(r)
    ensures AllNonIncreasing(pieces) ==> AllNonIncreasing(r)
    decreases |others|
  {
    if others == [] then pieces
    else
      assert Separated(pieces) ==> Separated(DifferenceEach(pieces, others[0])) by {
        if Separated(pieces) { DifferenceEachSeparated(pieces, others[0]); }
      }
      DifferenceEachOrientation(pieces, others[0]);
      DifferenceFold(DifferenceEach(pieces, others[0]), others[1..])
  }

  /** `first.difference(*others)`: the pieces of `first` no operand covers,
      lowest first, each running the same way as `first`. */
  function DifferenceAll(first: Interval, others: seq<Interval>): (r: seq<Interval>)
    ensures CoversAll(r) == first.Covers() - CoversAll(others)
    ensures Separated(r)
    ensures forall k :: 0 <= k < |r| ==> first.OrientedLike(r[k])
  {
    assert CoversAll([first]) == first.Covers();
    DifferenceFold([first], others)
  }
}
