/** Lists of ranges as IntegerSet stores them, and the consolidation pass
    that brings any list of (start, end) pairs into canonical form: every
    range increasing, sorted, and separated from the next by at least one
    missing integer.  Canonical forms are unique, so two canonical lists are
    equal exactly when they cover the same integers. */
module RangeLists {
  import opened Intervals

  /** The invariant of IntegerSet's storage. */
  predicate Canonical(rs: seq<Interval>)
  {
    AllIncreasing(rs) && Separated(rs)
  }

  /** The same range stored increasing. */
  function Normalize(iv: Interval): (r: Interval)
    ensures r.Increasing() && r.Covers() == iv.Covers()
  {
    Interval(iv.Lo(), iv.Hi())
  }

  function NormalizeAll(ivs: seq<Interval>): (r: seq<Interval>)
    ensures |r| == |ivs| && AllIncreasing(r)
    ensures forall k :: 0 <= k < |r| ==> r[k].Covers() == ivs[k].Covers()
    ensures CoversAll(r) == CoversAll(ivs)
  {
    if ivs == [] then [] else [Normalize(ivs[0])] + NormalizeAll(ivs[1..])
  }

  /** The sort order of consolidation: by start, ties by end. */
  predicate KeyLeq(a: Interval, b: Interval)
  {
    a.start < b.start || (a.start == b.start && a.end <= b.end)
  }

  predicate Sorted(rs: seq<Interval>)
  {
    forall i, j :: 0 <= i < j < |rs| ==> KeyLeq(rs[i], rs[j])
  }

  function Insert(x: Interval, rs: seq<Interval>): (r: seq<Interval>)
    requires Sorted(rs)
    ensures Sorted(r) && multiset(r) == multiset(rs) + multiset{x}
  {
    if rs == [] then [x]
    else if KeyLeq(x, rs[0]) then [x] + rs
    else
      var tail := Insert(x, rs[1..]);
      assert rs == [rs[0]] + rs[1..];
      InsertBehind(rs[0], x, rs[1..], tail);
      [rs[0]] + tail
  }

  /** A head that precedes both x and the rest stays in front of any
      sorted arrangement of them. */
  lemma InsertBehind(h: Interval, x: Interval, rest: seq<Interval>, tail: seq<Interval>)
    requires Sorted([h] + rest) && !KeyLeq(x, h)
    requires Sorted(tail) && multiset(tail) == multiset(rest) + multiset{x}
    ensures Sorted([h] + tail)
  {
    forall k | 0 <= k < |tail|
      ensures KeyLeq(h, tail[k])
    {
      assert tail[k] in multiset(tail);
      if tail[k] != x {
        assert tail[k] in multiset(rest);
        var j :| 0 <= j < |rest| && rest[j] == tail[k];
        assert ([h] + rest)[0] == h && ([h] + rest)[j + 1] == rest[j];
        assert KeyLeq(([h] + rest)[0], ([h] + rest)[j + 1]);
      }
    }
    var r := [h] + tail;
    assert forall k :: 1 <= k < |r| ==> r[k] == tail[k - 1];
  }

  /** The library sort consolidation relies on, as an insertion sort. */
  function Sort(rs: seq<Interval>): (r: seq<Interval>)
    ensures Sorted(r) && multiset(r) == multiset(rs)
  {
    if rs == [] then []
    else
      assert rs == [rs[0]] + rs[1..];
      Insert(rs[0], Sort(rs[1..]))
  }

  /** Step 1 and 2 of consolidation: every pair increasing, then sorted. */
  function SortedPairs(raw: seq<Interval>): (s: seq<Interval>)
    ensures Sorted(s) && AllIncreasing(s)
    ensures multiset(s) == multiset(NormalizeAll(raw))
    ensures CoversAll(s) == CoversAll(raw)
  {
    var s := Sort(NormalizeAll(raw));
    CoversAllPermutation(s, NormalizeAll(raw));
    assert AllIncreasing(s) by {
      forall k | 0 <= k < |s| ensures s[k].Increasing() {
        assert s[k] in multiset(NormalizeAll(raw));
      }
    }
    s
  }

  /** What a list covers does not depend on the order of its ranges. */
  lemma {:induction false} CoversAllPermutation(a: seq<Interval>, b: seq<Interval>)
    requires multiset(a) == multiset(b)
    ensures CoversAll(a) == CoversAll(b)
  {
    forall x ensures x in CoversAll(a) ==> x in CoversAll(b) {
      CoversAllMember(a, x);
      CoversAllMember(b, x);
      if x in CoversAll(a) {
        var i :| 0 <= i < |a| && a[i].Contains(x);
        assert a[i] in multiset(b);
        var j :| 0 <= j < |b| && b[j] == a[i];
      }
    }
    forall x ensures x in CoversAll(b) ==> x in CoversAll(a) {
      CoversAllMember(a, x);
      CoversAllMember(b, x);
      if x in CoversAll(b) {
        var j :| 0 <= j < |b| && b[j].Contains(x);
        assert b[j] in multiset(a);
        var i :| 0 <= i < |a| && a[i] == b[j];
      }
    }
  }

  lemma CoversAllAppend(a: seq<Interval>, x: Interval)
    ensures CoversAll(a + [x]) == CoversAll(a) + x.Covers()
  {
    CoversAllConcat(a, [x]);
    assert CoversAll([x]) == x.Covers();
  }

  /** Consolidation: normalize every pair, sort, then sweep left to right,
      merging the next range into the running one whenever it overlaps it
      or starts right after it. */
  method Consolidate(raw: seq<Interval>) returns (r: seq<Interval>)
    ensures Canonical(r)
    ensures CoversAll(r) == CoversAll(raw)
  {
    var s := SortedPairs(raw);
    if |s| == 0 {
      return [];
    }
    r := [];
    var run := s[0];
    var i := 1;
    SweepStart(s);
    while i < |s|
      invariant SweepInv(s, i, r, run)
    {
      var next := s[i];
      if next.start <= run.end + 1 {
        SweepMerge(s, i, r, run);
        run := Interval(run.start, Max(run.end, next.end));
      } else {
        SweepEmit(s, i, r, run);
        r := r + [run];
        run := next;
      }
      i := i + 1;
    }
    assert s[..i] == s;
    CoversAllAppend(r, run);
    r := r + [run];
  }

  /** What the sweep knows after the first i ranges of s: the emitted ranges
      and the running one are canonical and cover exactly those i ranges,
      and no later range starts before the running one. */
  ghost predicate SweepInv(s: seq<Interval>, i: int, r: seq<Interval>, run: Interval)
  {
    && 1 <= i <= |s|
    && Canonical(r + [run])
    && (i < |s| ==> run.start <= s[i].start)
    && CoversAll(r) + run.Covers() == CoversAll(s[..i])
  }

  lemma SweepStart(s: seq<Interval>)
    requires Sorted(s) && AllIncreasing(s) && s != []
    ensures SweepInv(s, 1, [], s[0])
  {
    assert s[..1] == [s[0]];
    assert [] + [s[0]] == [s[0]];
    CoversAllAppend([], s[0]);
  }

  /** Sweep step: the next range overlaps the running one or starts right
      after it, so the running range grows to the larger end. */
  lemma SweepMerge(s: seq<Interval>, i: int, r: seq<Interval>, run: Interval)
    requires Sorted(s) && AllIncreasing(s) && SweepInv(s, i, r, run)
    requires i < |s| && s[i].start <= run.end + 1
    ensures SweepInv(s, i + 1, r, Interval(run.start, Max(run.end, s[i].end)))
  {
    var next := s[i];
    assert s[..i + 1] == s[..i] + [next];
    CoversAllAppend(s[..i], next);
    var merged := Interval(run.start, Max(run.end, next.end));
    var before, after := r + [run], r + [merged];
    assert before[|r|] == run;
    assert forall k :: 0 <= k < |r| ==> after[k] == before[k];
    assert forall k :: 0 <= k < |r| ==> after[k].Hi() + 1 < merged.Lo() by {
      assert forall k :: 0 <= k < |r| ==> before[k].Hi() + 1 < before[|r|].Lo();
    }
    assert merged.Covers() == run.Covers() + next.Covers();
  }

  /** Sweep step: the next range starts past a gap, so the running range is
      final and the next one becomes the running range. */
  lemma SweepEmit(s: seq<Interval>, i: int, r: seq<Interval>, run: Interval)
    requires Sorted(s) && AllIncreasing(s) && SweepInv(s, i, r, run)
    requires i < |s| && run.end + 1 < s[i].start
    ensures SweepInv(s, i + 1, r + [run], s[i])
  {
    var next := s[i];
    assert s[..i + 1] == s[..i] + [next];
    CoversAllAppend(s[..i], next);
    CoversAllAppend(r, run);
    var before := r + [run];
    assert forall k :: 0 <= k < |before| ==> before[k].Hi() <= run.end by {
      assert forall k :: 0 <= k < |r| ==> before[k].Hi() + 1 < before[|r|].Lo();
    }
    SeparatedConcat(before, [next], run.end);
  }

  /** The least integer a canonical list covers is the start of its first
      range, and its first range ends right before a missing integer. */
  lemma {:induction false} CanonicalBounds(rs: seq<Interval>)
    requires Canonical(rs) && rs != []
    ensures forall x :: x in CoversAll(rs[1..]) ==> rs[0].end + 1 < x
    ensures CoversAll(rs) == rs[0].Covers() + CoversAll(rs[1..])
    ensures rs[0].Covers() !! CoversAll(rs[1..])
  {
    forall x | x in CoversAll(rs[1..]) ensures rs[0].end + 1 < x {
      CoversAllMember(rs[1..], x);
      var i :| 0 <= i < |rs[1..]| && rs[1..][i].Contains(x);
      assert rs[i + 1] == rs[1..][i];
    }
  }

  lemma CoversAllEmpty(rs: seq<Interval>)
    ensures CoversAll(rs) == {} <==> rs == []
  {
    if rs != [] {
      assert rs[0].Lo() in rs[0].Covers();
    }
  }

  /** Canonical forms are unique: equal coverage means equal lists. */
  lemma {:induction false} CanonicalUnique(a: seq<Interval>, b: seq<Interval>)
    requires Canonical(a) && Canonical(b)
    requires CoversAll(a) == CoversAll(b)
    ensures a == b
  {
    CoversAllEmpty(a);
    CoversAllEmpty(b);
    if a != [] && b != [] {
      CanonicalBounds(a);
      CanonicalBounds(b);
      assert a[0].start in CoversAll(b) && b[0].start in CoversAll(a);
      assert a[0].start == b[0].start;
      assert a[0].end + 1 !in CoversAll(a) && b[0].end + 1 !in CoversAll(b);
      var a0, b0 := a[0], b[0];
      assert a0.Contains(b0.end + 1) ==> b0.end + 1 in CoversAll(a);
      assert b0.Contains(a0.end + 1) ==> a0.end + 1 in CoversAll(b);
      assert a0 == b0;
      assert CoversAll(a[1..]) == CoversAll(a) - a[0].Covers();
      assert CoversAll(b[1..]) == CoversAll(b) - b[0].Covers();
      assert Canonical(a[1..]) && Canonical(b[1..]);
      CanonicalUnique(a[1..], b[1..]);
      assert a == [a[0]] + a[1..] && b == [b[0]] + b[1..];
    }
  }

  /** Membership by scanning the ranges, as `in` does. */
  predicate RangesContain(rs: seq<Interval>, x: int)
    ensures RangesContain(rs, x) <==> x in CoversAll(rs)
  {
    rs != [] && (rs[0].Contains(x) || RangesContain(rs[1..], x))
  }

  /** Every range of rs cut down to iv; ranges that miss iv drop out. */
  function Clip(rs: seq<Interval>, iv: Interval): (r: seq<Interval>)
    ensures CoversAll(r) == CoversAll(rs) * iv.Covers()
  {
    if rs == [] then []
    else
      var rest := Clip(rs[1..], iv);
      match rs[0].Intersection(iv)
      case Ok(piece) => [piece] + rest
      case Err(_) => rest
  }

  /** The pieces two range lists share: a clipped to each range of b. */
  function Meet(a: seq<Interval>, b: seq<Interval>): (r: seq<Interval>)
    ensures CoversAll(r) == CoversAll(a) * CoversAll(b)
  {
    if b == [] then []
    else
      var rest := Meet(a, b[1..]);
      CoversAllConcat(Clip(a, b[0]), rest);
      Clip(a, b[0]) + rest
  }

  /** A canonical list stays canonical when ranges are cut out of it, so the
      difference needs no further consolidation. */
  lemma DifferenceKeepsCanonical(a: seq<Interval>, b: seq<Interval>)
    requires Canonical(a)
    ensures Canonical(DifferenceFold(a, b))
    ensures CoversAll(DifferenceFold(a, b)) == CoversAll(a) - CoversAll(b)
  {
  }

  /** Subset test on lists: nothing of a is left once b is cut out. */
  predicate Within(a: seq<Interval>, b: seq<Interval>)
    ensures Within(a, b) <==> CoversAll(a) <= CoversAll(b)
  {
    CoversAllEmpty(DifferenceFold(a, b));
    assert CoversAll(a) <= CoversAll(b) <==> CoversAll(a) - CoversAll(b) == {} by {
      if CoversAll(a) - CoversAll(b) == {} {
        forall x | x in CoversAll(a) ensures x in CoversAll(b) {
          assert x !in CoversAll(a) - CoversAll(b);
        }
      }
    }
    DifferenceFold(a, b) == []
  }

  /** Disjointness test on lists: they share no piece. */
  predicate Apart(a: seq<Interval>, b: seq<Interval>)
    ensures Apart(a, b) <==> CoversAll(a) !! CoversAll(b)
  {
    CoversAllEmpty(Meet(a, b));
    assert CoversAll(a) !! CoversAll(b) <==> CoversAll(a) * CoversAll(b) == {} by {
      if CoversAll(a) * CoversAll(b) == {} {
        forall x | x in CoversAll(a) ensures x !in CoversAll(b) {
          assert x !in CoversAll(a) * CoversAll(b);
        }
      }
    }
    Meet(a, b) == []
  }

  /** The integers lo, lo + 1, ..., hi in ascending order. */
  function Span(lo: int, hi: int): (r: seq<int>)
    ensures forall x :: x in r <==> lo <= x <= hi
    ensures forall i, j :: 0 <= i < j < |r| ==> r[i] < r[j]
    decreases hi - lo
  {
    if hi < lo then []
    else
      var rest := Span(lo + 1, hi);
      assert forall j :: 0 <= j < |rest| ==> rest[j] in rest;
      [lo] + rest
  }

  predicate Ascending(xs: seq<int>)
  {
    forall i, j :: 0 <= i < j < |xs| ==> xs[i] < xs[j]
  }

  /** Iteration: every covered integer, range by range. */
  function Members(rs: seq<Interval>): (r: seq<int>)
    ensures forall x :: x in r <==> x in CoversAll(rs)
  {
    if rs == [] then [] else Span(rs[0].Lo(), rs[0].Hi()) + Members(rs[1..])
  }

  /** On a canonical list iteration is ascending, so it yields each covered
      integer exactly once. */
  lemma {:induction false} MembersAscending(rs: seq<Interval>)
    requires Canonical(rs)
    ensures Ascending(Members(rs))
  {
    if rs != [] {
      CanonicalBounds(rs);
      assert Canonical(rs[1..]);
      MembersAscending(rs[1..]);
      var head, tail := Span(rs[0].Lo(), rs[0].Hi()), Members(rs[1..]);
      forall i, j | 0 <= i < |head| <= j < |head| + |tail|
        ensures (head + tail)[i] < (head + tail)[j]
      {
        assert head[i] in head && tail[j - |head|] in tail;
      }
    }
  }

  /** The lowest covered integer of a canonical list is its first start. */
  lemma {:induction false} CanonicalLeast(rs: seq<Interval>)
    requires Canonical(rs) && rs != []
    ensures rs[0].start in CoversAll(rs)
    ensures forall x :: x in CoversAll(rs) ==> rs[0].start <= x
  {
    CanonicalBounds(rs);
  }
}
