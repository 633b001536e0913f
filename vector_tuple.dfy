/** VectorTuple: a hashable tuple of integers with elementwise arithmetic,
    a Manhattan magnitude and neighbour enumeration on a bounded grid.
    Elementwise operations pair elements the way `zip` does, so a result is
    as long as the shorter operand. */
module VectorTuples {
  import opened Errors

  type Vector = seq<int>

  function Min(a: int, b: int): int { if a <= b then a else b }
  function Abs(x: int): nat { if x < 0 then -x else x }

  /** One argument of the constructor: an integer, a tuple, or any other
      iterable of integers (a generator, a list). */
  datatype Arg = Num(n: int) | Tuple(items: seq<int>) | Iterable(items: seq<int>)

  predicate AllNums(args: seq<Arg>)
  {
    forall k :: 0 <= k < |args| ==> args[k].Num?
  }

  function Nums(args: seq<Arg>): (v: Vector)
    requires AllNums(args)
    ensures |v| == |args| && forall k :: 0 <= k < |v| ==> v[k] == args[k].n
  {
    if args == [] then [] else [args[0].n] + Nums(args[1..])
  }

  /** VectorTuple(*args): a single argument that is not a tuple supplies the
      elements; otherwise the arguments themselves are the elements.  A
      single integer is not iterable, and a tuple among the elements would
      make a nested tuple, which is not a vector of integers. */
  function New(args: seq<Arg>): (r: Result<Vector>)
    ensures |args| == 1 && args[0].Iterable? ==> r == Ok(args[0].items)
    ensures |args| == 1 && args[0].Num? ==> r == Err(NotIterable)
    ensures (|args| != 1 || args[0].Tuple?) ==> (r.Ok? <==> AllNums(args))
    ensures (|args| != 1 || args[0].Tuple?) && r.Ok? ==>
              |r.value| == |args| && forall k :: 0 <= k < |args| ==> r.value[k] == args[k].n
    ensures r.Err? ==> r.error == NotIterable || r.error == NotAnInteger
  {
    if |args| == 1 && !args[0].Tuple? then
      match args[0]
      case Iterable(items) => Ok(items)
      case Num(_) => Err(NotIterable)
    else if AllNums(args) then Ok(Nums(args))
    else Err(NotAnInteger)
  }

  /** `+`: elementwise sum over the zipped pairs. */
  function Add(a: Vector, b: Vector): (r: Vector)
    ensures |r| == Min(|a|, |b|)
    ensures forall k :: 0 <= k < |r| ==> r[k] == a[k] + b[k]
  {
    if a == [] || b == [] then [] else [a[0] + b[0]] + Add(a[1..], b[1..])
  }

  /** `-`: elementwise difference over the zipped pairs. */
  function Sub(a: Vector, b: Vector): (r: Vector)
    ensures |r| == Min(|a|, |b|)
    ensures forall k :: 0 <= k < |r| ==> r[k] == a[k] - b[k]
  {
    if a == [] || b == [] then [] else [a[0] - b[0]] + Sub(a[1..], b[1..])
  }

  /** `*`: elementwise product over the zipped pairs. */
  function Mul(a: Vector, b: Vector): (r: Vector)
    ensures |r| == Min(|a|, |b|)
    ensures forall k :: 0 <= k < |r| ==> r[k] == a[k] * b[k]
  {
    if a == [] || b == [] then [] else [a[0] * b[0]] + Mul(a[1..], b[1..])
  }

  /** Python's `//` on integers: the quotient rounded toward minus infinity. */
  function FloorDiv(x: int, y: int): int
    requires y != 0
  {
    if y > 0 || x % y == 0 then x / y else x / y - 1
  }

  /** Python's `%` on integers: the remainder takes the divisor's sign and
      completes the floor quotient. */
  function FloorMod(x: int, y: int): (r: int)
    requires y != 0
    ensures y > 0 ==> 0 <= r < y
    ensures y < 0 ==> y < r <= 0
    ensures x == FloorDiv(x, y) * y + r
  {
    var m := x % y;
    assert x == (x / y) * y + m;
    if y > 0 || m == 0 then m
    else
      assert (x / y - 1) * y == (x / y) * y - y;
      m + y
  }

  /** `%`: elementwise floor remainder; a zero divisor among the zipped
      pairs raises ZeroDivisionError. */
  function Mod(a: Vector, b: Vector): (r: Result<Vector>)
    ensures r.Err? <==> exists k :: 0 <= k < Min(|a|, |b|) && b[k] == 0
    ensures r.Err? ==> r.error == ZeroDivision
    ensures r.Ok? ==> |r.value| == Min(|a|, |b|)
    ensures r.Ok? ==> forall k :: 0 <= k < |r.value| ==> b[k] != 0 && r.value[k] == FloorMod(a[k], b[k])
  {
    if a == [] || b == [] then Ok([])
    else if b[0] == 0 then Err(ZeroDivision)
    else
      match Mod(a[1..], b[1..])
      case Err(e) =>
        assert exists k :: 0 <= k < Min(|a|, |b|) - 1 && b[1..][k] == 0;
        var k :| 0 <= k < Min(|a|, |b|) - 1 && b[1..][k] == 0;
        assert b[k + 1] == 0;
        Err(e)
      case Ok(rest) =>
        assert forall k :: 1 <= k < Min(|a|, |b|) ==> b[1..][k - 1] == b[k];
        Ok([FloorMod(a[0], b[0])] + rest)
  }

  /** `abs()`: elementwise absolute value. */
  function AbsAll(v: Vector): (r: Vector)
    ensures |r| == |v|
    ensures forall k :: 0 <= k < |r| ==> r[k] == Abs(v[k])
  {
    if v == [] then [] else [Abs(v[0])] + AbsAll(v[1..])
  }

  function Sum(v: Vector): int
  {
    if v == [] then 0 else v[0] + Sum(v[1..])
  }

  /** `manhattan()`: the sum of the absolute values. */
  function Manhattan(v: Vector): (m: nat)
    ensures forall k :: 0 <= k < |v| ==> Abs(v[k]) <= m
  {
    SumOfNonNegative(AbsAll(v));
    Sum(AbsAll(v))
  }

  lemma {:induction false} SumOfNonNegative(v: Vector)
    requires forall k :: 0 <= k < |v| ==> v[k] >= 0
    ensures Sum(v) >= 0
    ensures Sum(v) == 0 <==> forall k :: 0 <= k < |v| ==> v[k] == 0
    ensures forall k :: 0 <= k < |v| ==> v[k] <= Sum(v)
  {
    if v != [] {
      SumOfNonNegative(v[1..]);
      assert forall k :: 1 <= k < |v| ==> v[1..][k - 1] == v[k];
    }
  }

  /** The magnitude is the first absolute value plus that of the rest. */
  lemma ManhattanCons(v: Vector)
    requires v != []
    ensures Manhattan(v) == Abs(v[0]) + Manhattan(v[1..])
  {
    assert AbsAll(v)[1..] == AbsAll(v[1..]);
  }

  /** The magnitude is zero exactly for the zero vector. */
  lemma {:induction false} ManhattanZero(v: Vector)
    ensures Manhattan(v) == 0 <==> forall k :: 0 <= k < |v| ==> v[k] == 0
  {
    SumOfNonNegative(AbsAll(v));
  }

  /** The magnitude of a sum is at most the sum of the magnitudes. */
  lemma {:induction false} ManhattanTriangle(a: Vector, b: Vector)
    ensures Manhattan(Add(a, b)) <= Manhattan(a) + Manhattan(b)
  {
    if a != [] && b != [] {
      ManhattanCons(a);
      ManhattanCons(b);
      ManhattanCons(Add(a, b));
      assert Add(a, b)[1..] == Add(a[1..], b[1..]);
      ManhattanTriangle(a[1..], b[1..]);
    }
  }

  /** Subtracting what was added gives back the operand, cut to the
      shorter length. */
  lemma AddSubInverse(a: Vector, b: Vector)
    ensures Sub(Add(a, b), b) == a[..Min(|a|, |b|)]
  {
    var back := Sub(Add(a, b), b);
    assert forall k :: 0 <= k < |back| ==> back[k] == Add(a, b)[k] - b[k] == a[k];
  }

  /** Python's `range(start, stop)` with step 1: start <= x < stop. */
  datatype PyRange = PyRange(start: int, stop: int)
  {
    predicate Contains(x: int) { start <= x < stop }
  }

  /** `within_range(*ranges)`: every zipped element lies in its range;
      elements past the last range are not checked. */
  predicate WithinRange(v: Vector, ranges: seq<PyRange>)
    ensures WithinRange(v, ranges) <==>
              forall k :: 0 <= k < |v| && k < |ranges| ==> ranges[k].Contains(v[k])
  {
    v == [] || ranges == [] || (ranges[0].Contains(v[0]) && WithinRange(v[1..], ranges[1..]))
  }

  /** The bounds a grid of the given shape gives to a position. */
  function GridRanges(rows: nat, cols: nat): seq<PyRange>
  {
    [PyRange(0, rows), PyRange(0, cols)]
  }

  /** The steps v + d, in the order of steps, that land inside the grid. */
  function Neighbours(v: Vector, steps: seq<Vector>, rows: nat, cols: nat): (r: seq<Vector>)
    ensures |r| <= |steps|
  {
    if steps == [] then []
    else
      var next := Add(v, steps[0]);
      var rest := Neighbours(v, steps[1..], rows, cols);
      if WithinRange(next, GridRanges(rows, cols)) then [next] + rest else rest
  }

  /** East, north, west, south. */
  const OrthogonalSteps: seq<Vector> := [[0, 1], [-1, 0], [0, -1], [1, 0]]

  /** North-east, north-west, south-west, south-east. */
  const DiagonalSteps: seq<Vector> := [[-1, 1], [-1, -1], [1, -1], [1, 1]]

  /** `orthogonals(grid)`, with the grid's shape passed as rows and cols. */
  function Orthogonals(v: Vector, rows: nat, cols: nat): (r: seq<Vector>)
    ensures |r| <= 4
  {
    Neighbours(v, OrthogonalSteps, rows, cols)
  }

  /** `diagonals(grid)`, with the grid's shape passed as rows and cols. */
  function Diagonals(v: Vector, rows: nat, cols: nat): (r: seq<Vector>)
    ensures |r| <= 4
  {
    Neighbours(v, DiagonalSteps, rows, cols)
  }

  predicate InGrid(x: Vector, rows: nat, cols: nat)
  {
    |x| == 2 && 0 <= x[0] < rows && 0 <= x[1] < cols
  }

  /** A candidate kept when it lies in the grid. */
  function Keep(x: Vector, rows: nat, cols: nat): seq<Vector>
  {
    if InGrid(x, rows, cols) then [x] else []
  }

  /** One step of the enumeration, for a step that yields a point. */
  lemma NeighboursStep(v: Vector, steps: seq<Vector>, rows: nat, cols: nat)
    requires steps != [] && |Add(v, steps[0])| == 2
    ensures Neighbours(v, steps, rows, cols) == Keep(Add(v, steps[0]), rows, cols) + Neighbours(v, steps[1..], rows, cols)
  {
    var next := Add(v, steps[0]);
    assert WithinRange(next, GridRanges(rows, cols)) == InGrid(next, rows, cols);
  }

  /** On the plane, enumerating four steps keeps each candidate, in order,
      exactly when it lies in the grid. */
  lemma {:induction false} NeighboursOfPoint(v: Vector, steps: seq<Vector>, rows: nat, cols: nat)
    requires |v| == 2 && |steps| == 4 && forall k :: 0 <= k < 4 ==> |steps[k]| == 2
    ensures Neighbours(v, steps, rows, cols)
              == Keep(Add(v, steps[0]), rows, cols) + Keep(Add(v, steps[1]), rows, cols)
                 + Keep(Add(v, steps[2]), rows, cols) + Keep(Add(v, steps[3]), rows, cols)
  {
    var s1, s2, s3 := steps[1..], steps[2..], steps[3..];
    assert s1[0] == steps[1] && s2[0] == steps[2] && s3[0] == steps[3];
    assert s1[1..] == s2 && s2[1..] == s3 && s3[1..] == [];
    var k0, k1 := Keep(Add(v, steps[0]), rows, cols), Keep(Add(v, steps[1]), rows, cols);
    var k2, k3 := Keep(Add(v, steps[2]), rows, cols), Keep(Add(v, steps[3]), rows, cols);
    NeighboursStep(v, s3, rows, cols);
    assert Neighbours(v, s3, rows, cols) == k3;
    NeighboursStep(v, s2, rows, cols);
    NeighboursStep(v, s1, rows, cols);
    NeighboursStep(v, steps, rows, cols);
    assert Neighbours(v, steps, rows, cols) == k0 + (k1 + (k2 + k3));
  }

  lemma Manhattan2(d: Vector)
    requires |d| == 2
    ensures Manhattan(d) == Abs(d[0]) + Abs(d[1])
  {
    ManhattanCons(d);
    ManhattanCons(d[1..]);
  }

  /** The step d takes v to the point (x, y). */
  lemma Move(v: Vector, d: Vector, x: int, y: int)
    requires |v| == 2 && |d| == 2 && v[0] + d[0] == x && v[1] + d[1] == y
    ensures Add(v, d) == [x, y]
  {
    PointEq(Add(v, d), x, y);
  }

  /** The four orthogonal candidates of a point, east first. */
  lemma OrthogonalCandidates(v: Vector, rows: nat, cols: nat)
    requires |v| == 2
    ensures Orthogonals(v, rows, cols)
              == Keep([v[0], v[1] + 1], rows, cols) + Keep([v[0] - 1, v[1]], rows, cols)
                 + Keep([v[0], v[1] - 1], rows, cols) + Keep([v[0] + 1, v[1]], rows, cols)
  {
    OrthogonalMoves(v);
    NeighboursOfPoint(v, OrthogonalSteps, rows, cols);
  }

  /** The orthogonal steps as points reached from v. */
  lemma OrthogonalMoves(v: Vector)
    requires |v| == 2
    ensures forall k :: 0 <= k < 4 ==> |OrthogonalSteps[k]| == 2
    ensures Add(v, OrthogonalSteps[0]) == [v[0], v[1] + 1]
    ensures Add(v, OrthogonalSteps[1]) == [v[0] - 1, v[1]]
    ensures Add(v, OrthogonalSteps[2]) == [v[0], v[1] - 1]
    ensures Add(v, OrthogonalSteps[3]) == [v[0] + 1, v[1]]
  {
    Move(v, OrthogonalSteps[0], v[0], v[1] + 1);
    Move(v, OrthogonalSteps[1], v[0] - 1, v[1]);
    Move(v, OrthogonalSteps[2], v[0], v[1] - 1);
    Move(v, OrthogonalSteps[3], v[0] + 1, v[1]);
  }

  /** The four diagonal candidates of a point, north-east first. */
  lemma DiagonalCandidates(v: Vector, rows: nat, cols: nat)
    requires |v| == 2
    ensures Diagonals(v, rows, cols)
              == Keep([v[0] - 1, v[1] + 1], rows, cols) + Keep([v[0] - 1, v[1] - 1], rows, cols)
                 + Keep([v[0] + 1, v[1] - 1], rows, cols) + Keep([v[0] + 1, v[1] + 1], rows, cols)
  {
    DiagonalMoves(v);
    NeighboursOfPoint(v, DiagonalSteps, rows, cols);
  }

  /** The diagonal steps as points reached from v. */
  lemma DiagonalMoves(v: Vector)
    requires |v| == 2
    ensures forall k :: 0 <= k < 4 ==> |DiagonalSteps[k]| == 2
    ensures Add(v, DiagonalSteps[0]) == [v[0] - 1, v[1] + 1]
    ensures Add(v, DiagonalSteps[1]) == [v[0] - 1, v[1] - 1]
    ensures Add(v, DiagonalSteps[2]) == [v[0] + 1, v[1] - 1]
    ensures Add(v, DiagonalSteps[3]) == [v[0] + 1, v[1] + 1]
  {
    Move(v, DiagonalSteps[0], v[0] - 1, v[1] + 1);
    Move(v, DiagonalSteps[1], v[0] - 1, v[1] - 1);
    Move(v, DiagonalSteps[2], v[0] + 1, v[1] - 1);
    Move(v, DiagonalSteps[3], v[0] + 1, v[1] + 1);
  }

  /** The points at Manhattan distance 1 from v are its four orthogonal
      moves. */
  lemma UnitStep(x: Vector, v: Vector)
    requires |x| == 2 && |v| == 2
    ensures Manhattan(Sub(x, v)) == 1 <==>
              x == [v[0], v[1] + 1] || x == [v[0] - 1, v[1]] || x == [v[0], v[1] - 1] || x == [v[0] + 1, v[1]]
  {
    var d := Sub(x, v);
    Manhattan2(d);
    assert d[0] == x[0] - v[0] && d[1] == x[1] - v[1];
    AbsSumOne(d[0], d[1]);
    PointEq(x, v[0], v[1] + 1);
    PointEq(x, v[0] - 1, v[1]);
    PointEq(x, v[0], v[1] - 1);
    PointEq(x, v[0] + 1, v[1]);
  }

  lemma AbsSumOne(a: int, b: int)
    ensures Abs(a) + Abs(b) == 1 <==>
              (a == 0 && b == 1) || (a == -1 && b == 0) || (a == 0 && b == -1) || (a == 1 && b == 0)
  {
  }

  lemma PointEq(x: Vector, a: int, b: int)
    requires |x| == 2
    ensures x == [a, b] <==> x[0] == a && x[1] == b
  {
    assert x == [x[0], x[1]];
  }

  /** For a point of the plane, the orthogonal neighbours are exactly the
      in-grid positions at Manhattan distance 1. */
  lemma {:induction false} OrthogonalsExact(v: Vector, rows: nat, cols: nat)
    requires |v| == 2
    ensures forall x :: x in Orthogonals(v, rows, cols) <==> InGrid(x, rows, cols) && Manhattan(Sub(x, v)) == 1
  {
    OrthogonalCandidates(v, rows, cols);
    forall x ensures x in Orthogonals(v, rows, cols) <==> InGrid(x, rows, cols) && Manhattan(Sub(x, v)) == 1 {
      if |x| == 2 {
        UnitStep(x, v);
      } else {
        assert x !in Orthogonals(v, rows, cols);
      }
    }
  }

  /** The diagonal neighbours are exactly the in-grid positions that differ
      by one in both coordinates. */
  lemma {:induction false} DiagonalsExact(v: Vector, rows: nat, cols: nat)
    requires |v| == 2
    ensures forall x :: x in Diagonals(v, rows, cols) <==>
              InGrid(x, rows, cols) && Abs(x[0] - v[0]) == 1 && Abs(x[1] - v[1]) == 1
  {
    DiagonalCandidates(v, rows, cols);
    forall x ensures x in Diagonals(v, rows, cols) <==>
                     InGrid(x, rows, cols) && Abs(x[0] - v[0]) == 1 && Abs(x[1] - v[1]) == 1 {
      if |x| == 2 {
        assert x == [x[0], x[1]];
      }
    }
  }

  /** Away from the border all four neighbours come out, in order. */
  lemma {:induction false} InteriorOrder(v: Vector, rows: nat, cols: nat)
    requires |v| == 2 && 1 <= v[0] && v[0] + 1 < rows && 1 <= v[1] && v[1] + 1 < cols
    ensures Orthogonals(v, rows, cols) == [[v[0], v[1] + 1], [v[0] - 1, v[1]], [v[0], v[1] - 1], [v[0] + 1, v[1]]]
    ensures Diagonals(v, rows, cols) == [[v[0] - 1, v[1] + 1], [v[0] - 1, v[1] - 1], [v[0] + 1, v[1] - 1], [v[0] + 1, v[1] + 1]]
  {
    OrthogonalCandidates(v, rows, cols);
    DiagonalCandidates(v, rows, cols);
  }

  lemma ArithmeticScenarios()
    ensures Add([1, 1], [1, 2]) == [2, 3]
    ensures Add([1, 2, 3], [10, 20]) == [11, 22]
    ensures Mod([7, -7, 7], [3, 3, -3]) == Ok([1, 2, -2])
    ensures Mod([1, 2], [0, 1]) == Err(ZeroDivision)
    ensures Manhattan([0, 0]) == 0 && Manhattan([-2, -2]) == 4
    ensures Manhattan([2, 2]) == 4 && Manhattan([2, -2]) == 4
  {
    assert FloorMod(7, 3) == 1 && FloorMod(-7, 3) == 2 && FloorMod(7, -3) == -2;
    var m := Mod([7, -7, 7], [3, 3, -3]);
    assert m.Ok? && m.value == [1, 2, -2];
    Manhattan2([0, 0]);
    Manhattan2([-2, -2]);
    Manhattan2([2, 2]);
    Manhattan2([2, -2]);
  }

  lemma ConstructorScenarios()
    ensures New([Num(1), Num(2)]) == Ok([1, 2])
    ensures New([Iterable([3, 4, 5])]) == Ok([3, 4, 5])
    ensures New([]) == Ok([])
    ensures New([Num(7)]) == Err(NotIterable)
    ensures New([Tuple([1, 2])]) == Err(NotAnInteger)
  {
    var r := New([Num(1), Num(2)]);
    assert AllNums([Num(1), Num(2)]);
    assert r.Ok? && r.value == [1, 2];
  }

  lemma CornerScenarios()
    ensures Orthogonals([0, 0], 3, 3) == [[0, 1], [1, 0]]
    ensures Diagonals([0, 0], 3, 3) == [[1, 1]]
  {
    OrthogonalCandidates([0, 0], 3, 3);
    DiagonalCandidates([0, 0], 3, 3);
  }

  lemma FarCornerScenario()
    ensures Orthogonals([2, 2], 3, 3) == [[1, 2], [2, 1]]
  {
    OrthogonalCandidates([2, 2], 3, 3);
  }
}
