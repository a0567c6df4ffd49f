/** The shortest of the 27 adjacent images, and the cells for which it is the shortest of all. */
module NearestImage {
  import opened Lattice
  import opened PlanarForm

  predicate Adjacent(n: Shift) { -1 <= n.x <= 1 && -1 <= n.y <= 1 && -1 <= n.z <= 1 }

  function Smallest(lengths: seq<real>): (r: real)
    requires lengths != []
    ensures r in lengths && forall l :: l in lengths ==> r <= l
  {
    if |lengths| == 1 then lengths[0]
    else
      var rest := Smallest(lengths[1..]);
      assert forall l :: l in lengths ==> l == lengths[0] || l in lengths[1..];
      if lengths[0] <= rest then lengths[0] else rest
  }

  /** `r` is the least squared length over the adjacent shifts. */
  ghost predicate LeastAdjacent(cell: Matrix, delta: Vec, r: real) {
    && (exists n :: Adjacent(n) && r == LengthSquared(cell, Moved(delta, n)))
    && (forall n :: Adjacent(n) ==> r <= LengthSquared(cell, Moved(delta, n)))
  }

  /** `r` is the least squared length over all integer shifts. */
  ghost predicate LeastOfAll(cell: Matrix, delta: Vec, r: real) {
    && (exists n :: r == LengthSquared(cell, Moved(delta, n)))
    && (forall n :: r <= LengthSquared(cell, Moved(delta, n)))
  }

  predicate Before(n: Shift, x: int, y: int, z: int) {
    n.x < x || (n.x == x && (n.y < y || (n.y == y && n.z < z)))
  }

  /** The lengths are those of the adjacent shifts before (x, y, z). */
  ghost predicate Listed(cell: Matrix, delta: Vec, lengths: seq<real>, x: int, y: int, z: int) {
    && (forall n :: Adjacent(n) && Before(n, x, y, z) ==> LengthSquared(cell, Moved(delta, n)) in lengths)
    && (forall l :: l in lengths ==> exists n :: Adjacent(n) && l == LengthSquared(cell, Moved(delta, n)))
  }

  /** The scan: the squared length of the shortest adjacent image. */
  method PeriodicDistanceSquared(cell: Matrix, first: Vec, second: Vec) returns (r: real)
    ensures LeastAdjacent(cell, Minus(first, second), r)
    ensures exists n :: Adjacent(n) && r == ImageDistanceSquared(cell, first, second, n)
    ensures forall n :: Adjacent(n) ==> r <= ImageDistanceSquared(cell, first, second, n)
    ensures Upright(cell) && Blunt(FormOf(cell)) && InUnitCell(first) && InUnitCell(second) ==>
            LeastOfAll(cell, Minus(first, second), r)
  {
    hide LengthSquared, Moved, Upright, Blunt, FormOf, InUnitCell, ImageDistanceSquared;
    var delta := Minus(first, second);
    var lengths := [];
    for x := -1 to 2
      invariant Listed(cell, delta, lengths, x, -1, -1)
    {
      for y := -1 to 2
        invariant Listed(cell, delta, lengths, x, y, -1)
      {
        for z := -1 to 2
          invariant Listed(cell, delta, lengths, x, y, z)
        {
          var n := Shift(x, y, z);
          assert Adjacent(n);
          lengths := lengths + [LengthSquared(cell, Moved(delta, n))];
        }
      }
    }
    assert Adjacent(Shift(0, 0, 0));
    r := Smallest(lengths);
    LeastImage(cell, first, second, r);
    if Upright(cell) && Blunt(FormOf(cell)) && InUnitCell(first) && InUnitCell(second) {
      ScanIsEnough(cell, first, second, r);
    }
  }

  lemma LeastImage(cell: Matrix, first: Vec, second: Vec, r: real)
    requires LeastAdjacent(cell, Minus(first, second), r)
    ensures exists n :: Adjacent(n) && r == ImageDistanceSquared(cell, first, second, n)
    ensures forall n :: Adjacent(n) ==> r <= ImageDistanceSquared(cell, first, second, n)
  {
    hide LengthSquared, Moved, Minus, ImageDistanceSquared;
    forall n ensures LengthSquared(cell, Moved(Minus(first, second), n)) == ImageDistanceSquared(cell, first, second, n)
    {
      ImageDistance(cell, first, second, n);
    }
  }

  // ---------- cells ----------

  function Gram(cell: Matrix, i: int, j: int): real { Dot(Column(cell, i), Column(cell, j)) }

  /** The third axis is perpendicular to the other two. */
  predicate Upright(cell: Matrix) { Gram(cell, 0, 2) == 0.0 && Gram(cell, 1, 2) == 0.0 }

  /** The form of the first two axes. */
  function FormOf(cell: Matrix): Form { Form(Gram(cell, 0, 0), Gram(cell, 1, 1), Gram(cell, 0, 1)) }

  predicate Orthogonal(cell: Matrix) { Upright(cell) && Gram(cell, 0, 1) == 0.0 }

  /** Equal first axes at 120 degrees, the third perpendicular to both. */
  predicate Hexagonal(cell: Matrix) {
    Upright(cell) && Gram(cell, 0, 0) == Gram(cell, 1, 1) && 2.0 * Gram(cell, 0, 1) == -Gram(cell, 0, 0)
  }

  predicate InUnitCell(v: Vec) { 0.0 <= v.x < 1.0 && 0.0 <= v.y < 1.0 && 0.0 <= v.z < 1.0 }

  lemma GramExpansion(cell: Matrix, v: Vec)
    ensures LengthSquared(cell, v) ==
            Gram(cell, 0, 0) * Square(v.x) + Gram(cell, 1, 1) * Square(v.y) + Gram(cell, 2, 2) * Square(v.z) +
            2.0 * (Gram(cell, 0, 1) * (v.x * v.y)) + 2.0 * (Gram(cell, 0, 2) * (v.x * v.z)) +
              2.0 * (Gram(cell, 1, 2) * (v.y * v.z))
  {
  }

  lemma GramDiagonal(cell: Matrix, i: int)
    ensures Gram(cell, i, i) >= 0.0
  {
    var c := Column(cell, i);
    SquaresAdd(c.x, c.y, c.z);
  }

  lemma FormIsPositive(cell: Matrix)
    ensures Positive(FormOf(cell))
  {
    hide Dot;
    GramDiagonal(cell, 0);
    GramDiagonal(cell, 1);
    CauchySchwarz(Column(cell, 0), Column(cell, 1));
  }

  /** The two kinds of cell that the scan was written for. */
  lemma FamiliesAreBlunt(cell: Matrix)
    requires Orthogonal(cell) || Hexagonal(cell)
    ensures Upright(cell) && Blunt(FormOf(cell))
  {
    hide Gram;
    GramDiagonal(cell, 0);
    GramDiagonal(cell, 1);
  }

  lemma UprightLength(cell: Matrix, v: Vec)
    requires Upright(cell)
    ensures LengthSquared(cell, v) == Planar(FormOf(cell), v.x, v.y) + Gram(cell, 2, 2) * Square(v.z)
  {
    hide LengthSquared, Gram;
    GramExpansion(cell, v);
  }

  // ---------- the third coordinate ----------

  /** The adjacent shift that brings a difference of two unit coordinates nearest to zero. */
  function Nearest(d: real): int {
    if d > 0.5 then -1 else if d < -0.5 then 1 else 0
  }

  lemma NearestIsBest(d: real, n: int)
    requires -1.0 < d < 1.0
    ensures Square(d + Nearest(d) as real) <= Square(d + n as real)
  {
    hide Square;
    var a, k := d + Nearest(d) as real, n - Nearest(d);
    assert d + n as real == a + k as real;
    ShiftedSquare(a, k);
  }

  lemma ShiftedSquare(a: real, k: int)
    requires -0.5 <= a <= 0.5
    ensures Square(a) <= Square(a + k as real)
  {
    var r := k as real;
    assert Square(a + r) == Square(a) + r * (2.0 * a + r);
    hide Square;
    if k > 0 {
      Product(r, 2.0 * a + r);
    } else if k < 0 {
      Product(-r, -(2.0 * a + r));
      assert -r * -(2.0 * a + r) == r * (2.0 * a + r);
    }
  }

  // ---------- when the scan is enough ----------

  /** In an upright cell with blunt axes, for points of the unit cell, every integer shift is matched or beaten by an
      adjacent one. */
  lemma AdjacentIsEnough(cell: Matrix, first: Vec, second: Vec, n: Shift) returns (best: Shift)
    requires Upright(cell) && Blunt(FormOf(cell)) && InUnitCell(first) && InUnitCell(second)
    ensures Adjacent(best)
    ensures LengthSquared(cell, Moved(Minus(first, second), best)) <=
      LengthSquared(cell, Moved(Minus(first, second), n))
  {
    hide LengthSquared, Planar, Blunt, Gram, Square, Upright, Positive;
    var delta := Minus(first, second);
    FormIsPositive(cell);
    var i, j := AdjacentTranslate(FormOf(cell), delta.x, delta.y, n.x, n.y);
    best := Shift(i, j, Nearest(delta.z));
    NearestIsBest(delta.z, n.z);
    GramDiagonal(cell, 2);
    var v, w := Moved(delta, best), Moved(delta, n);
    Scaled(Gram(cell, 2, 2), Square(v.z), Square(w.z));
    UprightLength(cell, v);
    UprightLength(cell, w);
    assert Planar(FormOf(cell), v.x, v.y) <= Planar(FormOf(cell), w.x, w.y);
    assert Square(v.z) <= Square(w.z);
  }

  lemma ScanIsEnough(cell: Matrix, first: Vec, second: Vec, r: real)
    requires Upright(cell) && Blunt(FormOf(cell)) && InUnitCell(first) && InUnitCell(second)
    requires LeastAdjacent(cell, Minus(first, second), r)
    ensures LeastOfAll(cell, Minus(first, second), r)
  {
    hide LengthSquared, Upright, Blunt, InUnitCell, Adjacent, Moved, Minus;
    forall n: Shift ensures r <= LengthSquared(cell, Moved(Minus(first, second), n)) {
      var best := AdjacentIsEnough(cell, first, second, n);
    }
  }

  // ---------- exactly when ----------

  /** For all points of the unit cell the least of the 27 images is the least of all. */
  ghost predicate ScanDecides(cell: Matrix) {
    forall first: Vec, second: Vec, r: real ::
      InUnitCell(first) && InUnitCell(second) && LeastAdjacent(cell, Minus(first, second), r) ==>
        LeastOfAll(cell, Minus(first, second), r)
  }

  /** The axes of an invertible cell are independent. */
  lemma AxesIndependent(cell: Matrix, frac: Matrix)
    requires Inverts(frac, cell)
    ensures var f := FormOf(cell); f.a > 0.0 && f.b > 0.0 && f.c * f.c < f.a * f.b
  {
    var u, v := Column(cell, 0), Column(cell, 1);
    var a, b, c := Gram(cell, 0, 0), Gram(cell, 1, 1), Gram(cell, 0, 1);
    assert Dot(frac.a, u) == 1.0 && Dot(frac.a, v) == 0.0 && Dot(frac.b, v) == 1.0;
    hide Dot;
    NonZero(frac.a, u);
    NonZero(frac.b, v);
    var w := Vec(b * u.x - c * v.x, b * u.y - c * v.y, b * u.z - c * v.z);
    Combined(frac.a, u, v, w, b, c, 1.0, 0.0);
    NonZero(frac.a, w);
    CombinedNorm(u, v, w, a, b, c);
    SmallerFactor(b, 0.0, a * b - c * c);
  }

  lemma NonZero(row: Vec, u: Vec)
    requires Dot(row, u) > 0.0
    ensures NormSquared(u) > 0.0
  {
    NormNotNegative(u);
    hide Dot, NormSquared;
    CauchySchwarz(row, u);
    PositiveFactor(Dot(row, u), NormSquared(row), NormSquared(u));
  }

  lemma NormNotNegative(u: Vec)
    ensures NormSquared(u) >= 0.0
  {
    SquaresAdd(u.x, u.y, u.z);
  }

  lemma PositiveFactor(d: real, p: real, q: real)
    requires d > 0.0 && q >= 0.0 && Square(d) <= p * q
    ensures q > 0.0
  {
    PositiveValue(Square(d), d, d);
    ZeroFactor(p, q);
  }

  lemma ZeroFactor(p: real, q: real)
    ensures q == 0.0 ==> p * q == 0.0
  {
  }

  lemma Combined(row: Vec, u: Vec, v: Vec, w: Vec, b: real, c: real, p: real, q: real)
    requires w == Vec(b * u.x - c * v.x, b * u.y - c * v.y, b * u.z - c * v.z)
    requires p == Dot(row, u) && q == Dot(row, v)
    ensures Dot(row, w) == b * p - c * q
  {
  }

  lemma CombinedNorm(u: Vec, v: Vec, w: Vec, a: real, b: real, c: real)
    requires a == Dot(u, u) && b == Dot(v, v) && c == Dot(u, v)
    requires w == Vec(b * u.x - c * v.x, b * u.y - c * v.y, b * u.z - c * v.z)
    ensures NormSquared(w) == b * (a * b - c * c)
  {
    Symmetric(w, u);
    Symmetric(w, v);
    Symmetric(u, v);
    hide Dot;
    var p, q := Dot(w, u), Dot(w, v);
    Combined(w, u, v, w, b, c, p, q);
    Combined(u, u, v, w, b, c, a, c);
    Combined(v, u, v, w, b, c, c, b);
    Eliminated(a, b, c, p, q);
  }

  lemma Eliminated(a: real, b: real, c: real, p: real, q: real)
    requires p == b * a - c * c && q == b * c - c * b
    ensures b * p - c * q == b * (a * b - c * c)
  {
  }

  lemma Symmetric(u: Vec, v: Vec)
    ensures Dot(u, v) == Dot(v, u)
  {
  }

  /** Where the axes are not blunt, two points of the unit cell have an image that every adjacent one exceeds. */
  lemma ScanMisses(cell: Matrix, frac: Matrix) returns (first: Vec, second: Vec, shift: Shift)
    requires Inverts(frac, cell) && Upright(cell) && !Blunt(FormOf(cell))
    ensures InUnitCell(first) && InUnitCell(second)
    ensures forall n :: Adjacent(n) ==>
      LengthSquared(cell, Moved(Minus(first, second), shift)) < LengthSquared(cell, Moved(Minus(first, second), n))
  {
    hide LengthSquared, Planar, Blunt, Gram, Inverts, Upright;
    AxesIndependent(cell, frac);
    var dx, dy, k, l := MissesSome(FormOf(cell));
    first := Vec(if dx >= 0.0 then dx else 0.0, if dy >= 0.0 then dy else 0.0, 0.0);
    second := Vec(if dx >= 0.0 then 0.0 else -dx, if dy >= 0.0 then 0.0 else -dy, 0.0);
    shift := Shift(k, l, 0);
    var delta := Minus(first, second);
    assert delta == Vec(dx, dy, 0.0);
    UprightLength(cell, Moved(delta, shift));
    forall n | Adjacent(n) ensures LengthSquared(cell, Moved(delta, shift)) < LengthSquared(cell, Moved(delta, n)) {
      assert Beside(n.x, n.y);
      UprightLength(cell, Moved(delta, n));
      GramDiagonal(cell, 2);
      Product(Gram(cell, 2, 2), Square(n.z as real));
    }
  }

  /** In an invertible cell with the third axis upright the scan finds the nearest image of all points of the unit cell
      exactly when the first two axes are blunt. */
  lemma ScanDecidesExactlyWhen(cell: Matrix, frac: Matrix)
    requires Inverts(frac, cell) && Upright(cell)
    ensures ScanDecides(cell) <==> Blunt(FormOf(cell))
  {
    hide LengthSquared, Blunt, FormOf, Inverts, Upright, InUnitCell, Moved, Minus;
    if Blunt(FormOf(cell)) {
      forall first: Vec, second: Vec, r: real
        | InUnitCell(first) && InUnitCell(second) && LeastAdjacent(cell, Minus(first, second), r)
        ensures LeastOfAll(cell, Minus(first, second), r)
      {
        ScanIsEnough(cell, first, second, r);
      }
    } else {
      var first, second, shift := ScanMisses(cell, frac);
      var r := PeriodicLeast(cell, first, second);
      assert LengthSquared(cell, Moved(Minus(first, second), shift)) < r;
      assert !LeastOfAll(cell, Minus(first, second), r);
    }
  }

  lemma PeriodicLeast(cell: Matrix, first: Vec, second: Vec) returns (r: real)
    ensures LeastAdjacent(cell, Minus(first, second), r)
  {
    hide LengthSquared, Moved, Minus;
    var delta := Minus(first, second);
    var lengths := seq(27, k requires 0 <= k < 27 => LengthSquared(cell, Moved(delta, ShiftAt(k))));
    r := Smallest(lengths);
    hide ShiftAt;
    var k :| 0 <= k < 27 && lengths[k] == r;
    forall n | Adjacent(n) ensures r <= LengthSquared(cell, Moved(delta, n)) {
      var m := IndexOf(n);
      assert lengths[m] in lengths;
    }
  }

  function ShiftAt(k: nat): (n: Shift)
    ensures k < 27 ==> Adjacent(n)
  {
    Shift(k / 9 - 1, k / 3 % 3 - 1, k % 3 - 1)
  }

  lemma IndexOf(n: Shift) returns (k: nat)
    requires Adjacent(n)
    ensures k < 27 && ShiftAt(k) == n
  {
    k := 9 * (n.x + 1) + 3 * (n.y + 1) + n.z + 1;
  }

  const SKEW: Matrix := Matrix(Vec(1.0, 5.0, 0.0), Vec(0.0, 1.0, 0.0), Vec(0.0, 0.0, 1.0))

  lemma SkewLength(v: Vec)
    ensures LengthSquared(SKEW, v) == Square(v.x + 5.0 * v.y) + Square(v.y) + Square(v.z)
  {
    assert Apply(SKEW, v) == Vec(v.x + 5.0 * v.y, v.y, v.z);
  }

  lemma FarFromZero(a: real)
    requires a >= 1.0 || a <= -1.0
    ensures Square(a) >= 1.0
  {
    assert Square(-a) == Square(a);
    if a > 1.0 { LargerSquare(1.0, a); }
    if a < -1.0 { LargerSquare(1.0, -a); }
  }

  /** In a skew cell the scan can miss the nearest image: here a shift by two is nearer than every adjacent one. */
  lemma ScanMissesInSkewCell(n: Shift)
    requires Adjacent(n)
    ensures var first, second := Vec(0.0, 0.5, 0.0), Vec(0.0, 0.0, 0.0);
            InUnitCell(first) && InUnitCell(second) &&
            LengthSquared(SKEW, Moved(Minus(first, second), Shift(-2, 0, 0))) <
              LengthSquared(SKEW, Moved(Minus(first, second), n))
  {
    hide LengthSquared;
    var delta := Minus(Vec(0.0, 0.5, 0.0), Vec(0.0, 0.0, 0.0));
    var v := Moved(delta, n);
    SkewLength(Moved(delta, Shift(-2, 0, 0)));
    assert Square(0.5) == 0.25;
    SkewLength(v);
    FarFromZero(v.x + 5.0 * v.y);
    SquaresAdd(v.y, v.z, 0.0);
  }
}
