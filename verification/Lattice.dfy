/** Vectors and cells over exact reals, and the search for a near periodic image. */
module Lattice {
  datatype Vec = Vec(x: real, y: real, z: real)

  datatype Shift = Shift(x: int, y: int, z: int)

  /** A matrix by its rows. */
  datatype Matrix = Matrix(a: Vec, b: Vec, c: Vec)

  function Square(r: real): real { r * r }

  function Dot(u: Vec, v: Vec): real { u.x * v.x + u.y * v.y + u.z * v.z }

  function NormSquared(v: Vec): real { Dot(v, v) }

  function Apply(m: Matrix, v: Vec): Vec { Vec(Dot(m.a, v), Dot(m.b, v), Dot(m.c, v)) }

  function Minus(u: Vec, v: Vec): Vec { Vec(u.x - v.x, u.y - v.y, u.z - v.z) }

  function Moved(v: Vec, n: Shift): Vec { Vec(v.x + n.x as real, v.y + n.y as real, v.z + n.z as real) }

  function Negated(n: Shift): Shift { Shift(-n.x, -n.y, -n.z) }

  function Sum(m: Shift, n: Shift): Shift { Shift(m.x + n.x, m.y + n.y, m.z + n.z) }

  /** The squared length of a fractional vector in the cell. */
  function LengthSquared(cell: Matrix, v: Vec): real { NormSquared(Apply(cell, v)) }

  function Column(m: Matrix, i: int): Vec {
    if i == 0 then Vec(m.a.x, m.b.x, m.c.x) else if i == 1 then Vec(m.a.y, m.b.y, m.c.y) else Vec(m.a.z, m.b.z, m.c.z)
  }

  /** The product of the two matrices is the identity. */
  predicate Inverts(frac: Matrix, cell: Matrix) {
    && Dot(frac.a, Column(cell, 0)) == 1.0 && Dot(frac.a, Column(cell, 1)) == 0.0 && Dot(frac.a, Column(cell, 2)) == 0.0
    && Dot(frac.b, Column(cell, 0)) == 0.0 && Dot(frac.b, Column(cell, 1)) == 1.0 && Dot(frac.b, Column(cell, 2)) == 0.0
    && Dot(frac.c, Column(cell, 0)) == 0.0 && Dot(frac.c, Column(cell, 1)) == 0.0 && Dot(frac.c, Column(cell, 2)) == 1.0
  }

  function Ceil(r: real): int { -((-r).Floor) }

  // ---------- the search ----------

  /** The search radius of each component: the tolerance times the norm of the component's row of the inverse. */
  predicate Radii(frac: Matrix, tolerance: real, radii: Vec) {
    && radii.x >= 0.0 && Square(radii.x) == Square(tolerance) * NormSquared(frac.a)
    && radii.y >= 0.0 && Square(radii.y) == Square(tolerance) * NormSquared(frac.b)
    && radii.z >= 0.0 && Square(radii.z) == Square(tolerance) * NormSquared(frac.c)
  }

  /** The shifted difference is shorter than the tolerance. */
  predicate Near(cell: Matrix, tolerance: real, delta: Vec, n: Shift) {
    tolerance > 0.0 && LengthSquared(cell, Moved(delta, n)) < Square(tolerance)
  }

  /** Some shift in the box brings the two points closer than the tolerance. */
  predicate SamePeriodicPoint(cell: Matrix, radii: Vec, tolerance: real, first: Vec, second: Vec) {
    var delta := Minus(first, second);
    exists x, y, z ::
      && Ceil(-delta.x - radii.x) <= x < (-delta.x + radii.x).Floor + 1
      && Ceil(-delta.y - radii.y) <= y < (-delta.y + radii.y).Floor + 1
      && Ceil(-delta.z - radii.z) <= z < (-delta.z + radii.z).Floor + 1
      && Near(cell, tolerance, delta, Shift(x, y, z))
  }

  /** The squared distance in space of the second point from the first one moved by whole cells, written out. */
  ghost function ImageDistanceSquared(cell: Matrix, first: Vec, second: Vec, n: Shift): real {
    var u, v, w :=
      first.x - second.x + n.x as real, first.y - second.y + n.y as real, first.z - second.z + n.z as real;
    var x, y, z :=
      cell.a.x * u + cell.a.y * v + cell.a.z * w,
      cell.b.x * u + cell.b.y * v + cell.b.z * w,
      cell.c.x * u + cell.c.y * v + cell.c.z * w;
    x * x + y * y + z * z
  }

  lemma ImageDistance(cell: Matrix, first: Vec, second: Vec, n: Shift)
    ensures LengthSquared(cell, Moved(Minus(first, second), n)) == ImageDistanceSquared(cell, first, second, n)
  {
  }

  ghost predicate Closer(cell: Matrix, tolerance: real, first: Vec, second: Vec, n: Shift) {
    tolerance > 0.0 && ImageDistanceSquared(cell, first, second, n) < tolerance * tolerance
  }

  lemma NearIsCloser(cell: Matrix, tolerance: real, first: Vec, second: Vec, n: Shift)
    ensures Near(cell, tolerance, Minus(first, second), n) <==> Closer(cell, tolerance, first, second, n)
  {
    hide LengthSquared, ImageDistanceSquared;
    ImageDistance(cell, first, second, n);
  }

  /** Some shift at all brings the points closer than the tolerance. */
  ghost predicate SomeImageNear(cell: Matrix, tolerance: real, first: Vec, second: Vec) {
    exists n :: Closer(cell, tolerance, first, second, n)
  }

  lemma SomeNear(cell: Matrix, tolerance: real, first: Vec, second: Vec)
    ensures SomeImageNear(cell, tolerance, first, second) <==>
      exists n :: Near(cell, tolerance, Minus(first, second), n)
  {
    hide Near, Closer;
    if n :| Closer(cell, tolerance, first, second, n) { NearIsCloser(cell, tolerance, first, second, n); }
    if n :| Near(cell, tolerance, Minus(first, second), n) { NearIsCloser(cell, tolerance, first, second, n); }
  }

  /** The two matrices invert each other as maps of vectors. */
  lemma InvertsExactlyWhen(frac: Matrix, cell: Matrix)
    ensures Inverts(frac, cell) <==> forall v :: Apply(frac, Apply(cell, v)) == v
  {
    hide Dot, Column;
    if Inverts(frac, cell) {
      forall v ensures Apply(frac, Apply(cell, v)) == v { InvertsRecovers(frac, cell, v); }
    }
    if forall v :: Apply(frac, Apply(cell, v)) == v {
      RecoversUnit(frac, cell, Vec(1.0, 0.0, 0.0));
      RecoversUnit(frac, cell, Vec(0.0, 1.0, 0.0));
      RecoversUnit(frac, cell, Vec(0.0, 0.0, 1.0));
    }
  }

  lemma InvertsRecovers(frac: Matrix, cell: Matrix, v: Vec)
    requires Inverts(frac, cell)
    ensures Apply(frac, Apply(cell, v)) == v
  {
    Recovers(frac.a, cell, v);
    Recovers(frac.b, cell, v);
    Recovers(frac.c, cell, v);
    hide Dot, Column;
  }

  lemma RecoversUnit(frac: Matrix, cell: Matrix, v: Vec)
    requires Apply(frac, Apply(cell, v)) == v
    ensures Dot(frac.a, Column(cell, 0)) * v.x + Dot(frac.a, Column(cell, 1)) * v.y +
            Dot(frac.a, Column(cell, 2)) * v.z == v.x
    ensures Dot(frac.b, Column(cell, 0)) * v.x + Dot(frac.b, Column(cell, 1)) * v.y +
            Dot(frac.b, Column(cell, 2)) * v.z == v.y
    ensures Dot(frac.c, Column(cell, 0)) * v.x + Dot(frac.c, Column(cell, 1)) * v.y +
            Dot(frac.c, Column(cell, 2)) * v.z == v.z
  {
    Recovers(frac.a, cell, v);
    Recovers(frac.b, cell, v);
    Recovers(frac.c, cell, v);
  }

  // ---------- why the box is enough ----------

  lemma SquaresAdd(a: real, b: real, c: real)
    ensures Square(a) + Square(b) + Square(c) >= 0.0
  {
    assert Square(a) >= 0.0 && Square(b) >= 0.0 && Square(c) >= 0.0;
  }

  /** Cauchy and Schwarz, by Lagrange's identity. */
  lemma CauchySchwarz(u: Vec, v: Vec)
    ensures Square(Dot(u, v)) <= NormSquared(u) * NormSquared(v)
  {
    var p, q, r := u.x * v.y - u.y * v.x, u.x * v.z - u.z * v.x, u.y * v.z - u.z * v.y;
    Lagrange(u, v);
    SquaresAdd(p, q, r);
  }

  lemma Lagrange(u: Vec, v: Vec)
    ensures NormSquared(u) * NormSquared(v) - Square(Dot(u, v)) ==
            Square(u.x * v.y - u.y * v.x) + Square(u.x * v.z - u.z * v.x) + Square(u.y * v.z - u.z * v.y)
  {
  }

  lemma LargerSquare(r: real, a: real)
    requires 0.0 <= r < a
    ensures Square(a) > Square(r)
  {
    var e := a - r;
    assert e * e > 0.0;
    assert r * e >= 0.0;
    assert Square(a) == Square(r) + 2.0 * (r * e) + e * e;
  }

  lemma AtMost(a: real, r: real)
    requires r >= 0.0 && Square(a) <= Square(r)
    ensures -r <= a <= r
  {
    assert Square(-a) == Square(a);
    if a > r { LargerSquare(r, a); }
    if -a > r { LargerSquare(r, -a); }
  }

  /** A row of the inverse recovers its component. */
  lemma Recovers(row: Vec, cell: Matrix, v: Vec)
    ensures Dot(row, Apply(cell, v)) ==
      Dot(row, Column(cell, 0)) * v.x + Dot(row, Column(cell, 1)) * v.y + Dot(row, Column(cell, 2)) * v.z
  {
  }

  lemma ComponentBound(row: Vec, w: Vec, tolerance: real, r: real)
    requires NormSquared(w) < Square(tolerance) && r >= 0.0 && Square(r) == Square(tolerance) * NormSquared(row)
    ensures -r <= Dot(row, w) <= r
  {
    CauchySchwarz(row, w);
    SquaresAdd(row.x, row.y, row.z);
    Scaled(NormSquared(row), NormSquared(w), Square(tolerance));
    AtMost(Dot(row, w), r);
  }

  lemma Scaled(k: real, a: real, b: real)
    requires k >= 0.0 && a <= b
    ensures k * a <= k * b
  {
  }

  lemma InBox(d: real, r: real, n: int)
    requires -r <= d + n as real <= r
    ensures Ceil(-d - r) <= n < (-d + r).Floor + 1
  {
  }

  lemma NearIsInBox(cell: Matrix, frac: Matrix, radii: Vec, tolerance: real, delta: Vec, n: Shift)
    requires Inverts(frac, cell) && Radii(frac, tolerance, radii) && Near(cell, tolerance, delta, n)
    ensures Ceil(-delta.x - radii.x) <= n.x < (-delta.x + radii.x).Floor + 1
    ensures Ceil(-delta.y - radii.y) <= n.y < (-delta.y + radii.y).Floor + 1
    ensures Ceil(-delta.z - radii.z) <= n.z < (-delta.z + radii.z).Floor + 1
  {
    hide Dot, Square, Ceil;
    var v := Moved(delta, n);
    var w := Apply(cell, v);
    hide Apply, Column;
    Recovers(frac.a, cell, v);
    Recovers(frac.b, cell, v);
    Recovers(frac.c, cell, v);
    ComponentBound(frac.a, w, tolerance, radii.x);
    ComponentBound(frac.b, w, tolerance, radii.y);
    ComponentBound(frac.c, w, tolerance, radii.z);
    InBox(delta.x, radii.x, n.x);
    InBox(delta.y, radii.y, n.y);
    InBox(delta.z, radii.z, n.z);
  }

  /** The finite search decides the search over all integer shifts, in every invertible cell. */
  lemma SearchIsExact(cell: Matrix, frac: Matrix, radii: Vec, tolerance: real, first: Vec, second: Vec)
    requires Inverts(frac, cell) && Radii(frac, tolerance, radii)
    ensures SamePeriodicPoint(cell, radii, tolerance, first, second) <==> SomeImageNear(cell, tolerance, first, second)
  {
    hide Near, Inverts, Radii, Ceil, SomeImageNear;
    SomeNear(cell, tolerance, first, second);
    if n :| Near(cell, tolerance, Minus(first, second), n) {
      NearIsInBox(cell, frac, radii, tolerance, Minus(first, second), n);
      assert n == Shift(n.x, n.y, n.z);
    }
  }

  // ---------- what follows ----------

  lemma NearReversed(cell: Matrix, tolerance: real, first: Vec, second: Vec, n: Shift)
    requires Near(cell, tolerance, Minus(first, second), n)
    ensures Near(cell, tolerance, Minus(second, first), Negated(n))
  {
    var v, w := Moved(Minus(first, second), n), Moved(Minus(second, first), Negated(n));
    assert w == Vec(-v.x, -v.y, -v.z);
    assert Apply(cell, w) == Vec(-Apply(cell, v).x, -Apply(cell, v).y, -Apply(cell, v).z);
  }

  /** The search does not depend on the order of the points. */
  lemma SearchIsSymmetric(cell: Matrix, frac: Matrix, radii: Vec, tolerance: real, first: Vec, second: Vec)
    requires Inverts(frac, cell) && Radii(frac, tolerance, radii)
    ensures SamePeriodicPoint(cell, radii, tolerance, first, second) ==
      SamePeriodicPoint(cell, radii, tolerance, second, first)
  {
    hide Near, Inverts, Radii, SamePeriodicPoint, SomeImageNear;
    SearchIsExact(cell, frac, radii, tolerance, first, second);
    SearchIsExact(cell, frac, radii, tolerance, second, first);
    SomeNear(cell, tolerance, first, second);
    SomeNear(cell, tolerance, second, first);
    if n :| Near(cell, tolerance, Minus(first, second), n) { NearReversed(cell, tolerance, first, second, n); }
    if n :| Near(cell, tolerance, Minus(second, first), n) { NearReversed(cell, tolerance, second, first, n); }
  }

  lemma NearTranslated(cell: Matrix, tolerance: real, first: Vec, second: Vec, m: Shift, k: Shift, n: Shift)
    ensures Near(cell, tolerance, Minus(Moved(first, m), Moved(second, k)), n) <==>
            Near(cell, tolerance, Minus(first, second), Sum(n, Sum(m, Negated(k))))
  {
    assert Moved(Minus(Moved(first, m), Moved(second, k)), n) ==
           Moved(Minus(first, second), Sum(n, Sum(m, Negated(k))));
  }

  /** Nor on which images of the points are given. */
  lemma SearchIsPeriodic(cell: Matrix, frac: Matrix, radii: Vec, tolerance: real, first: Vec, second: Vec, m: Shift,
      k: Shift)
    requires Inverts(frac, cell) && Radii(frac, tolerance, radii)
    ensures SamePeriodicPoint(cell, radii, tolerance, Moved(first, m), Moved(second, k)) ==
            SamePeriodicPoint(cell, radii, tolerance, first, second)
  {
    hide Near, Inverts, Radii, SamePeriodicPoint, SomeImageNear;
    SearchIsExact(cell, frac, radii, tolerance, first, second);
    SearchIsExact(cell, frac, radii, tolerance, Moved(first, m), Moved(second, k));
    SomeNear(cell, tolerance, first, second);
    SomeNear(cell, tolerance, Moved(first, m), Moved(second, k));
    if n :| Near(cell, tolerance, Minus(Moved(first, m), Moved(second, k)), n) {
      NearTranslated(cell, tolerance, first, second, m, k, n);
    }
    if n :| Near(cell, tolerance, Minus(first, second), n) {
      var back := Sum(n, Sum(k, Negated(m)));
      NearTranslated(cell, tolerance, first, second, m, k, back);
      assert Sum(back, Sum(m, Negated(k))) == n;
    }
  }

  function Plus(u: Vec, v: Vec): Vec { Vec(u.x + v.x, u.y + v.y, u.z + v.z) }

  lemma Parallelogram(u: Vec, v: Vec)
    ensures NormSquared(Plus(u, v)) <= 2.0 * NormSquared(u) + 2.0 * NormSquared(v)
  {
    var w := Minus(u, v);
    SquaresAdd(w.x, w.y, w.z);
    assert NormSquared(Plus(u, v)) + NormSquared(w) == 2.0 * NormSquared(u) + 2.0 * NormSquared(v);
  }

  /** Two points near a third are within twice the tolerance of each other. */
  lemma NearChain(cell: Matrix, tolerance: real, first: Vec, second: Vec, third: Vec)
    requires SomeImageNear(cell, tolerance, first, second) && SomeImageNear(cell, tolerance, second, third)
    ensures SomeImageNear(cell, 2.0 * tolerance, first, third)
  {
    SomeNear(cell, tolerance, first, second);
    SomeNear(cell, tolerance, second, third);
    SomeNear(cell, 2.0 * tolerance, first, third);
    hide SomeImageNear;
    var m :| Near(cell, tolerance, Minus(first, second), m);
    var n :| Near(cell, tolerance, Minus(second, third), n);
    var u, v := Moved(Minus(first, second), m), Moved(Minus(second, third), n);
    assert Moved(Minus(first, third), Sum(m, n)) == Plus(u, v);
    assert Apply(cell, Plus(u, v)) == Plus(Apply(cell, u), Apply(cell, v));
    Parallelogram(Apply(cell, u), Apply(cell, v));
    assert Square(2.0 * tolerance) == 4.0 * Square(tolerance);
    assert Near(cell, 2.0 * tolerance, Minus(first, third), Sum(m, n));
  }
}
