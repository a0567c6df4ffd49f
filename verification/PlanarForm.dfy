/** Quadratic forms in the plane, and when the shortest translate of a vector is always an adjacent one. */
module PlanarForm {
  /** The squared length of (x, y) over two axes with squared lengths `a` and `b` and inner product `c`. */
  datatype Form = Form(a: real, b: real, c: real)

  function Planar(f: Form, x: real, y: real): real {
    f.a * (x * x) + f.b * (y * y) + 2.0 * (f.c * (x * y))
  }

  function Abs(r: real): real { if r < 0.0 then -r else r }

  /** The inner product is at most the smaller squared length, or exactly half of the larger one. */
  predicate Blunt(f: Form) {
    (Abs(f.c) <= f.a && Abs(f.c) <= f.b) || (f.a <= f.b && f.b == 2.0 * Abs(f.c)) ||
      (f.b <= f.a && f.a == 2.0 * Abs(f.c))
  }

  /** What holds of the squared lengths and inner product of any two axes. */
  predicate Positive(f: Form) { f.a >= 0.0 && f.b >= 0.0 && f.c * f.c <= f.a * f.b }

  function Mirrored(f: Form): Form { Form(f.a, f.b, -f.c) }

  function Swapped(f: Form): Form { Form(f.b, f.a, f.c) }

  lemma Symmetries(f: Form, x: real, y: real)
    ensures Planar(f, -x, -y) == Planar(f, x, y)
    ensures Planar(Mirrored(f), -x, y) == Planar(f, x, y)
    ensures Planar(Swapped(f), y, x) == Planar(f, x, y)
  {
    assert -x * -y == x * y && -x * y == -(x * y) && -f.c * -(x * y) == f.c * (x * y);
  }

  lemma Product(p: real, q: real)
    requires p >= 0.0 && q >= 0.0
    ensures p * q >= 0.0
  {
  }

  lemma PositiveProduct(p: real, q: real)
    requires p > 0.0 && q > 0.0
    ensures p * q > 0.0
  {
  }

  // ---------- single steps ----------

  /** What a vector loses in squared length by a step back along the first axis, by a diagonal one, and by two steps
      back along one axis and one forth along the other. */
  function EdgeGain(f: Form, x: real, y: real): real { f.a * (2.0 * x - 1.0) + 2.0 * (f.c * y) }

  function DiagonalGain(f: Form, x: real, y: real): real {
    (f.a - f.c) * (2.0 * x - 1.0) + (f.b - f.c) * (-2.0 * y - 1.0)
  }

  function LongGain(f: Form, x: real): real { (4.0 * f.a - 2.0 * f.c) * (x - 1.0) }

  function SteepGain(f: Form, y: real): real { (4.0 * f.b - 2.0 * f.c) * (-y - 1.0) }

  lemma Gains(f: Form, x: real, y: real)
    ensures Planar(f, x - 1.0, y) == Planar(f, x, y) - EdgeGain(f, x, y)
    ensures Planar(f, x - 1.0, y + 1.0) == Planar(f, x, y) - DiagonalGain(f, x, y)
  {
  }

  lemma SlantedGains(f: Form, x: real, y: real)
    ensures f.b == 2.0 * f.c ==> Planar(f, x - 2.0, y + 1.0) == Planar(f, x, y) - LongGain(f, x)
    ensures f.a == 2.0 * f.c ==> Planar(f, x - 1.0, y + 2.0) == Planar(f, x, y) - SteepGain(f, y)
  {
  }

  lemma EdgeGainShort(f: Form, x: real, y: real)
    requires 0.0 <= f.c <= f.a && x >= 0.5 && x + y >= 0.5
    ensures EdgeGain(f, x, y) >= 0.0
  {
    Product(f.a - f.c, 2.0 * x - 1.0);
    Product(f.c, 2.0 * x + 2.0 * y - 1.0);
    assert (f.a - f.c) * (2.0 * x - 1.0) + f.c * (2.0 * x + 2.0 * y - 1.0) == EdgeGain(f, x, y);
  }

  lemma EdgeGainAhead(f: Form, x: real, y: real)
    requires f.a >= 0.0 && f.c >= 0.0 && x >= 0.5 && y >= 0.0
    ensures EdgeGain(f, x, y) >= 0.0
  {
    Product(f.a, 2.0 * x - 1.0);
    Product(f.c, y);
  }

  lemma EdgeGainSteep(f: Form, x: real, y: real)
    requires f.a == 2.0 * f.c && f.c >= 0.0 && 2.0 * x - 1.0 + y >= 0.0
    ensures EdgeGain(f, x, y) >= 0.0
  {
    Product(f.c, 2.0 * x - 1.0 + y);
    assert EdgeGain(f, x, y) == 2.0 * (f.c * (2.0 * x - 1.0 + y));
  }

  /** What a step back from a vector beyond 1 may be: along the first axis, or slanted. */
  predicate Back(f: Form, x: real, y: real, i: int, j: int) {
    && Planar(f, x - i as real, y + j as real) <= Planar(f, x, y)
    && 1 <= i <= 2 && 0 <= j <= 2 && (j == 1 ==> y < 0.0) && (j == 2 ==> y < -1.0)
  }

  lemma BackShort(f: Form, x: real, y: real) returns (j: int)
    requires 0.0 <= f.c <= f.a && f.c <= f.b && x > 1.0
    ensures Back(f, x, y, 1, j)
  {
    hide Planar, EdgeGain;
    Gains(f, x, y);
    if x + y >= 0.5 {
      EdgeGainShort(f, x, y);
      j := 0;
    } else {
      Product(f.a - f.c, 2.0 * x - 1.0);
      Product(f.b - f.c, -2.0 * y - 1.0);
      j := 1;
    }
  }

  lemma BackLong(f: Form, x: real, y: real) returns (i: int, j: int)
    requires f.a >= 0.0 && f.c >= 0.0 && f.b == 2.0 * f.c && f.c <= 2.0 * f.a && x > 1.0
    ensures Back(f, x, y, i, j)
  {
    hide Planar, EdgeGain, DiagonalGain;
    Gains(f, x, y);
    SlantedGains(f, x, y);
    if y >= 0.0 {
      EdgeGainAhead(f, x, y);
      i, j := 1, 0;
    } else {
      Product(4.0 * f.a - 2.0 * f.c, x - 1.0);
      i, j := 2, 1;
    }
  }

  lemma BackSteep(f: Form, x: real, y: real) returns (j: int)
    requires f.b >= 0.0 && f.c >= 0.0 && f.a == 2.0 * f.c && f.c <= 2.0 * f.b && x > 1.0
    ensures Back(f, x, y, 1, j)
  {
    hide Planar, EdgeGain, DiagonalGain;
    Gains(f, x, y);
    SlantedGains(f, x, y);
    if 2.0 * x - 1.0 + y >= 0.0 {
      EdgeGainSteep(f, x, y);
      j := 0;
    } else {
      Product(4.0 * f.b - 2.0 * f.c, -y - 1.0);
      j := 2;
    }
  }

  lemma TwiceAtLeast(c: real, a: real, b: real)
    requires c >= 0.0 && a >= 0.0 && b == 2.0 * c && c * c <= a * b
    ensures c <= 2.0 * a
  {
    assert c * (c - 2.0 * a) == c * c - a * b;
    if c > 2.0 * a { PositiveProduct(c, c - 2.0 * a); }
  }

  /** With acute axes such a step does not lengthen the vector. */
  lemma StepBack(f: Form, x: real, y: real) returns (i: int, j: int)
    requires Positive(f) && Blunt(f) && f.c >= 0.0 && x > 1.0
    ensures Back(f, x, y, i, j)
  {
    hide Planar, Back;
    if f.c <= f.a && f.c <= f.b {
      i := 1;
      j := BackShort(f, x, y);
    } else if f.b == 2.0 * f.c {
      TwiceAtLeast(f.c, f.a, f.b);
      i, j := BackLong(f, x, y);
    } else {
      assert f.b * f.a == f.a * f.b;
      TwiceAtLeast(f.c, f.b, f.a);
      i := 1;
      j := BackSteep(f, x, y);
    }
  }

  // ---------- the descent ----------

  function Over(k: int): nat { if k > 1 then k - 1 else if k < -1 then -k - 1 else 0 }

  predicate Beside(k: int, l: int) { -1 <= k <= 1 && -1 <= l <= 1 }

  /** A translate that is no longer and nearer to the adjacent ones. */
  predicate Improves(f: Form, dx: real, dy: real, k: int, l: int, i: int, j: int) {
    && Over(i) + Over(j) < Over(k) + Over(l)
    && Planar(f, dx + i as real, dy + j as real) <= Planar(f, dx + k as real, dy + l as real)
  }

  lemma ImproveFirst(f: Form, dx: real, dy: real, k: int, l: int) returns (i: int, j: int)
    requires Positive(f) && Blunt(f) && f.c >= 0.0 && -1.0 < dx < 1.0 && -1.0 < dy < 1.0 && k >= 2
    ensures Improves(f, dx, dy, k, l, i, j)
  {
    hide Planar, Positive, Blunt;
    var m, n := StepBack(f, dx + k as real, dy + l as real);
    i, j := k - m, l + n;
    assert dx + i as real == dx + k as real - m as real && dy + j as real == dy + l as real + n as real;
  }

  lemma Improve(f: Form, dx: real, dy: real, k: int, l: int) returns (i: int, j: int)
    requires Positive(f) && Blunt(f) && f.c >= 0.0 && -1.0 < dx < 1.0 && -1.0 < dy < 1.0 && !Beside(k, l)
    ensures Improves(f, dx, dy, k, l, i, j)
  {
    hide Planar;
    if k >= 2 {
      i, j := ImproveFirst(f, dx, dy, k, l);
    } else if k <= -2 {
      i, j := ImproveFirst(f, -dx, -dy, -k, -l);
      i, j := -i, -j;
      Opposite(f, dx, dy, i, j);
      Opposite(f, dx, dy, k, l);
    } else if l >= 2 {
      j, i := ImproveFirst(Swapped(f), dy, dx, l, k);
      Symmetries(f, dx + i as real, dy + j as real);
      Symmetries(f, dx + k as real, dy + l as real);
    } else {
      j, i := ImproveFirst(Swapped(f), -dy, -dx, -l, -k);
      i, j := -i, -j;
      Opposite(f, dx, dy, i, j);
      Opposite(f, dx, dy, k, l);
      Symmetries(f, -dx + (-i) as real, -dy + (-j) as real);
      Symmetries(f, -dx + (-k) as real, -dy + (-l) as real);
    }
  }

  lemma Opposite(f: Form, dx: real, dy: real, k: int, l: int)
    ensures Planar(f, -dx + (-k) as real, -dy + (-l) as real) == Planar(f, dx + k as real, dy + l as real)
  {
    hide Planar;
    Symmetries(f, dx + k as real, dy + l as real);
    assert -dx + (-k) as real == -(dx + k as real) && -dy + (-l) as real == -(dy + l as real);
  }

  lemma {:induction false} AcuteDescent(f: Form, dx: real, dy: real, k: int, l: int) returns (i: int, j: int)
    requires Positive(f) && Blunt(f) && f.c >= 0.0 && -1.0 < dx < 1.0 && -1.0 < dy < 1.0
    ensures Beside(i, j) && Planar(f, dx + i as real, dy + j as real) <= Planar(f, dx + k as real, dy + l as real)
    decreases Over(k) + Over(l)
  {
    hide Planar, Positive, Blunt;
    if Beside(k, l) {
      i, j := k, l;
    } else {
      i, j := Improve(f, dx, dy, k, l);
      i, j := AcuteDescent(f, dx, dy, i, j);
    }
  }

  /** Over blunt axes every translate is matched or beaten by an adjacent one. */
  lemma AdjacentTranslate(f: Form, dx: real, dy: real, k: int, l: int) returns (i: int, j: int)
    requires Positive(f) && Blunt(f) && -1.0 < dx < 1.0 && -1.0 < dy < 1.0
    ensures Beside(i, j) && Planar(f, dx + i as real, dy + j as real) <= Planar(f, dx + k as real, dy + l as real)
  {
    hide Planar;
    if f.c >= 0.0 {
      i, j := AcuteDescent(f, dx, dy, k, l);
    } else {
      assert -f.c * -f.c == f.c * f.c;
      i, j := AcuteDescent(Mirrored(f), -dx, dy, -k, l);
      i := -i;
      assert -dx + (-i) as real == -(dx + i as real) && -dx + (-k) as real == -(dx + k as real);
      Symmetries(f, dx + i as real, dy + j as real);
      Symmetries(f, dx + k as real, dy + l as real);
    }
  }

  // ---------- axes that are not blunt ----------

  /** Every adjacent translate is longer than this one. */
  ghost predicate Missed(f: Form, dx: real, dy: real, k: int, l: int) {
    && -1.0 < dx < 1.0 && -1.0 < dy < 1.0
    && forall i, j :: Beside(i, j) ==>
         Planar(f, dx + k as real, dy + l as real) < Planar(f, dx + i as real, dy + j as real)
  }

  /** The part of a vector across the first axis, and what the axes span. */
  function Along(f: Form, x: real, y: real): real { f.a * x + f.c * y }

  function Area(f: Form): real { f.a * f.b - f.c * f.c }

  function Squared(r: real): real { r * r }

  lemma CompletedSquare(f: Form, x: real, y: real)
    ensures f.a * Planar(f, x, y) == Squared(Along(f, x, y)) + Area(f) * Squared(y)
  {
    var p, q := f.a * x, f.c * y;
    assert (p + q) * (p + q) == p * p + 2.0 * (p * q) + q * q;
    assert p * p == f.a * (f.a * (x * x)) && p * q == f.a * (f.c * (x * y)) && q * q == (f.c * f.c) * (y * y);
  }

  /** A vector across the first axis, less than half a row away, is shorter than all its translates. */
  lemma AcrossIsShortest(f: Form, x: real, y: real, m: int, n: int)
    requires f.a > 0.0 && Area(f) > 0.0 && Along(f, x, y) == 0.0 && -0.5 < y < 0.5 && (m != 0 || n != 0)
    ensures Planar(f, x, y) < Planar(f, x + m as real, y + n as real)
  {
    hide Planar, Area, Along, Squared;
    var u, v := x + m as real, y + n as real;
    CompletedSquare(f, x, y);
    CompletedSquare(f, u, v);
    SquarePositive(Along(f, x, y));
    SquarePositive(Along(f, u, v));
    if n == 0 {
      AlongAxis(f, x, y, u);
    } else {
      Farther(y, n);
      LargerFactor(Area(f), Squared(y), Squared(v));
    }
    SmallerFactor(f.a, Planar(f, x, y), Planar(f, u, v));
  }

  lemma AlongAxis(f: Form, x: real, y: real, u: real)
    requires f.a > 0.0 && Along(f, x, y) == 0.0 && u != x
    ensures Along(f, u, y) != 0.0
  {
    if u > x { PositiveProduct(f.a, u - x); } else { PositiveProduct(f.a, x - u); }
  }

  lemma SquarePositive(w: real)
    ensures if w == 0.0 then Squared(w) == 0.0 else Squared(w) > 0.0
  {
    if w > 0.0 { PositiveValue(Squared(w), w, w); }
    if w < 0.0 { PositiveValue(Squared(w), -w, -w); }
  }

  lemma PositiveValue(r: real, p: real, q: real)
    requires r == p * q && p > 0.0 && q > 0.0
    ensures r > 0.0
  {
  }

  lemma LargerFactor(a: real, p: real, q: real)
    requires a > 0.0 && p < q
    ensures a * p < a * q
  {
    PositiveProduct(a, q - p);
  }

  lemma SmallerFactor(a: real, p: real, q: real)
    requires a > 0.0 && a * p < a * q
    ensures p < q
  {
    if p >= q { Product(a, p - q); }
  }

  lemma Farther(y: real, n: int)
    requires -0.5 < y < 0.5 && n != 0
    ensures Squared(y + n as real) > Squared(y)
  {
    var r := n as real;
    assert Squared(y + r) == Squared(y) + r * (2.0 * y + r);
    if n > 0 { PositiveProduct(r, 2.0 * y + r); } else {
      PositiveProduct(-r, -(2.0 * y + r));
      assert -r * -(2.0 * y + r) == r * (2.0 * y + r);
    }
  }

  lemma AxisPoint(a: real, c: real) returns (x: real, y: real)
    requires 0.0 < 2.0 * a < c
    ensures 1.0 < x < 2.0 && -0.5 < y < 0.0 && a * x + c * y == 0.0
  {
    var h := if c > 3.0 * a then 1.5 * a else 0.25 * c + 0.5 * a;
    var p, q := h / a, h / c;
    assert p * a == h && q * c == h;
    Between(p - 1.0, a, h - a, 1.0);
    Between(q, c, h, 0.5);
    x, y := p, -q;
  }

  /** Very skew axes: a vector across the first axis is missed. */
  lemma MissVerySkew(f: Form) returns (dx: real, dy: real)
    requires 0.0 < 2.0 * f.a < f.c && f.c * f.c < f.a * f.b
    ensures Missed(f, dx, dy, 2, 0)
  {
    hide Planar;
    var x;
    x, dy := AxisPoint(f.a, f.c);
    dx := x - 2.0;
    forall i, j | Beside(i, j)
      ensures Planar(f, dx + 2 as real, dy + 0 as real) < Planar(f, dx + i as real, dy + j as real)
    {
      AcrossIsShortest(f, x, dy, i - 2, j);
      assert x + (i - 2) as real == dx + i as real;
    }
  }

  /** How much longer than a translate is the vector just beyond one step along the first axis and about half a step
      back along the second; `ae`, `ce`, `br` and `cr` are the products with the small numbers `e` and `r`. */
  lemma SkewDifference(f: Form, e: real, r: real, k: real, j: real, ae: real, ce: real, br: real, cr: real)
    requires ae == f.a * e && ce == f.c * e && br == f.b * r && cr == f.c * r
    ensures var x, y := 1.0 + e, -0.5 - 0.5 * r;
      Planar(f, x - k, y + j) == Planar(f, x, y) + Excess(f, k, j, ae, ce, br, cr)
  {
    var x, y := 1.0 + e, -0.5 - 0.5 * r;
    assert x * x - (x - k) * (x - k) == k * (2.0 - k) + 2.0 * k * e;
    assert y * y - (y + j) * (y + j) == -(j * (j - 1.0)) + j * r;
    assert x * y - (x - k) * (y + j) == -j - j * e + k * j - 0.5 * k - 0.5 * k * r;
  }

  /** The products with the small numbers, by size. */
  predicate Small(f: Form, ae: real, ce: real, be: real, br: real, cr: real) {
    && 0.0 < f.a < f.c < f.b && f.c <= 2.0 * f.a
    && 0.0 < ae < ce < be && 8.0 * be == 2.0 * cr - br && 64.0 * be < f.c - f.a
    && Abs(8.0 * br) <= f.c - f.a && Abs(8.0 * cr) <= f.c - f.a
  }

  /** By how much a translate exceeds the vector, from the products. */
  function Excess(f: Form, k: real, j: real, ae: real, ce: real, br: real, cr: real): real {
    (k * (k - 2.0)) * f.a - (2.0 * k) * ae + (j * (j - 1.0)) * f.b - j * br
    + (2.0 * j) * f.c + (2.0 * j) * ce - (2.0 * k * j) * f.c + k * f.c + k * cr
  }

  lemma ExcessPositive(f: Form, k: int, j: int, ae: real, ce: real, be: real, br: real, cr: real)
    requires Small(f, ae, ce, be, br, cr) && 1 <= k <= 3 && -1 <= j <= 1
    ensures Excess(f, k as real, j as real, ae, ce, br, cr) > 0.0
  {
    if j == -1 {
      assert Excess(f, 1.0, -1.0, ae, ce, br, cr) > 0.0;
      assert Excess(f, 2.0, -1.0, ae, ce, br, cr) > 0.0;
      assert Excess(f, 3.0, -1.0, ae, ce, br, cr) > 0.0;
    } else if j == 0 {
      assert Excess(f, 1.0, 0.0, ae, ce, br, cr) > 0.0;
      assert Excess(f, 2.0, 0.0, ae, ce, br, cr) > 0.0;
      assert Excess(f, 3.0, 0.0, ae, ce, br, cr) > 0.0;
    } else {
      assert Excess(f, 1.0, 1.0, ae, ce, br, cr) > 0.0;
      assert Excess(f, 2.0, 1.0, ae, ce, br, cr) > 0.0;
      assert Excess(f, 3.0, 1.0, ae, ce, br, cr) > 0.0;
    }
    hide Excess;
    assert k as real == if k == 1 then 1.0 else if k == 2 then 2.0 else 3.0;
  }

  /** The same vector is shorter than all nine adjacent translates. */
  lemma SkewIsShorter(f: Form, e: real, r: real, k: int, j: int)
    requires 0.0 < f.a < f.c < f.b && f.c <= 2.0 * f.a && 1 <= k <= 3 && -1 <= j <= 1
    requires e > 0.0 && 8.0 * (f.b * e) == -(f.b * r - 2.0 * (f.c * r))
    requires -(f.c - f.a) <= 8.0 * (f.b * r) <= f.c - f.a && 64.0 * (f.b * e) < f.c - f.a
    ensures var x, y := 1.0 + e, -0.5 - 0.5 * r; Planar(f, x, y) < Planar(f, x - k as real, y + j as real)
  {
    hide Planar;
    SmallByFactors(f, e, r);
    hide Small, Excess;
    ExcessPositive(f, k, j, f.a * e, f.c * e, f.b * e, f.b * r, f.c * r);
    SkewDifference(f, e, r, k as real, j as real, f.a * e, f.c * e, f.b * r, f.c * r);
  }

  lemma SmallByFactors(f: Form, e: real, r: real)
    requires 0.0 < f.a < f.c < f.b && f.c <= 2.0 * f.a
    requires e > 0.0 && 8.0 * (f.b * e) == -(f.b * r - 2.0 * (f.c * r))
    requires -(f.c - f.a) <= 8.0 * (f.b * r) <= f.c - f.a && 64.0 * (f.b * e) < f.c - f.a
    ensures Small(f, f.a * e, f.c * e, f.b * e, f.b * r, f.c * r)
  {
    PositiveProduct(f.a, e);
    LargerFactor(e, f.a, f.c);
    LargerFactor(e, f.c, f.b);
    SmallerPart(f.b, f.c, r);
  }

  lemma SmallerPart(b: real, c: real, r: real)
    requires 0.0 < c < b
    ensures Abs(c * r) <= Abs(b * r)
  {
    if r >= 0.0 {
      Product(b - c, r);
      Product(c, r);
      assert (b - c) * r == b * r - c * r;
    } else {
      Product(b - c, -r);
      Product(c, -r);
      assert (b - c) * -r == -(b * r) + c * r && c * -r == -(c * r);
    }
  }

  /** Moderately skew axes. */
  lemma MissSkew(f: Form) returns (dx: real, dy: real)
    requires 0.0 < f.a < f.c <= 2.0 * f.a && f.c < f.b && f.b != 2.0 * f.c
    ensures Missed(f, dx, dy, 2, 0)
  {
    hide Planar;
    var e, r := SmallNumbers(f.a, f.b, f.c);
    dx, dy := e - 1.0, -0.5 - 0.5 * r;
    forall i, j | Beside(i, j)
      ensures Planar(f, dx + 2 as real, dy + 0 as real) < Planar(f, dx + i as real, dy + j as real)
    {
      SkewIsShorter(f, e, r, 2 - i, j);
      assert dx + 2 as real == 1.0 + e && dx + i as real == 1.0 + e - (2 - i) as real;
    }
  }

  /** A shift along the first axis and one along the second that are small enough. */
  lemma SmallNumbers(a: real, b: real, c: real) returns (e: real, r: real)
    requires 0.0 < a < c < b && b != 2.0 * c
    ensures 0.0 < e < 0.125 && -0.125 < r < 0.125
    ensures 8.0 * (b * e) == -(b * r - 2.0 * (c * r))
    ensures -(c - a) <= 8.0 * (b * r) <= c - a && 64.0 * (b * e) < c - a
  {
    var h, s := c - a, Abs(b - 2.0 * c);
    var t := Quotient(h, b);
    PositiveProduct(s, t);
    LargerFactor(t, s, b);
    e := Quotient(s * t, b);
    r := if b > 2.0 * c then -t else t;
    Opposed(b, c, s, t, r);
  }

  /** An eighth of a quotient, and its products. */
  lemma Quotient(h: real, b: real) returns (t: real)
    requires 0.0 < h < b
    ensures 0.0 < t < 0.125 && 8.0 * (b * t) == h && 8.0 * (t * b) == h
  {
    t := h / (8.0 * b);
    assert t * (8.0 * b) == h;
    Between(t, 8.0 * b, h, 0.125);
    assert b * t == t * b && t * (8.0 * b) == 8.0 * (t * b);
  }

  lemma Opposed(b: real, c: real, s: real, t: real, r: real)
    requires s == Abs(b - 2.0 * c) && r == if b > 2.0 * c then -t else t
    ensures b * r - 2.0 * (c * r) == -(s * t) && (b * r == b * t || b * r == -(b * t))
  {
    assert b * r - 2.0 * (c * r) == (b - 2.0 * c) * r;
  }

  lemma Between(t: real, d: real, h: real, bound: real)
    requires d > 0.0 && t * d == h && 0.0 < h < bound * d
    ensures 0.0 < t < bound
  {
    if t <= 0.0 { Product(d, -t); }
    if t >= bound { Product(d, t - bound); }
  }

  /** Over axes that are not blunt some vector is missed. */
  lemma MissesSome(f: Form) returns (dx: real, dy: real, k: int, l: int)
    requires f.a > 0.0 && f.b > 0.0 && f.c * f.c < f.a * f.b && !Blunt(f)
    ensures Missed(f, dx, dy, k, l)
  {
    hide Planar;
    if f.c >= 0.0 {
      dx, dy, k, l := MissesAcute(f);
    } else {
      assert -f.c * -f.c == f.c * f.c;
      dx, dy, k, l := MissesAcute(Mirrored(f));
      MissedMirrored(f, dx, dy, k, l);
      dx, k := -dx, -k;
    }
  }

  lemma MissesAcute(f: Form) returns (dx: real, dy: real, k: int, l: int)
    requires f.a > 0.0 && f.b > 0.0 && f.c >= 0.0 && f.c * f.c < f.a * f.b && !Blunt(f)
    ensures Missed(f, dx, dy, k, l)
  {
    hide Planar;
    if f.c > f.a {
      dx, dy := MissesAlongFirst(f);
      k, l := 2, 0;
    } else {
      dy, dx := MissesAlongFirst(Swapped(f));
      MissedSwapped(f, dx, dy, 0, 2);
      k, l := 0, 2;
    }
  }

  lemma SecondIsLonger(a: real, b: real, c: real)
    requires 0.0 < a < c && c * c < a * b
    ensures c < b
  {
    LargerFactor(c, a, c);
    assert c * a == a * c;
    SmallerFactor(a, c, b);
  }

  lemma MissesAlongFirst(f: Form) returns (dx: real, dy: real)
    requires 0.0 < f.a < f.c && f.c * f.c < f.a * f.b && !Blunt(f)
    ensures Missed(f, dx, dy, 2, 0)
  {
    hide Planar;
    SecondIsLonger(f.a, f.b, f.c);
    if f.c > 2.0 * f.a { dx, dy := MissVerySkew(f); } else { dx, dy := MissSkew(f); }
  }

  lemma MissedMirrored(f: Form, dx: real, dy: real, k: int, l: int)
    requires Missed(Mirrored(f), dx, dy, k, l)
    ensures Missed(f, -dx, dy, -k, l)
  {
    hide Planar;
    assert -dx + (-k) as real == -(dx + k as real);
    Symmetries(f, -dx + (-k) as real, dy + l as real);
    forall i, j | Beside(i, j)
      ensures Planar(f, -dx + (-k) as real, dy + l as real) < Planar(f, -dx + i as real, dy + j as real)
    {
      assert Beside(-i, j);
      Symmetries(f, -dx + i as real, dy + j as real);
      assert dx + (-i) as real == -(-dx + i as real);
    }
  }

  lemma MissedSwapped(f: Form, dx: real, dy: real, k: int, l: int)
    requires Missed(Swapped(f), dy, dx, l, k)
    ensures Missed(f, dx, dy, k, l)
  {
    hide Planar;
    Symmetries(f, dx + k as real, dy + l as real);
    forall i, j | Beside(i, j)
      ensures Planar(f, dx + k as real, dy + l as real) < Planar(f, dx + i as real, dy + j as real)
    {
      assert Beside(j, i);
      Symmetries(f, dx + i as real, dy + j as real);
    }
  }
}
