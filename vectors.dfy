/** Three-vectors over the reals, and the square root the engine takes from numpy.

    numpy's `sqrt` cannot be defined over Dafny's reals, so every operation that needs it
    takes it as a parameter `sqrt`; the lemmas assume only that it is a square root on the
    non-negative reals (`IsSqrt`). A negative argument (NaN in numpy) gets an unconstrained value. */
module Vectors {

  datatype Vec3 = Vec3(x: real, y: real, z: real)

  const Origin := Vec3(0.0, 0.0, 0.0)

  function Add(a: Vec3, b: Vec3): Vec3 { Vec3(a.x + b.x, a.y + b.y, a.z + b.z) }

  function Sub(a: Vec3, b: Vec3): Vec3 { Vec3(a.x - b.x, a.y - b.y, a.z - b.z) }

  function Scale(c: real, v: Vec3): Vec3 { Vec3(c * v.x, c * v.y, c * v.z) }

  function Neg(v: Vec3): Vec3 { Vec3(-v.x, -v.y, -v.z) }

  function Dot(a: Vec3, b: Vec3): real { a.x * b.x + a.y * b.y + a.z * b.z }

  function Abs(a: real): real { if a < 0.0 then -a else a }

  function Min(a: real, b: real): real { if a <= b then a else b }

  function Max(a: real, b: real): real { if a >= b then a else b }

  /** `sqrt` is a square root on the non-negative reals. */
  ghost predicate IsSqrt(sqrt: real -> real) {
    forall x :: 0.0 <= x ==> 0.0 <= sqrt(x) && sqrt(x) * sqrt(x) == x
  }

  /** Euclidean length (`utils.norm`). */
  function Norm(sqrt: real -> real, v: Vec3): real { sqrt(Dot(v, v)) }

  /** Unit vector along `v` (`utils.hat`); the zero vector, for which numpy yields NaNs, is left as it is. */
  function Hat(sqrt: real -> real, v: Vec3): Vec3 {
    var n := Norm(sqrt, v);
    if n == 0.0 then v else Scale(1.0 / n, v)
  }

  function Cross(a: Vec3, b: Vec3): Vec3 {
    Vec3(a.y * b.z - a.z * b.y, a.z * b.x - a.x * b.z, a.x * b.y - a.y * b.x)
  }

  // Facts about products of reals. Each names the product (`p`) so that callers
  // reason about it linearly.

  lemma PositiveProduct(a: real, b: real, p: real)
    requires 0.0 < a && 0.0 < b && p == a * b
    ensures 0.0 < p
  {
  }

  lemma Square(a: real, p: real)
    requires p == a * a
    ensures 0.0 <= p
    ensures a != 0.0 ==> 0.0 < p
  {
    if 0.0 < a {
      PositiveProduct(a, a, p);
    } else if a < 0.0 {
      PositiveProduct(-a, -a, p);
    }
  }

  /** Two non-negative reals with the same square are equal. */
  lemma SameSquare(s: real, y: real)
    requires 0.0 <= s && 0.0 <= y && s * s == y * y
    ensures s == y
  {
    if s < y {
      assert (y - s) * (y + s) == y * y - s * s;
      PositiveProduct(y - s, y + s, (y - s) * (y + s));
    }
    if y < s {
      assert (s - y) * (y + s) == s * s - y * y;
      PositiveProduct(s - y, y + s, (s - y) * (y + s));
    }
  }

  /** A non-negative root of a positive number is positive. */
  lemma PositiveRoot(n: real, d: real)
    requires 0.0 <= n && n * n == d && 0.0 < d
    ensures 0.0 < n
  {
    if n == 0.0 {
      assert false;
    }
  }

  /** The value of `sqrt` at a non-negative argument. */
  lemma SqrtOf(sqrt: real -> real, x: real)
    requires IsSqrt(sqrt) && 0.0 <= x
    ensures 0.0 <= sqrt(x) && sqrt(x) * sqrt(x) == x
  {
  }

  /** The square root of `x` is the only non-negative number whose square is `x`. */
  lemma SqrtUnique(sqrt: real -> real, x: real, y: real)
    requires IsSqrt(sqrt)
    requires 0.0 <= y && y * y == x
    ensures sqrt(x) == y
  {
    var s := sqrt(x);
    SqrtOf(sqrt, x);
    SameSquare(s, y);
  }

  lemma DotSelf(v: Vec3)
    ensures 0.0 <= Dot(v, v)
    ensures v != Origin ==> 0.0 < Dot(v, v)
  {
    Square(v.x, v.x * v.x);
    Square(v.y, v.y * v.y);
    Square(v.z, v.z * v.z);
  }

  /** The norm is non-negative, squares to `v·v`, and vanishes exactly on the zero vector. */
  lemma NormSquare(sqrt: real -> real, v: Vec3)
    requires IsSqrt(sqrt)
    ensures 0.0 <= Norm(sqrt, v)
    ensures Norm(sqrt, v) * Norm(sqrt, v) == Dot(v, v)
    ensures v == Origin ==> Norm(sqrt, v) == 0.0
    ensures v != Origin ==> 0.0 < Norm(sqrt, v)
  {
    var d := Dot(v, v);
    DotSelf(v);
    SqrtOf(sqrt, d);
    if v == Origin {
      assert d == 0.0;
      SqrtUnique(sqrt, d, 0.0);
    } else {
      PositiveRoot(sqrt(d), d);
    }
  }

  lemma DotScaleScale(a: real, b: real, v: Vec3, w: Vec3)
    ensures Dot(Scale(a, v), Scale(b, w)) == a * b * Dot(v, w)
  {
  }

  lemma Inverse(n: real)
    requires n != 0.0
    ensures (1.0 / n) * n == 1.0
  {
  }

  /** `Hat` of a non-zero vector is a unit vector along it. */
  /** `Hat` of a non-zero vector is a unit vector that, scaled by the length, is the vector. */
  lemma HatInverse(sqrt: real -> real, v: Vec3)
    ensures IsSqrt(sqrt) && v != Origin ==>
      Dot(Hat(sqrt, v), Hat(sqrt, v)) == 1.0 && Scale(Norm(sqrt, v), Hat(sqrt, v)) == v
  {
    if IsSqrt(sqrt) && v != Origin {
      HatUnit(sqrt, v);
      var n := Norm(sqrt, v);
      ScaleScale(n, 1.0 / n, v);
      ScaleOne(v);
    }
  }

  lemma HatUnit(sqrt: real -> real, v: Vec3)
    requires IsSqrt(sqrt) && v != Origin
    ensures Dot(Hat(sqrt, v), Hat(sqrt, v)) == 1.0
    ensures Norm(sqrt, Hat(sqrt, v)) == 1.0
    ensures Hat(sqrt, v) == Scale(1.0 / Norm(sqrt, v), v) && 0.0 < Norm(sqrt, v)
  {
    var n := Norm(sqrt, v);
    NormSquare(sqrt, v);
    var u := 1.0 / n;
    Inverse(n);
    DotScaleScale(u, u, v, v);
    assert u * u * Dot(v, v) == (u * n) * (u * n);
    SqrtUnique(sqrt, 1.0, 1.0);
  }

  lemma NonNegativeProduct(a: real, b: real, p: real)
    requires 0.0 <= a && 0.0 <= b && p == a * b
    ensures 0.0 <= p
  {
    if 0.0 < a && 0.0 < b {
      PositiveProduct(a, b, p);
    }
  }

  lemma MulEq(x: real, y: real, x2: real, y2: real)
    requires x == x2 && y == y2
    ensures x * y == x2 * y2
  {
  }

  lemma AbsSquare(c: real)
    ensures 0.0 <= Abs(c) && Abs(c) * Abs(c) == c * c
  {
  }

  lemma ScaledRoot(a: real, n: real, c: real, d: real)
    requires 0.0 <= a && 0.0 <= n && a * a == c * c && n * n == d
    ensures 0.0 <= a * n && (a * n) * (a * n) == c * c * d
  {
    NonNegativeProduct(a, n, a * n);
    assert (a * n) * (a * n) == (a * a) * (n * n);
    MulEq(a * a, n * n, c * c, d);
  }

  /** The square root of `c² d` is `|c|` times that of `d`. */
  lemma ScaledSqrt(sqrt: real -> real, c: real, d: real, e: real)
    requires IsSqrt(sqrt) && 0.0 <= d && e == c * c * d
    ensures sqrt(e) == Abs(c) * sqrt(d)
  {
    var n := sqrt(d);
    SqrtOf(sqrt, d);
    AbsSquare(c);
    ScaledRoot(Abs(c), n, c, d);
    SqrtUnique(sqrt, e, Abs(c) * n);
  }

  /** Length scales with the absolute value of the factor. */
  lemma NormScale(sqrt: real -> real, c: real, v: Vec3)
    requires IsSqrt(sqrt)
    ensures Norm(sqrt, Scale(c, v)) == Abs(c) * Norm(sqrt, v)
  {
    var d := Dot(v, v);
    var e := Dot(Scale(c, v), Scale(c, v));
    assert 0.0 <= d by { DotSelf(v); }
    assert e == c * c * d by { DotScaleScale(c, c, v, v); }
    ScaledSqrt(sqrt, c, d, e);
  }

  lemma DotAddScale(a: real, v: Vec3, b: real, u: Vec3, n: Vec3)
    ensures Dot(Add(Scale(a, v), Scale(b, u)), n) == a * Dot(v, n) + b * Dot(u, n)
  {
    assert (a * v.x + b * u.x) * n.x == a * (v.x * n.x) + b * (u.x * n.x);
    assert (a * v.y + b * u.y) * n.y == a * (v.y * n.y) + b * (u.y * n.y);
    assert (a * v.z + b * u.z) * n.z == a * (v.z * n.z) + b * (u.z * n.z);
  }

  // `(a v + b n) × n = a (v × n)` and `(c v) × n = c (v × n)`, one coordinate per lemma so that
  // each proof sees only the products of its own coordinate.

  /** A coordinate of a cross product, `w1 n2 - w2 n1`, when `w = a v + b n`. */
  lemma CrossCoordinate(a: real, b: real, v1: real, v2: real, n1: real, n2: real, w1: real, w2: real, c: real)
    requires w1 == a * v1 + b * n1 && w2 == a * v2 + b * n2 && c == v1 * n2 - v2 * n1
    ensures w1 * n2 - w2 * n1 == a * c
  {
  }

  lemma CrossLinearX(a: real, v: Vec3, b: real, n: Vec3)
    ensures Cross(Add(Scale(a, v), Scale(b, n)), n).x == Scale(a, Cross(v, n)).x
  {
    var w := Add(Scale(a, v), Scale(b, n));
    var c := Cross(v, n);
    CrossCoordinate(a, b, v.y, v.z, n.y, n.z, w.y, w.z, c.x);
  }

  lemma CrossLinearY(a: real, v: Vec3, b: real, n: Vec3)
    ensures Cross(Add(Scale(a, v), Scale(b, n)), n).y == Scale(a, Cross(v, n)).y
  {
    var w := Add(Scale(a, v), Scale(b, n));
    var c := Cross(v, n);
    CrossCoordinate(a, b, v.z, v.x, n.z, n.x, w.z, w.x, c.y);
  }

  lemma CrossLinearZ(a: real, v: Vec3, b: real, n: Vec3)
    ensures Cross(Add(Scale(a, v), Scale(b, n)), n).z == Scale(a, Cross(v, n)).z
  {
    var w := Add(Scale(a, v), Scale(b, n));
    var c := Cross(v, n);
    CrossCoordinate(a, b, v.x, v.y, n.x, n.y, w.x, w.y, c.z);
  }

  /** Adding a multiple of `n` leaves the cross product with `n` as it was, scaled. */
  lemma CrossLinear(a: real, v: Vec3, b: real, n: Vec3)
    ensures Cross(Add(Scale(a, v), Scale(b, n)), n) == Scale(a, Cross(v, n))
  {
    CrossLinearX(a, v, b, n);
    CrossLinearY(a, v, b, n);
    CrossLinearZ(a, v, b, n);
  }

  lemma CrossScaleX(c: real, v: Vec3, n: Vec3)
    ensures Cross(Scale(c, v), n).x == Scale(c, Cross(v, n)).x
  {
    var w := Scale(c, v);
    var k := Cross(v, n);
    CrossCoordinate(c, 0.0, v.y, v.z, n.y, n.z, w.y, w.z, k.x);
  }

  lemma CrossScaleY(c: real, v: Vec3, n: Vec3)
    ensures Cross(Scale(c, v), n).y == Scale(c, Cross(v, n)).y
  {
    var w := Scale(c, v);
    var k := Cross(v, n);
    CrossCoordinate(c, 0.0, v.z, v.x, n.z, n.x, w.z, w.x, k.y);
  }

  lemma CrossScaleZ(c: real, v: Vec3, n: Vec3)
    ensures Cross(Scale(c, v), n).z == Scale(c, Cross(v, n)).z
  {
    var w := Scale(c, v);
    var k := Cross(v, n);
    CrossCoordinate(c, 0.0, v.x, v.y, n.x, n.y, w.x, w.y, k.z);
  }

  lemma CrossScale(c: real, v: Vec3, n: Vec3)
    ensures Cross(Scale(c, v), n) == Scale(c, Cross(v, n))
  {
    CrossScaleX(c, v, n);
    CrossScaleY(c, v, n);
    CrossScaleZ(c, v, n);
  }

  // ---------------------------------------------------------------------------------------
  // Algebraic steps used by the geometry of the elements

  lemma ZScale(c: real, n: Vec3)
    requires n.x == 0.0 && n.y == 0.0 && n.z == 1.0
    ensures Scale(c, n) == Vec3(0.0, 0.0, c)
  {
  }

  lemma SqrtOne(sqrt: real -> real)
    requires IsSqrt(sqrt)
    ensures sqrt(1.0) == 1.0
  {
    SqrtUnique(sqrt, 1.0, 1.0);
  }

  lemma SqrtZero(sqrt: real -> real)
    requires IsSqrt(sqrt)
    ensures sqrt(0.0) == 0.0
  {
    SqrtUnique(sqrt, 0.0, 0.0);
  }

  lemma ScaleOne(a: Vec3)
    ensures Scale(1.0, a) == a
  {
  }

  lemma SquaredLength(w: Vec3)
    ensures 0.0 <= Dot(w, w)
  {
    DotSelf(w);
  }

  lemma DotSymmetric(u: Vec3, v: Vec3)
    ensures Dot(u, v) == Dot(v, u)
  {
  }

  /** With `r = −zc a − w` and `w` orthogonal to `a`: `w·r = −w·w`. */
  lemma OffsetAcross(a: Vec3, w: Vec3, zc: real, r: Vec3)
    requires Dot(w, a) == 0.0 && r == Add(Scale(-zc, a), Scale(-1.0, w))
    ensures Dot(w, r) == -Dot(w, w)
  {
    DotAddScale(-zc, a, -1.0, w, w);
    DotSymmetric(a, w);
    DotSymmetric(r, w);
  }

  lemma Combine(zc: real, ar: real, wr: real, ww: real, rr: real)
    requires rr == -zc * ar + -1.0 * wr && ar == -zc && wr == -ww
    ensures rr == zc * zc + ww
  {
  }

  lemma NegatedSquare(b: real, zc: real)
    requires b == -zc
    ensures b * b == zc * zc
  {
  }

  lemma DiscriminantFrom(b: real, mm: real, r: real, ww: real, q2: real)
    requires mm == b * b + ww && q2 == b * b - (mm - r * r)
    ensures q2 == r * r - ww
  {
  }

  lemma SqrtOfSquare(sqrt: real -> real, d: real, r: real)
    requires IsSqrt(sqrt) && d == r * r
    ensures 0.0 <= d && sqrt(d) == Abs(r)
  {
    AbsSquare(r);
    SqrtUnique(sqrt, d, Abs(r));
  }

  /** A vector of zero length is zero. */
  /** A point at a positive squared distance `rr` or more from `c` is not `c`. */
  lemma OffCentre(p: Vec3, c: Vec3, rr: real)
    requires 0.0 < rr <= Dot(Sub(p, c), Sub(p, c))
    ensures p != c
  {
  }

  lemma ZeroLength(w: Vec3)
    requires Dot(w, w) == 0.0
    ensures w == Origin
  {
    DotSelf(w);
  }

  lemma AddOrigin(u: Vec3, w: Vec3)
    requires w == Origin
    ensures Add(u, w) == u
  {
  }

  /** Adding a vector of zero length changes nothing. */
  lemma AddZeroLength(u: Vec3, w: Vec3)
    requires Dot(w, w) == 0.0
    ensures Add(u, w) == u
  {
    ZeroLength(w);
    AddOrigin(u, w);
  }

  lemma StepTo(p: Vec3, q: Vec3, u: Vec3)
    requires Sub(q, p) == u
    ensures Add(p, u) == q
  {
  }

  lemma ScaleScale(c: real, d: real, v: Vec3)
    ensures Scale(c, Scale(d, v)) == Scale(c * d, v)
  {
  }

  lemma SignOf(r: real)
    requires r != 0.0
    ensures (1.0 / Abs(r)) * r == if r > 0.0 then 1.0 else -1.0
  {
  }

  lemma NegMinusOne(a: Vec3)
    ensures Neg(Scale(-1.0, a)) == a
  {
  }

  lemma SumAlong(n1: real, n2: real, a: Vec3)
    ensures Add(Scale(n1, a), Scale(n2 * 1.0 - n1 * 1.0, a)) == Scale(n2, a)
  {
  }

  lemma ScaledBack(n2: real, a: Vec3)
    requires n2 != 0.0
    ensures Scale(1.0 / n2, Scale(n2, a)) == a
  {
    ScaleScale(1.0 / n2, n2, a);
    Inverse(n2);
    ScaleOne(a);
  }

  lemma ScaleByOne(d: Vec3)
    ensures Scale(1.0 / 1.0, d) == d
  {
  }

  lemma NonNegativeNorm(sqrt: real -> real, d: Vec3)
    requires IsSqrt(sqrt)
    ensures 0.0 <= Norm(sqrt, d)
  {
    SquaredLength(d);
    SqrtOf(sqrt, Dot(d, d));
  }

  lemma PastPlane(p: Vec3, pos: Vec3, a: Vec3, t: real, z: real, w: Vec3)
    requires Sub(pos, p) == Add(Scale(z, a), w)
    ensures Sub(Add(p, Scale(t, a)), pos) == Add(Scale(t - z, a), Scale(-1.0, w))
  {
  }

  lemma RootMeetsHeight(ww: real, z: real, t: real)
    requires 0.0 <= z && 0.0 <= t && 0.0 <= ww && t * t == z * z + ww
    ensures t == z <==> ww == 0.0
  {
    if ww == 0.0 {
      SameSquare(t, z);
    }
  }

  lemma DotExpand(r: Vec3, u: Vec3, l: real)
    ensures Dot(Add(r, Scale(l, u)), Add(r, Scale(l, u))) == Dot(r, r) + 2.0 * l * Dot(r, u) + l * l * Dot(u, u)
  {
    ExpandStep(r.x, u.x, l);
    ExpandStep(r.y, u.y, l);
    ExpandStep(r.z, u.z, l);
    Distribute3(2.0 * l, r.x * u.x, r.y * u.y, r.z * u.z);
    Distribute3(l * l, u.x * u.x, u.y * u.y, u.z * u.z);
  }

  /** `a − 2c v` written as the combination `1 a + (−2c) v`. */
  lemma SubScaled(a: Vec3, c: real, v: Vec3)
    ensures Sub(a, Scale(2.0 * c, v)) == Add(Scale(1.0, a), Scale(-2.0 * c, v))
  {
    assert a.x - 2.0 * c * v.x == 1.0 * a.x + -2.0 * c * v.x;
    assert a.y - 2.0 * c * v.y == 1.0 * a.y + -2.0 * c * v.y;
    assert a.z - 2.0 * c * v.z == 1.0 * a.z + -2.0 * c * v.z;
  }

  lemma ExpandStep(a: real, b: real, l: real)
    ensures (a + l * b) * (a + l * b) == a * a + 2.0 * l * (a * b) + l * l * (b * b)
  {
  }

  lemma Distribute3(c: real, a: real, b: real, d: real)
    ensures c * (a + b + d) == c * a + c * b + c * d
  {
  }

  /** The landing point of a root, seen from the centre, is `r + l k̂`. */
  lemma LandingOffset(p: Vec3, c: Vec3, l: real, u: Vec3)
    ensures Sub(Add(p, Scale(l, u)), c) == Add(Sub(p, c), Scale(l, u))
  {
  }

  lemma RootLands(rr: real, b: real, q: real, l: real, rad2: real)
    requires q * q == b * b - (rr - rad2)
    requires l == -b + q || l == -b - q
    ensures rr + 2.0 * l * b + l * l * 1.0 == rad2
  {
    assert l * l + 2.0 * l * b == (l + b) * (l + b) - b * b;
  }

  lemma MissScalar(rr: real, b: real, l: real, rad2: real)
    requires b * b - (rr - rad2) < 0.0
    ensures rr + 2.0 * l * b + l * l * 1.0 > rad2
  {
    Square(l + b, (l + b) * (l + b));
    assert (l + b) * (l + b) == l * l + 2.0 * l * b + b * b;
  }

  /** `|p + l u − c|² = |r|² + 2 l (r·u) + l² |u|²` with `r = p − c`. */
  lemma LandingSquare(p: Vec3, c: Vec3, u: Vec3, l: real)
    ensures var r := Sub(p, c);
      var d := Sub(Add(p, Scale(l, u)), c);
      Dot(d, d) == Dot(r, r) + 2.0 * l * Dot(r, u) + l * l * Dot(u, u)
  {
    LandingOffset(p, c, l, u);
    DotExpand(Sub(p, c), u, l);
  }

  lemma Rewrite(q2: real, bb: real, nn: real, d: real, rr: real)
    requires q2 == bb - (nn - rr) && nn == d
    ensures q2 == bb - (d - rr)
  {
  }

  lemma ScaleRatio(n1: real, n2: real, v: Vec3)
    requires n2 != 0.0
    ensures Scale(1.0 / n2, Scale(n1, v)) == Scale(n1 / n2, v)
  {
    assert (1.0 / n2) * n1 == n1 / n2;
    assert (1.0 / n2) * (n1 * v.x) == (n1 / n2) * v.x;
    assert (1.0 / n2) * (n1 * v.y) == (n1 / n2) * v.y;
    assert (1.0 / n2) * (n1 * v.z) == (n1 / n2) * v.z;
  }

  lemma AbsInverse(c: real)
    requires c != 0.0
    ensures Abs(1.0 / c) * Abs(c) == 1.0
  {
    if c < 0.0 {
      assert Abs(1.0 / c) * Abs(c) == (1.0 / c) * c;
    }
  }

  /** `|v / c| · |c| = |v|`, and it is never negative. */
  lemma PlaneDistanceScaled(sqrt: real -> real, c: real, v: Vec3)
    requires IsSqrt(sqrt) && c != 0.0
    ensures 0.0 <= Norm(sqrt, Scale(1.0 / c, v))
    ensures Norm(sqrt, Scale(1.0 / c, v)) * Abs(c) == Norm(sqrt, v)
  {
    var t := Norm(sqrt, Scale(1.0 / c, v));
    var nd := Norm(sqrt, v);
    assert t == Abs(1.0 / c) * nd by { NormScale(sqrt, 1.0 / c, v); }
    assert 0.0 <= nd by { NormSquare(sqrt, v); }
    ScaledLength(c, nd, t);
  }

  /** `t = |1/c| nd` with `nd ≥ 0` gives `t ≥ 0` and `t |c| = nd`. */
  lemma ScaledLength(c: real, nd: real, t: real)
    requires c != 0.0 && 0.0 <= nd && t == Abs(1.0 / c) * nd
    ensures 0.0 <= t && t * Abs(c) == nd
  {
    AbsInverse(c);
    PlaneDistance(Abs(1.0 / c), Abs(c), nd, t);
  }

  lemma PlaneDistance(a: real, ac: real, nd: real, t: real)
    requires a * ac == 1.0 && 0.0 <= nd && t == a * nd && 0.0 <= a
    ensures 0.0 <= t && t * ac == nd
  {
    NonNegativeProduct(a, nd, t);
    assert t * ac == (a * ac) * nd;
  }
}
