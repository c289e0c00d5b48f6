/** Rays travelling parallel to the axis of an element: the arrangement testing.py sets up,
    stated for any axis direction `a` (a unit vector), curvature, vertex distance, refractive
    indices and offset from the axis. `SphericalRefraction` and `OutputPlane` always face
    along z, which is the instance `a = (0, 0, 1)` (ConstructedOnAxis, ConstructedOutput). */
module Axial {
  import opened Vectors
  import opened Outcomes
  import opened Rays
  import opened OpticalElements

  predicate Unit(a: Vec3) {
    Dot(a, a) == 1.0
  }

  /** A spherical surface whose centre lies one radius from its vertex along the unit vector `a`. */
  predicate OnAxis(e: Element, a: Vec3) {
    e.Spherical? && e.curvrad != 0.0 && e.centre == Add(e.pos, Scale(e.curvrad, a))
  }

  // ---------------------------------------------------------------------------------------
  // The constructors put their elements on the z axis

  /** `SphericalRefraction(curv, aperad, pos, n1, n2)` is a surface on the z axis through `pos`. */
  lemma ConstructedOnAxis(curv: real, aperad: real, pos: Vec3, n1: real, n2: real)
    requires curv != 0.0
    ensures NewSpherical(curv, aperad, pos, n1, n2).Ok?
    ensures Unit(DefaultNormal) && OnAxis(NewSpherical(curv, aperad, pos, n1, n2).value, DefaultNormal)
  {
    ZScale(NewSpherical(curv, aperad, pos, n1, n2).value.curvrad, DefaultNormal);
  }

  /** `OutputPlane(pos, n1, n2)` faces along z. */
  lemma ConstructedOutput(pos: Vec3, n1: real, n2: real)
    ensures var e := NewOutput(pos, n1, n2).value;
      e.Output? && Unit(DefaultNormal) && e.normal == DefaultNormal && e.pos == pos
  {
  }

  // ---------------------------------------------------------------------------------------
  // The ray's position seen from the centre

  /** The offset of the ray's position from the centre, when the vertex lies `v` along the axis
      and `w` across it from the ray's position. */
  lemma CentreOffset(e: Element, a: Vec3, p: Vec3, v: real, w: Vec3)
    requires OnAxis(e, a) && Sub(e.pos, p) == Add(Scale(v, a), w)
    ensures Sub(p, e.centre) == Add(Scale(-(v + e.curvrad), a), Scale(-1.0, w))
  {
  }

  // ---------------------------------------------------------------------------------------
  // The discriminant for a ray parallel to the axis

  /** The hypotheses shared by the theorems below: a unit axis `a`, a surface on it, and a ray
      heading along `a` from a point `v` short of the vertex along the axis and `w` off it. */
  predicate Parallel(e: Element, a: Vec3, s: RayState, v: real, w: Vec3) {
    Unit(a) && OnAxis(e, a) && s.k == a && Sub(e.pos, s.P()) == Add(Scale(v, a), w) && Dot(w, a) == 0.0
  }

  lemma DiscriminantExpanded(e: Element, s: RayState, sqrt: real -> real)
    requires e.Spherical?
    ensures var m := Norm(sqrt, Sub(s.P(), e.centre));
      Discriminant(e, s, sqrt) == RDotKhat(e, s, sqrt) * RDotKhat(e, s, sqrt) - (m * m - e.curvrad * e.curvrad)
  {
  }

  lemma NormSquared(sqrt: real -> real, r: Vec3, d: real)
    requires IsSqrt(sqrt) && Dot(r, r) == d
    ensures Norm(sqrt, r) * Norm(sqrt, r) == d
  {
    SquaredLength(r);
    SqrtOf(sqrt, d);
  }

  /** `r·k̂ = −(v + R)`: the centre lies `v + R` ahead along the axis. */
  lemma AxisB(e: Element, a: Vec3, s: RayState, sqrt: real -> real, v: real, w: Vec3)
    requires IsSqrt(sqrt) && Parallel(e, a, s, v, w)
    ensures RDotKhat(e, s, sqrt) == -(v + e.curvrad)
  {
    UnitHat(sqrt, a);
    CentreOffset(e, a, s.P(), v, w);
    OffsetAlong(a, w, v + e.curvrad, Sub(s.P(), e.centre));
  }

  /** `r·r = zc² + w·w`, with `zc = v + R` how far ahead along the axis the centre lies … */
  lemma AxisLength(e: Element, a: Vec3, p: Vec3, v: real, w: Vec3, zc: real, r: Vec3)
    requires Unit(a) && OnAxis(e, a) && Sub(e.pos, p) == Add(Scale(v, a), w) && Dot(w, a) == 0.0
    requires zc == v + e.curvrad && r == Sub(p, e.centre)
    ensures Dot(r, r) == zc * zc + Dot(w, w)
  {
    CentreOffset(e, a, p, v, w);
    OffsetLength(a, w, zc, r);
  }

  /** … so `|r|² = (r·k̂)² + w·w`. */
  lemma AxisNorm(e: Element, a: Vec3, s: RayState, sqrt: real -> real, v: real, w: Vec3, zc: real)
    requires IsSqrt(sqrt) && Parallel(e, a, s, v, w) && zc == v + e.curvrad
    ensures var m := Norm(sqrt, Sub(s.P(), e.centre));
      m * m == RDotKhat(e, s, sqrt) * RDotKhat(e, s, sqrt) + Dot(w, w)
  {
    var r := Sub(s.P(), e.centre);
    AxisB(e, a, s, sqrt, v, w);
    NegatedSquare(RDotKhat(e, s, sqrt), zc);
    AxisLength(e, a, s.P(), v, w, zc, r);
    NormSquared(sqrt, r, zc * zc + Dot(w, w));
  }

  /** The discriminant for a ray parallel to the axis is `R² − w·w`: it depends only on how far
      the ray runs from the axis. */
  lemma AxisDiscriminant(e: Element, a: Vec3, s: RayState, sqrt: real -> real, v: real, w: Vec3)
    requires IsSqrt(sqrt) && Parallel(e, a, s, v, w)
    ensures RDotKhat(e, s, sqrt) == -(v + e.curvrad)
    ensures Discriminant(e, s, sqrt) == e.curvrad * e.curvrad - Dot(w, w)
  {
    var m := Norm(sqrt, Sub(s.P(), e.centre));
    AxisB(e, a, s, sqrt, v, w);
    AxisNorm(e, a, s, sqrt, v, w, v + e.curvrad);
    DiscriminantExpanded(e, s, sqrt);
    DiscriminantFrom(RDotKhat(e, s, sqrt), m * m, e.curvrad, Dot(w, w), Discriminant(e, s, sqrt));
  }

  /** A ray parallel to the axis misses the sphere exactly when it runs farther from the axis
      than the radius; a miss hands back the ray's flag. */
  lemma ParallelMiss(e: Element, a: Vec3, s: RayState, sqrt: real -> real, v: real, w: Vec3)
    requires IsSqrt(sqrt) && Parallel(e, a, s, v, w)
    ensures SphereIntercept(e, s, sqrt).Miss? <==> e.curvrad * e.curvrad < Dot(w, w)
    ensures SphereIntercept(e, s, sqrt).Miss? ==> SphereIntercept(e, s, sqrt) == Miss(s.terminated)
  {
    AxisDiscriminant(e, a, s, sqrt, v, w);
  }

  // ---------------------------------------------------------------------------------------
  // A ray along the axis of a spherical surface

  /** On the axis the discriminant is `R²` … */
  lemma AxialDiscriminant(e: Element, a: Vec3, s: RayState, sqrt: real -> real, v: real, w: Vec3)
    requires IsSqrt(sqrt) && Parallel(e, a, s, v, w) && Dot(w, w) == 0.0
    ensures Discriminant(e, s, sqrt) == e.curvrad * e.curvrad
  {
    AxisDiscriminant(e, a, s, sqrt, v, w);
  }

  /** … and its root is `|R|`. */
  lemma RootOfSquare(e: Element, s: RayState, sqrt: real -> real)
    requires e.Spherical? && Discriminant(e, s, sqrt) == e.curvrad * e.curvrad
    requires sqrt(e.curvrad * e.curvrad) == Abs(e.curvrad)
    ensures 0.0 <= Discriminant(e, s, sqrt) && Root(e, s, sqrt) == Abs(e.curvrad)
  {
    Square(e.curvrad, e.curvrad * e.curvrad);
  }

  /** The intercept as opticalelements.py:75-91 computes it, from `b = r·k̂` and the root `q`. */
  lemma InterceptOf(e: Element, s: RayState, sqrt: real -> real, b: real, q: real)
    requires e.Spherical? && RDotKhat(e, s, sqrt) == b && 0.0 <= Discriminant(e, s, sqrt)
    requires Root(e, s, sqrt) == q
    ensures SphereIntercept(e, s, sqrt)
         == if Abs(b) > 0.0 then (if e.curvrad > 0.0 then At(Min(-b + q, -b - q)) else At(Max(-b + q, -b - q)))
            else At(-b + q)
  {
  }

  /** The root `intercept` keeps: the nearer one for a positive radius, the farther one for a
      negative radius; with the centre ahead of the ray, both are the vertex. */
  lemma VertexRoot(zc: real, r: real)
    requires 0.0 < zc && r != 0.0
    ensures (if r > 0.0 then Min(zc + Abs(r), zc - Abs(r)) else Max(zc + Abs(r), zc - Abs(r))) == zc - r
  {
  }

  /** A ray along the axis meets the surface at its vertex, `v` ahead, whatever the sign of the
      curvature, as long as the centre lies ahead of the ray. */
  lemma AxialDistance(e: Element, a: Vec3, s: RayState, sqrt: real -> real, v: real, w: Vec3)
    requires IsSqrt(sqrt) && Parallel(e, a, s, v, w) && Dot(w, w) == 0.0 && 0.0 < v + e.curvrad
    ensures SphereIntercept(e, s, sqrt) == At(v)
  {
    var zc := v + e.curvrad;
    AxisB(e, a, s, sqrt, v, w);
    AxialDiscriminant(e, a, s, sqrt, v, w);
    SqrtOfSquare(sqrt, e.curvrad * e.curvrad, e.curvrad);
    RootOfSquare(e, s, sqrt);
    InterceptOf(e, s, sqrt, -zc, Abs(e.curvrad));
    VertexRoot(zc, e.curvrad);
  }

  /** Where a ray heading along `a` lands after a step of `v`. */
  lemma LandingAt(e: Element, s: RayState, sqrt: real -> real, v: real, a: Vec3)
    requires e.Spherical? && SphereIntercept(e, s, sqrt) == At(v) && Hat(sqrt, s.k) == a
    ensures SphereLanding(e, s, sqrt) == Add(s.P(), Scale(v, a))
  {
  }

  /** … so `refraction` and `reflection` put it at the vertex. */
  lemma AxialIntercept(e: Element, a: Vec3, s: RayState, sqrt: real -> real, v: real, w: Vec3)
    requires IsSqrt(sqrt) && Parallel(e, a, s, v, w) && Dot(w, w) == 0.0 && 0.0 < v + e.curvrad
    ensures SphereIntercept(e, s, sqrt) == At(v)
    ensures SphereLanding(e, s, sqrt) == e.pos
  {
    AxialDistance(e, a, s, sqrt, v, w);
    UnitHat(sqrt, a);
    LandingAt(e, s, sqrt, v, a);
    AddZeroLength(Scale(v, a), w);
    StepTo(s.P(), e.pos, Scale(v, a));
  }

  // ---------------------------------------------------------------------------------------
  // The normal at the vertex

  lemma CentreAhead(e: Element, a: Vec3)
    requires OnAxis(e, a)
    ensures Sub(e.centre, e.pos) == Scale(e.curvrad, a)
  {
  }

  /** At the vertex the normal `refraction` and `reflection` use is `a` itself, for either sign
      of the radius. */
  lemma AxialNormal(e: Element, a: Vec3, sqrt: real -> real)
    requires IsSqrt(sqrt) && Unit(a) && OnAxis(e, a)
    ensures SphereNormal(e, e.pos, sqrt) == a
  {
    CentreAhead(e, a);
    HatAlong(sqrt, a, e.curvrad);
    ScaleOne(a);
    NegMinusOne(a);
  }

  // ---------------------------------------------------------------------------------------
  // Snell's law at normal incidence

  lemma SineAtNormalIncidence(a: Vec3, s: RayState, sqrt: real -> real)
    requires Unit(a) && Hat(sqrt, s.k) == a && sqrt(0.0) == 0.0
    ensures SinTheta1(a, s, sqrt) == 0.0
  {
    assert 1.0 - Dot(a, a) * Dot(a, a) == 0.0;
  }

  lemma NoTIRAtNormalIncidence(n1: real, n2: real, a: Vec3, s: RayState, sqrt: real -> real)
    requires 0.0 < n1 && 0.0 < n2 && SinTheta1(a, s, sqrt) == 0.0
    ensures !TIR(n1, n2, a, s, sqrt)
  {
    assert 0.0 < n2 / n1;
  }

  lemma CosAtNormalIncidence(n1: real, n2: real, a: Vec3, s: RayState, sqrt: real -> real)
    requires n2 != 0.0 && sqrt(1.0) == 1.0 && SinTheta1(a, s, sqrt) == 0.0
    ensures Cos2(n1, n2, a, s, sqrt) == 1.0
  {
    assert 1.0 - (n1 / n2 * 0.0) * (n1 / n2 * 0.0) == 1.0;
  }

  lemma KeptAlong(n1: real, n2: real, a: Vec3, s: RayState, sqrt: real -> real)
    requires n2 != 0.0 && Hat(sqrt, s.k) == a && Cos2(n1, n2, a, s, sqrt) == 1.0
    ensures RefractedK(n1, n2, a, s, sqrt) == a
  {
    SumAlong(n1, n2, a);
    ScaledBack(n2, a);
  }

  /** The non-TIR branch of `Snell`. */
  lemma SnellRefracts(n1: real, n2: real, normal: Vec3, s: RayState, sqrt: real -> real, k: Vec3)
    requires n1 != 0.0 && n2 != 0.0 && !TIR(n1, n2, normal, s, sqrt) && RefractedK(n1, n2, normal, s, sqrt) == k
    ensures Snell(n1, n2, normal, s, sqrt) == Outcome(s.(k := k), Returned)
  {
  }

  /** A ray meeting a surface along its normal, between two positive indices, is not totally
      reflected and keeps its direction. */
  lemma NormalIncidence(n1: real, n2: real, a: Vec3, s: RayState, sqrt: real -> real)
    requires IsSqrt(sqrt) && Unit(a) && 0.0 < n1 && 0.0 < n2 && s.k == a
    ensures Snell(n1, n2, a, s, sqrt) == Outcome(s, Returned)
  {
    SqrtOne(sqrt);
    SqrtZero(sqrt);
    UnitHat(sqrt, a);
    SineAtNormalIncidence(a, s, sqrt);
    NoTIRAtNormalIncidence(n1, n2, a, s, sqrt);
    CosAtNormalIncidence(n1, n2, a, s, sqrt);
    KeptAlong(n1, n2, a, s, sqrt);
    SnellRefracts(n1, n2, a, s, sqrt, a);
    SameK(s, a);
  }

  // ---------------------------------------------------------------------------------------
  // Refraction and reflection of a ray along the axis

  /** A ray along the axis crosses a spherical surface undeviated: `refraction` appends the
      vertex and leaves the direction as it was. */
  lemma AxialRefraction(e: Element, a: Vec3, s: RayState, sqrt: real -> real, v: real, w: Vec3)
    requires IsSqrt(sqrt) && Parallel(e, a, s, v, w) && Dot(w, w) == 0.0 && 0.0 < v + e.curvrad
    requires 0.0 < e.n1 && 0.0 < e.n2
    ensures SphereRefracted(e, s, sqrt) == Outcome(s.(vertices := s.vertices + [e.pos]), Returned)
  {
    AxialIntercept(e, a, s, sqrt, v, w);
    AxialNormal(e, a, sqrt);
    NormalIncidence(e.n1, e.n2, a, s.(vertices := s.vertices + [e.pos]), sqrt);
  }

  /** Mirroring a unit vector about itself reverses it. */
  lemma MirrorSelf(a: Vec3)
    requires Unit(a)
    ensures Mirror(a, a) == Neg(a)
  {
  }

  /** A ray along the axis reflected at a spherical surface lands at the vertex and comes
      straight back. */
  lemma AxialReflection(e: Element, a: Vec3, s: RayState, sqrt: real -> real, v: real, w: Vec3)
    requires IsSqrt(sqrt) && Parallel(e, a, s, v, w) && Dot(w, w) == 0.0 && 0.0 < v + e.curvrad
    ensures SphereReflected(e, s, sqrt) == s.(vertices := s.vertices + [e.pos], k := Neg(a))
  {
    AxialIntercept(e, a, s, sqrt, v, w);
    AxialNormal(e, a, sqrt);
    UnitHat(sqrt, a);
    MirrorSelf(a);
  }

  // ---------------------------------------------------------------------------------------
  // A plane facing along the axis

  /** The hypotheses for the plane: it faces along the unit vector `a`, and the ray heads along
      `a` from a point `z` short of the plane's `pos` along `a` and `w` off it. */
  predicate Facing(e: Element, a: Vec3, s: RayState, z: real, w: Vec3) {
    (e.Plane? || e.Output?) && Unit(a) && e.normal == a && s.k == a
    && Sub(e.pos, s.P()) == Add(Scale(z, a), w) && Dot(w, a) == 0.0
  }

  /** With `n·k̂ = 1` the step is `|pos − p|`. */
  lemma StepAlong(e: Element, a: Vec3, s: RayState, sqrt: real -> real, d: Vec3)
    requires (e.Plane? || e.Output?) && Unit(a) && e.normal == a && Hat(sqrt, s.k) == a && Sub(e.pos, s.P()) == d
    ensures var t := Norm(sqrt, d);
      PlaneStep(e, s, sqrt) == Landing(Some(t), s.(vertices := s.vertices + [Add(s.P(), Scale(t, a))]))
  {
    ScaleByOne(d);
  }

  /** The ray the output plane's step leaves: `p + t a` appended. */
  lemma OutputRay(e: Element, a: Vec3, s: RayState, sqrt: real -> real, z: real, w: Vec3)
    requires IsSqrt(sqrt) && Facing(e, a, s, z, w)
    ensures PlaneStep(e, s, sqrt).distance.Some?
    ensures var t := PlaneStep(e, s, sqrt).distance.value;
      PlaneStep(e, s, sqrt).ray == s.(vertices := s.vertices + [Add(s.P(), Scale(t, a))])
  {
    UnitHat(sqrt, a);
    StepAlong(e, a, s, sqrt, Sub(e.pos, s.P()));
  }

  /** The distance of that step: `t ≥ 0` with `t² = z² + w·w`. */
  lemma OutputDistance(e: Element, a: Vec3, s: RayState, sqrt: real -> real, z: real, w: Vec3)
    requires IsSqrt(sqrt) && Facing(e, a, s, z, w)
    ensures PlaneStep(e, s, sqrt).distance.Some?
    ensures var t := PlaneStep(e, s, sqrt).distance.value;
      0.0 <= t && t * t == z * z + Dot(w, w)
  {
    var d := Sub(e.pos, s.P());
    UnitHat(sqrt, a);
    StepAlong(e, a, s, sqrt, d);
    AcrossLength(a, w, z, d);
    NormSquared(sqrt, d, z * z + Dot(w, w));
    NonNegativeNorm(sqrt, d);
  }

  /** The output plane's step is `|pos − p| / |n·k̂|`, not the distance to the plane: a ray
      heading along the normal, `z` short of the plane and `w` off the axis through `pos`,
      steps `t` with `t² = z² + w·w` and lands at `p + t a`. */
  lemma OutputStep(e: Element, a: Vec3, s: RayState, sqrt: real -> real, z: real, w: Vec3)
    requires IsSqrt(sqrt) && Facing(e, a, s, z, w)
    ensures PlaneStep(e, s, sqrt).distance.Some?
    ensures var t := PlaneStep(e, s, sqrt).distance.value;
      0.0 <= t && t * t == z * z + Dot(w, w) &&
      PlaneStep(e, s, sqrt).ray == s.(vertices := s.vertices + [Add(s.P(), Scale(t, a))])
  {
    OutputRay(e, a, s, sqrt, z, w);
    OutputDistance(e, a, s, sqrt, z, w);
  }

  /** The output plane leaves the ray `t − z` beyond itself, measured along its normal. */
  lemma OutputHeight(e: Element, a: Vec3, s: RayState, sqrt: real -> real, z: real, w: Vec3)
    requires IsSqrt(sqrt) && Facing(e, a, s, z, w)
    ensures var l := PlaneStep(e, s, sqrt);
      l.distance.Some? && Dot(Sub(l.ray.P(), e.pos), e.normal) == l.distance.value - z
  {
    OutputRay(e, a, s, sqrt, z, w);
    var t := PlaneStep(e, s, sqrt).distance.value;
    LastAppended(s, Add(s.P(), Scale(t, a)));
    HeightPast(s.P(), e.pos, a, t, z, w);
  }

  /** The step equals the gap `z` exactly when the ray runs through `pos`. */
  lemma StepEqualsGap(e: Element, a: Vec3, s: RayState, sqrt: real -> real, z: real, w: Vec3)
    requires IsSqrt(sqrt) && Facing(e, a, s, z, w) && 0.0 <= z
    ensures var l := PlaneStep(e, s, sqrt);
      l.distance.Some? && (l.distance.value == z <==> Dot(w, w) == 0.0)
  {
    OutputDistance(e, a, s, sqrt, z, w);
    SquaredLength(w);
    RootMeetsHeight(Dot(w, w), z, PlaneStep(e, s, sqrt).distance.value);
  }

  /** So the plane in front of a ray heading along its normal receives the ray exactly when the
      ray runs through `pos`; any other such ray ends beyond the plane. */
  lemma OutputLandsOnPlane(e: Element, a: Vec3, s: RayState, sqrt: real -> real, z: real, w: Vec3)
    requires IsSqrt(sqrt) && Facing(e, a, s, z, w) && 0.0 <= z
    ensures var l := PlaneStep(e, s, sqrt);
      Dot(Sub(l.ray.P(), e.pos), e.normal) == 0.0 <==> Dot(w, w) == 0.0
  {
    OutputHeight(e, a, s, sqrt, z, w);
    StepEqualsGap(e, a, s, sqrt, z, w);
  }

  /** A ray along the axis through `pos` (testing.py's default output plane case) steps exactly
      `z` and lands on `pos`. */
  lemma AxialOutput(e: Element, a: Vec3, s: RayState, sqrt: real -> real, z: real, w: Vec3)
    requires IsSqrt(sqrt) && Facing(e, a, s, z, w) && 0.0 <= z && Dot(w, w) == 0.0
    ensures PlaneStep(e, s, sqrt) == Landing(Some(z), s.(vertices := s.vertices + [e.pos]))
  {
    OutputStep(e, a, s, sqrt, z, w);
    var t := PlaneStep(e, s, sqrt).distance.value;
    SameSquare(t, z);
    AddZeroLength(Scale(z, a), w);
    StepTo(s.P(), e.pos, Scale(z, a));
  }

  // ---------------------------------------------------------------------------------------
  // Steps the theorems above are assembled from

  /** A unit vector is its own direction. */
  lemma UnitHat(sqrt: real -> real, a: Vec3)
    requires IsSqrt(sqrt) && Unit(a)
    ensures Norm(sqrt, a) == 1.0 && Hat(sqrt, a) == a
  {
    SqrtOne(sqrt);
    ScaleOne(a);
  }

  /** With `r = −zc a − w` and `w` across the unit axis `a`: `r·a = −zc`. */
  lemma OffsetAlong(a: Vec3, w: Vec3, zc: real, r: Vec3)
    requires Unit(a) && Dot(w, a) == 0.0 && r == Add(Scale(-zc, a), Scale(-1.0, w))
    ensures Dot(r, a) == -zc
  {
    DotAddScale(-zc, a, -1.0, w, a);
  }

  /** With `r = −zc a − w` and `w` across the unit axis `a`: `r·r = zc² + w·w`. */
  lemma OffsetLength(a: Vec3, w: Vec3, zc: real, r: Vec3)
    requires Unit(a) && Dot(w, a) == 0.0 && r == Add(Scale(-zc, a), Scale(-1.0, w))
    ensures Dot(r, r) == zc * zc + Dot(w, w)
  {
    DotAddScale(-zc, a, -1.0, w, r);
    OffsetAlong(a, w, zc, r);
    DotSymmetric(a, r);
    OffsetAcross(a, w, zc, r);
    Combine(zc, Dot(a, r), Dot(w, r), Dot(w, w), Dot(r, r));
  }

  /** `|R a| = |R|` for a unit vector `a`. */
  lemma NormAlong(sqrt: real -> real, a: Vec3, r: real)
    requires IsSqrt(sqrt) && Unit(a)
    ensures Norm(sqrt, Scale(r, a)) == Abs(r)
  {
    NormScale(sqrt, r, a);
    UnitHat(sqrt, a);
  }

  /** The direction of `R a` is `±a`, with the sign of `R`. */
  lemma HatAlong(sqrt: real -> real, a: Vec3, r: real)
    requires IsSqrt(sqrt) && Unit(a) && r != 0.0
    ensures Hat(sqrt, Scale(r, a)) == Scale(if r > 0.0 then 1.0 else -1.0, a)
  {
    NormAlong(sqrt, a, r);
    ScaleScale(1.0 / Abs(r), r, a);
    SignOf(r);
  }

  lemma SameK(s: RayState, a: Vec3)
    requires s.k == a
    ensures s.(k := a) == s
  {
  }

  /** `|z a + w|² = z² + w·w` for `w` across the unit vector `a`. */
  lemma AcrossLength(a: Vec3, w: Vec3, z: real, d: Vec3)
    requires Unit(a) && Dot(w, a) == 0.0 && d == Add(Scale(z, a), w)
    ensures Dot(d, d) == z * z + Dot(w, w)
  {
    ScaleOne(w);
    DotAddScale(z, a, 1.0, w, d);
    DotAddScale(z, a, 1.0, w, a);
    DotAddScale(z, a, 1.0, w, w);
    DotSymmetric(a, d);
    DotSymmetric(w, d);
    DotSymmetric(a, w);
    Combine(-z, Dot(a, d), -Dot(w, d), Dot(w, w), Dot(d, d));
  }

  /** How far past the plane, measured along `a`, a point `t` along the ray lies: `t − z`. */
  lemma HeightPast(p: Vec3, pos: Vec3, a: Vec3, t: real, z: real, w: Vec3)
    requires Unit(a) && Dot(w, a) == 0.0 && Sub(pos, p) == Add(Scale(z, a), w)
    ensures Dot(Sub(Add(p, Scale(t, a)), pos), a) == t - z
  {
    PastPlane(p, pos, a, t, z, w);
    DotAddScale(t - z, a, -1.0, w, a);
  }

  lemma LastAppended(s: RayState, p: Vec3)
    ensures s.(vertices := s.vertices + [p]).P() == p
  {
  }
}
