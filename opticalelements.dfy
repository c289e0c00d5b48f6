/** Optical elements that refract, reflect or detect rays (opticalelements.py): a spherical
    refracting surface, a refracting plane and an output plane, all built on a base element
    that only holds a position and the refractive indices on either side. */
module OpticalElements {
  import opened Vectors
  import opened Outcomes
  import opened Rays

  const DefaultPos := Vec3(0.0, 0.0, 10.0)
  const DefaultNormal := Vec3(0.0, 0.0, 1.0)
  const DefaultWidth := Vec3(2.5, 0.0, 0.0)
  const DefaultHeight := Vec3(0.0, 2.5, 0.0)

  /** The elements. No field of an element changes after construction. */
  datatype Element =
    | Base(pos: Vec3, n1: real, n2: real)
    | Spherical(pos: Vec3, n1: real, n2: real, curv: real, curvrad: real, aperad: real, centre: Vec3)
    | Plane(pos: Vec3, n1: real, n2: real, normal: Vec3, width: Vec3, height: Vec3)
    | Output(pos: Vec3, n1: real, n2: real, normal: Vec3, width: Vec3, height: Vec3)

  /** `OpticalElements(pos, n1, n2)`. */
  function NewBase(pos: Vec3 := DefaultPos, n1: real := 1.0, n2: real := 1.5): (e: Element)
    ensures e.Base? && e.pos == pos && e.n1 == n1 && e.n2 == n2
  {
    Base(pos, n1, n2)
  }

  /** `SphericalRefraction(curv, aperad, pos, n1, n2)`: a zero curvature raises ValueError;
      otherwise the radius is the reciprocal of the curvature and the centre lies one radius
      along z from the surface's intercept with the axis. */
  function NewSpherical(curv: real, aperad: real, pos: Vec3 := DefaultPos, n1: real := 1.0, n2: real := 1.5)
    : (r: Result<Element>)
    ensures r.Err? <==> curv == 0.0
    ensures r.Err? ==> r.error == ValueError
    ensures r.Ok? ==> (r.value.Spherical? && r.value.pos == pos && r.value.n1 == n1 && r.value.n2 == n2
      && r.value.curv == curv && r.value.aperad == aperad
      && r.value.curvrad * curv == 1.0 && r.value.curvrad != 0.0
      && r.value.centre == Add(pos, Vec3(0.0, 0.0, r.value.curvrad)))
  {
    if curv == 0.0 then Err(ValueError)
    else
      var curvrad := 1.0 / curv;
      Ok(Spherical(pos, n1, n2, curv, curvrad, aperad, Add(pos, Vec3(0.0, 0.0, curvrad))))
  }

  /** `Plane(pos, n1, n2, normal=…, width=…, height=…)`: raises ValueError unless width and
      height are orthogonal. */
  function NewPlane(pos: Vec3 := DefaultPos, n1: real := 1.0, n2: real := 1.5, normal: Vec3 := DefaultNormal,
                    width: Vec3 := DefaultWidth, height: Vec3 := DefaultHeight): (r: Result<Element>)
    ensures r.Err? <==> Dot(width, height) != 0.0
    ensures r.Err? ==> r.error == ValueError
    ensures r.Ok? ==> r.value == Plane(pos, n1, n2, normal, width, height)
  {
    if Dot(width, height) != 0.0 then Err(ValueError) else Ok(Plane(pos, n1, n2, normal, width, height))
  }

  /** `OutputPlane(pos, n1, n2)`: it forwards only positional arguments to the plane constructor,
      so it always gets the default normal, width and height, and the orthogonality check passes. */
  function NewOutput(pos: Vec3 := DefaultPos, n1: real := 1.0, n2: real := 1.5): (r: Result<Element>)
    ensures r.Ok?
    ensures r.value == Output(pos, n1, n2, DefaultNormal, DefaultWidth, DefaultHeight)
  {
    match NewPlane(pos, n1, n2)
    case Ok(p) => Ok(Output(p.pos, p.n1, p.n2, p.normal, p.width, p.height))
    case Err(x) => Err(x)
  }

  // ---------------------------------------------------------------------------------------
  // Spherical surface

  /** What `SphericalRefraction.intercept` returns: a distance along the ray, or, when the
      ray misses, the ray's `terminated` flag. */
  datatype Hit = Miss(flag: bool) | At(distance: real)

  /** The factor the intercept contributes to `p + intercept * khat`: a distance, or the flag
      as a number (False is 0, True is 1). */
  function Advance(h: Hit): real {
    match h
    case At(l) => l
    case Miss(b) => if b then 1.0 else 0.0
  }

  /** `r·k̂`, where `r` runs from the sphere's centre to the ray's position. */
  function RDotKhat(e: Element, s: RayState, sqrt: real -> real): real
    requires e.Spherical?
  {
    Dot(Sub(s.P(), e.centre), Hat(sqrt, s.k))
  }

  /** The discriminant of the ray-sphere quadratic. */
  function Discriminant(e: Element, s: RayState, sqrt: real -> real): real
    requires e.Spherical?
  {
    var r := Sub(s.P(), e.centre);
    var b := RDotKhat(e, s, sqrt);
    b * b - (Norm(sqrt, r) * Norm(sqrt, r) - e.curvrad * e.curvrad)
  }

  /** The square root of the discriminant. */
  function Root(e: Element, s: RayState, sqrt: real -> real): real
    requires e.Spherical?
  {
    sqrt(Discriminant(e, s, sqrt))
  }

  /** `SphericalRefraction.intercept`: reads the ray, changes nothing. The ray misses exactly
      when the discriminant is negative, and then the result is the flag; otherwise it is one of
      the two roots `-b ± q`. */
  function SphereIntercept(e: Element, s: RayState, sqrt: real -> real): (h: Hit)
    requires e.Spherical?
    ensures h.Miss? <==> Discriminant(e, s, sqrt) < 0.0
    ensures h.Miss? ==> h.flag == s.terminated
    ensures h.At? ==>
      h.distance == -RDotKhat(e, s, sqrt) + Root(e, s, sqrt) ||
      h.distance == -RDotKhat(e, s, sqrt) - Root(e, s, sqrt)
  {
    var b := RDotKhat(e, s, sqrt);
    var disc := Discriminant(e, s, sqrt);
    if disc < 0.0 then Miss(s.terminated)
    else
      var q := Root(e, s, sqrt);
      var l1 := -b + q;
      var l2 := -b - q;
      if Abs(b) > 0.0 then
        if e.curvrad > 0.0 then At(Min(l1, l2)) else At(Max(l1, l2))
      else At(l1)
  }

  /** Root selection: with `q` the square root of the discriminant, `l1 = -b + q >= l2 = -b - q`;
      for `b ≠ 0` a positive radius takes the smaller root `l2` and any other radius the larger
      root `l1`; for `b = 0` the result is `l1`. */
  lemma InterceptRoot(e: Element, s: RayState, sqrt: real -> real)
    requires e.Spherical? && IsSqrt(sqrt)
    requires 0.0 <= Discriminant(e, s, sqrt)
    ensures var b := RDotKhat(e, s, sqrt);
      var q := Root(e, s, sqrt);
      0.0 <= q && q * q == Discriminant(e, s, sqrt) && -b + q >= -b - q &&
      SphereIntercept(e, s, sqrt) == At(if b != 0.0 && e.curvrad > 0.0 then -b - q else -b + q)
  {
    SqrtOf(sqrt, Discriminant(e, s, sqrt));
    RootChoice(e, s, sqrt);
  }

  /** Which of the two roots `intercept` returns, once `q` is known to be non-negative. */
  lemma RootChoice(e: Element, s: RayState, sqrt: real -> real)
    requires e.Spherical? && 0.0 <= Discriminant(e, s, sqrt) && 0.0 <= Root(e, s, sqrt)
    ensures var b := RDotKhat(e, s, sqrt);
      var q := Root(e, s, sqrt);
      -b + q >= -b - q &&
      SphereIntercept(e, s, sqrt) == At(if b != 0.0 && e.curvrad > 0.0 then -b - q else -b + q)
  {
  }

  /** A point `p + l u`, for a unit `u` and `l` a root of `|p + l u − c|² = rad²`, is on the sphere. */
  lemma OnSphere(p: Vec3, c: Vec3, u: Vec3, l: real, rad: real, q: real)
    requires Dot(u, u) == 1.0
    requires var r := Sub(p, c);
      var b := Dot(r, u);
      q * q == b * b - (Dot(r, r) - rad * rad) && (l == -b + q || l == -b - q)
    ensures var d := Sub(Add(p, Scale(l, u)), c);
      Dot(d, d) == rad * rad
  {
    LandingSquare(p, c, u, l);
    RootLands(Dot(Sub(p, c), Sub(p, c)), Dot(Sub(p, c), u), q, l, rad * rad);
  }

  /** A returned root lands on the sphere: `|P + l·k̂ − C|² = R²` (for a non-zero direction). */
  lemma InterceptLands(e: Element, s: RayState, sqrt: real -> real)
    requires e.Spherical? && IsSqrt(sqrt) && s.k != Origin
    requires SphereIntercept(e, s, sqrt).At?
    ensures var d := Sub(Add(s.P(), Scale(SphereIntercept(e, s, sqrt).distance, Hat(sqrt, s.k))), e.centre);
      Dot(d, d) == e.curvrad * e.curvrad
  {
    InterceptRoot(e, s, sqrt);
    RootLandsOnSphere(e, s, sqrt, SphereIntercept(e, s, sqrt).distance);
  }

  /** `q² = b² − (r·r − R²)` for the root `q` of a non-negative discriminant. */
  lemma RootSquared(e: Element, s: RayState, sqrt: real -> real)
    requires e.Spherical? && IsSqrt(sqrt) && 0.0 <= Discriminant(e, s, sqrt)
    ensures var r := Sub(s.P(), e.centre);
      var b := RDotKhat(e, s, sqrt);
      Root(e, s, sqrt) * Root(e, s, sqrt) == b * b - (Dot(r, r) - e.curvrad * e.curvrad)
  {
    InterceptRoot(e, s, sqrt);
    DiscriminantDot(e, s, sqrt);
  }

  /** Either root `-b ± q` of the ray-sphere quadratic lands on the sphere. */
  lemma RootLandsOnSphere(e: Element, s: RayState, sqrt: real -> real, l: real)
    requires e.Spherical? && IsSqrt(sqrt) && s.k != Origin && 0.0 <= Discriminant(e, s, sqrt)
    requires l == -RDotKhat(e, s, sqrt) + Root(e, s, sqrt) || l == -RDotKhat(e, s, sqrt) - Root(e, s, sqrt)
    ensures var d := Sub(Add(s.P(), Scale(l, Hat(sqrt, s.k))), e.centre);
      Dot(d, d) == e.curvrad * e.curvrad
  {
    HatUnit(sqrt, s.k);
    RootSquared(e, s, sqrt);
    UnitRootLands(e, s, sqrt, l);
  }

  /** The step from the two facts about `k̂` and `q` to the landing point, with no square root
      left to take. */
  lemma UnitRootLands(e: Element, s: RayState, sqrt: real -> real, l: real)
    requires e.Spherical? && Dot(Hat(sqrt, s.k), Hat(sqrt, s.k)) == 1.0
    requires var r := Sub(s.P(), e.centre);
      var b := RDotKhat(e, s, sqrt);
      Root(e, s, sqrt) * Root(e, s, sqrt) == b * b - (Dot(r, r) - e.curvrad * e.curvrad)
    requires l == -RDotKhat(e, s, sqrt) + Root(e, s, sqrt) || l == -RDotKhat(e, s, sqrt) - Root(e, s, sqrt)
    ensures var d := Sub(Add(s.P(), Scale(l, Hat(sqrt, s.k))), e.centre);
      Dot(d, d) == e.curvrad * e.curvrad
  {
    OnSphere(s.P(), e.centre, Hat(sqrt, s.k), l, e.curvrad, Root(e, s, sqrt));
  }

  /** A returned distance is one of the two roots `-b ± q` of `l² + 2 b l + |r|² − R² = 0`. */
  lemma HitRoot(e: Element, s: RayState, sqrt: real -> real)
    requires e.Spherical? && IsSqrt(sqrt)
    requires SphereIntercept(e, s, sqrt).At?
    ensures var r := Sub(s.P(), e.centre);
      var b := RDotKhat(e, s, sqrt);
      var q := Root(e, s, sqrt);
      var l := SphereIntercept(e, s, sqrt).distance;
      q * q == b * b - (Dot(r, r) - e.curvrad * e.curvrad) && (l == -b + q || l == -b - q)
  {
    DiscriminantDot(e, s, sqrt);
    InterceptRoot(e, s, sqrt);
  }

  /** The discriminant with `|r|²` written as `r·r`. */
  lemma DiscriminantDot(e: Element, s: RayState, sqrt: real -> real)
    requires e.Spherical? && IsSqrt(sqrt)
    ensures var r := Sub(s.P(), e.centre);
      var b := RDotKhat(e, s, sqrt);
      Discriminant(e, s, sqrt) == b * b - (Dot(r, r) - e.curvrad * e.curvrad)
  {
    var r := Sub(s.P(), e.centre);
    var nr := Norm(sqrt, r);
    assert nr * nr == Dot(r, r) by { NormSquare(sqrt, r); }
    var b := RDotKhat(e, s, sqrt);
    Rewrite(Discriminant(e, s, sqrt), b * b, nr * nr, Dot(r, r), e.curvrad * e.curvrad);
  }

  /** With a negative discriminant, every point `p + l u` (unit `u`) is outside the sphere. */
  lemma OffSphere(p: Vec3, c: Vec3, u: Vec3, l: real, rad: real)
    requires Dot(u, u) == 1.0
    requires var r := Sub(p, c);
      Dot(r, u) * Dot(r, u) - (Dot(r, r) - rad * rad) < 0.0
    ensures var d := Sub(Add(p, Scale(l, u)), c);
      Dot(d, d) > rad * rad
  {
    LandingSquare(p, c, u, l);
    MissScalar(Dot(Sub(p, c), Sub(p, c)), Dot(Sub(p, c), u), l, rad * rad);
  }

  /** On a miss every point of the ray's line lies strictly outside the sphere, so none is on it
      (for a non-zero direction). */
  lemma MissNoIntersection(e: Element, s: RayState, sqrt: real -> real, l: real)
    requires e.Spherical? && IsSqrt(sqrt) && s.k != Origin
    requires SphereIntercept(e, s, sqrt).Miss?
    ensures var d := Sub(Add(s.P(), Scale(l, Hat(sqrt, s.k))), e.centre);
      Dot(d, d) > e.curvrad * e.curvrad
  {
    DiscriminantDot(e, s, sqrt);
    HatUnit(sqrt, s.k);
    UnitMissOff(e, s, sqrt, l);
  }

  /** The step from a unit `k̂` and a negative discriminant, written with `r·r`, to the miss. */
  lemma UnitMissOff(e: Element, s: RayState, sqrt: real -> real, l: real)
    requires e.Spherical? && Dot(Hat(sqrt, s.k), Hat(sqrt, s.k)) == 1.0
    requires var r := Sub(s.P(), e.centre);
      var b := RDotKhat(e, s, sqrt);
      b * b - (Dot(r, r) - e.curvrad * e.curvrad) < 0.0
    ensures var d := Sub(Add(s.P(), Scale(l, Hat(sqrt, s.k))), e.centre);
      Dot(d, d) > e.curvrad * e.curvrad
  {
    OffSphere(s.P(), e.centre, Hat(sqrt, s.k), l, e.curvrad);
  }

  /** The outward normal used at a landing point: towards the centre for a positive radius,
      away from it otherwise. */
  function SphereNormal(e: Element, newp: Vec3, sqrt: real -> real): Vec3
    requires e.Spherical?
  {
    if e.curvrad > 0.0 then Hat(sqrt, Sub(e.centre, newp)) else Neg(Hat(sqrt, Sub(e.centre, newp)))
  }

  lemma SphereNormalUnit(e: Element, newp: Vec3, sqrt: real -> real)
    requires e.Spherical? && IsSqrt(sqrt) && newp != e.centre
    ensures Dot(SphereNormal(e, newp, sqrt), SphereNormal(e, newp, sqrt)) == 1.0
  {
    var h := Hat(sqrt, Sub(e.centre, newp));
    assert Sub(e.centre, newp) != Origin;
    HatUnit(sqrt, Sub(e.centre, newp));
    assert Dot(Neg(h), Neg(h)) == Dot(h, h);
  }

  // ---------------------------------------------------------------------------------------
  // Snell's law, shared by the spherical and the planar refraction

  /** A ray after an operation, and how the operation ended. */
  datatype Outcome = Outcome(ray: RayState, status: Status)

  function SinTheta1(normal: Vec3, s: RayState, sqrt: real -> real): real {
    var c1 := Dot(normal, Hat(sqrt, s.k));
    sqrt(1.0 - c1 * c1)
  }

  /** Total internal reflection: the sine of the incidence angle exceeds `n2/n1`. */
  predicate TIR(n1: real, n2: real, normal: Vec3, s: RayState, sqrt: real -> real) {
    n1 != 0.0 && SinTheta1(normal, s, sqrt) > n2 / n1
  }

  /** `cosθ2 = sqrt(1 − (n1/n2 · sinθ1)²)`. */
  function Cos2(n1: real, n2: real, normal: Vec3, s: RayState, sqrt: real -> real): real
    requires n2 != 0.0
  {
    var sin1 := SinTheta1(normal, s, sqrt);
    sqrt(1.0 - (n1 / n2 * sin1) * (n1 / n2 * sin1))
  }

  /** The direction Snell's law gives, as opticalelements.py:117 writes it: `cosθ2` stands in both normal
      terms, `(n1 k̂ + (n2 cosθ2 − n1 cosθ2) n) / n2`. */
  function RefractedK(n1: real, n2: real, normal: Vec3, s: RayState, sqrt: real -> real): Vec3
    requires n2 != 0.0
  {
    var cos2 := Cos2(n1, n2, normal, s, sqrt);
    Scale(1.0 / n2, Add(Scale(n1, Hat(sqrt, s.k)), Scale(n2 * cos2 - n1 * cos2, normal)))
  }

  /** The tail of both `refraction` methods: a zero `n1` or (past the TIR test) a zero `n2`
      raises ZeroDivisionError; total internal reflection returns with the ray unchanged;
      otherwise `k` becomes the refracted direction. */
  function Snell(n1: real, n2: real, normal: Vec3, s: RayState, sqrt: real -> real): Outcome {
    if n1 == 0.0 then Outcome(s, Raised(ZeroDivisionError))
    else if TIR(n1, n2, normal, s, sqrt) then Outcome(s, Returned)
    else if n2 == 0.0 then Outcome(s, Raised(ZeroDivisionError))
    else Outcome(s.(k := RefractedK(n1, n2, normal, s, sqrt)), Returned)
  }

  /** Snell's law never touches the vertices, the frequency or the flag, and changes `k` only
      on the non-TIR branch. */
  lemma SnellFrame(n1: real, n2: real, normal: Vec3, s: RayState, sqrt: real -> real)
    ensures var o := Snell(n1, n2, normal, s, sqrt);
      o.ray.vertices == s.vertices && o.ray.freq == s.freq && o.ray.terminated == s.terminated
    ensures TIR(n1, n2, normal, s, sqrt) ==> Snell(n1, n2, normal, s, sqrt) == Outcome(s, Returned)
    ensures Snell(n1, n2, normal, s, sqrt).status.Raised? <==> n1 == 0.0 || (n2 == 0.0 && !TIR(n1, n2, normal, s, sqrt))
  {
  }

  /** Snell's law in vector form: off the TIR branch, `n2 (k' × n) = n1 (k̂ × n)`, so the part of
      the new direction tangential to the surface is `n1/n2` times that of the incident `k̂`. */
  lemma SnellTangential(n1: real, n2: real, normal: Vec3, s: RayState, sqrt: real -> real)
    requires n1 != 0.0 && n2 != 0.0 && !TIR(n1, n2, normal, s, sqrt)
    ensures Cross(Snell(n1, n2, normal, s, sqrt).ray.k, normal) == Scale(n1 / n2, Cross(Hat(sqrt, s.k), normal))
  {
    var khat := Hat(sqrt, s.k);
    var cos2 := Cos2(n1, n2, normal, s, sqrt);
    var w := Add(Scale(n1, khat), Scale(n2 * cos2 - n1 * cos2, normal));
    var newk := Snell(n1, n2, normal, s, sqrt).ray.k;
    assert newk == Scale(1.0 / n2, w);
    assert Cross(newk, normal) == Scale(1.0 / n2, Cross(w, normal)) by { CrossScale(1.0 / n2, w, normal); }
    assert Cross(w, normal) == Scale(n1, Cross(khat, normal)) by { CrossLinear(n1, khat, n2 * cos2 - n1 * cos2, normal); }
    ScaleRatio(n1, n2, Cross(khat, normal));
  }

  // ---------------------------------------------------------------------------------------
  // Refraction and reflection at the spherical surface

  /** Where `refraction` and `reflection` put the ray: `p + intercept * k̂`. */
  function SphereLanding(e: Element, s: RayState, sqrt: real -> real): Vec3
    requires e.Spherical?
  {
    Add(s.P(), Scale(Advance(SphereIntercept(e, s, sqrt)), Hat(sqrt, s.k)))
  }

  /** The point a ray is moved to by a surface of non-zero radius is never the centre: a hit
      lies on the sphere, and on a miss the whole line is outside it. So the normal there is
      always defined. */
  lemma LandingOffCentre(e: Element, s: RayState, sqrt: real -> real)
    requires e.Spherical? && IsSqrt(sqrt) && s.k != Origin && e.curvrad != 0.0
    ensures SphereLanding(e, s, sqrt) != e.centre
  {
    var h := SphereIntercept(e, s, sqrt);
    var d := Sub(SphereLanding(e, s, sqrt), e.centre);
    Square(e.curvrad, e.curvrad * e.curvrad);
    if h.Miss? {
      MissNoIntersection(e, s, sqrt, Advance(h));
    } else {
      InterceptLands(e, s, sqrt);
    }
    OffCentre(SphereLanding(e, s, sqrt), e.centre, e.curvrad * e.curvrad);
  }

  /** `SphericalRefraction.refraction`: appends the landing point, then applies Snell's law with
      the surface normal there. The `== None` guard never fires, since the intercept is never None. */
  function SphereRefracted(e: Element, s: RayState, sqrt: real -> real): Outcome
    requires e.Spherical?
  {
    var newp := SphereLanding(e, s, sqrt);
    Snell(e.n1, e.n2, SphereNormal(e, newp, sqrt), s.(vertices := s.vertices + [newp]), sqrt)
  }

  /** Refraction appends exactly one vertex, the landing point, keeps the frequency and the flag,
      and leaves `k` alone on total internal reflection. */
  lemma RefractionAppendsOne(e: Element, s: RayState, sqrt: real -> real)
    requires e.Spherical?
    ensures var o := SphereRefracted(e, s, sqrt);
      o.ray.vertices == s.vertices + [SphereLanding(e, s, sqrt)] &&
      o.ray.P() == SphereLanding(e, s, sqrt) &&
      o.ray.freq == s.freq && o.ray.terminated == s.terminated
    ensures var newp := SphereLanding(e, s, sqrt);
      var s1 := s.(vertices := s.vertices + [newp]);
      TIR(e.n1, e.n2, SphereNormal(e, newp, sqrt), s1, sqrt) ==>
        SphereRefracted(e, s, sqrt) == Outcome(s1, Returned)
  {
    var newp := SphereLanding(e, s, sqrt);
    SnellFrame(e.n1, e.n2, SphereNormal(e, newp, sqrt), s.(vertices := s.vertices + [newp]), sqrt);
  }

  /** On a miss of a ray whose flag is False, refraction steps by zero: the current position is
      appended again. */
  lemma MissAppendsCurrent(e: Element, s: RayState, sqrt: real -> real)
    requires e.Spherical? && SphereIntercept(e, s, sqrt).Miss? && !s.terminated
    ensures SphereRefracted(e, s, sqrt).ray.vertices == s.vertices + [s.P()]
  {
    RefractionAppendsOne(e, s, sqrt);
    assert Scale(0.0, Hat(sqrt, s.k)) == Origin;
  }

  /** The direction `reflection` sets: `k̂ − 2(n·k̂)n`. */
  function Mirror(khat: Vec3, normal: Vec3): Vec3 {
    Sub(khat, Scale(2.0 * Dot(normal, khat), normal))
  }

  /** `SphericalRefraction.reflection`: appends the landing point and mirrors the direction about
      the surface normal there. */
  function SphereReflected(e: Element, s: RayState, sqrt: real -> real): RayState
    requires e.Spherical?
  {
    var newp := SphereLanding(e, s, sqrt);
    s.(vertices := s.vertices + [newp], k := Mirror(Hat(sqrt, s.k), SphereNormal(e, newp, sqrt)))
  }

  /** For a unit normal, mirroring keeps the length, negates the normal component and keeps the
      tangential part. */
  lemma MirrorProperties(khat: Vec3, normal: Vec3)
    requires Dot(normal, normal) == 1.0
    ensures Dot(Mirror(khat, normal), normal) == -Dot(khat, normal)
    ensures Cross(Mirror(khat, normal), normal) == Cross(khat, normal)
    ensures Dot(Mirror(khat, normal), Mirror(khat, normal)) == Dot(khat, khat)
  {
    var c := Dot(normal, khat);
    var m := Mirror(khat, normal);
    assert Dot(khat, normal) == c;
    assert m == Add(Scale(1.0, khat), Scale(-2.0 * c, normal)) by { SubScaled(khat, c, normal); }
    assert Dot(m, normal) == -c by { DotAddScale(1.0, khat, -2.0 * c, normal, normal); }
    assert Dot(m, khat) == Dot(khat, khat) - 2.0 * c * c by { DotAddScale(1.0, khat, -2.0 * c, normal, khat); }
    assert Dot(m, m) == Dot(khat, m) + (-2.0 * c) * Dot(normal, m) by { DotAddScale(1.0, khat, -2.0 * c, normal, m); }
    assert Cross(m, normal) == Scale(1.0, Cross(khat, normal)) by { CrossLinear(1.0, khat, -2.0 * c, normal); }
    assert Scale(1.0, Cross(khat, normal)) == Cross(khat, normal);
  }

  /** Reflection appends the landing point and mirrors `k̂` about a unit normal: the new
      direction is a unit vector whose normal component is negated. */
  lemma ReflectionProperties(e: Element, s: RayState, sqrt: real -> real)
    requires e.Spherical? && IsSqrt(sqrt) && s.k != Origin && e.curvrad != 0.0
    ensures var t := SphereReflected(e, s, sqrt);
      var n := SphereNormal(e, SphereLanding(e, s, sqrt), sqrt);
      t.vertices == s.vertices + [SphereLanding(e, s, sqrt)] &&
      Dot(t.k, t.k) == 1.0 &&
      Dot(t.k, n) == -Dot(Hat(sqrt, s.k), n) &&
      Cross(t.k, n) == Cross(Hat(sqrt, s.k), n) &&
      t.freq == s.freq && t.terminated == s.terminated
  {
    var n := SphereNormal(e, SphereLanding(e, s, sqrt), sqrt);
    LandingOffCentre(e, s, sqrt);
    SphereNormalUnit(e, SphereLanding(e, s, sqrt), sqrt);
    HatUnit(sqrt, s.k);
    MirrorProperties(Hat(sqrt, s.k), n);
  }

  // ---------------------------------------------------------------------------------------
  // Planes

  /** The result of `Plane.intercept`: the distance, or None for a ray parallel to the plane,
      and the ray afterwards. */
  datatype Landing = Landing(distance: Option<real>, ray: RayState)

  /** `Plane.intercept` (also the output plane's): with `c = n·k̂`, a ray with `c ≠ 0` steps by
      `t = |(pos − p) / c|` along `k̂` and the new point is appended; a parallel ray gets None
      and is not touched. */
  function PlaneStep(e: Element, s: RayState, sqrt: real -> real): Landing
    requires e.Plane? || e.Output?
  {
    var khat := Hat(sqrt, s.k);
    var c := Dot(e.normal, khat);
    if Abs(c) > 0.0 then
      var t := Norm(sqrt, Scale(1.0 / c, Sub(e.pos, s.P())));
      Landing(Some(t), s.(vertices := s.vertices + [Add(s.P(), Scale(t, khat))]))
    else Landing(None, s)
  }

  /** The plane step: parallel rays get None and are unchanged; otherwise the distance is
      `|pos − p| / |n·k̂|`, never negative, and exactly the one point `p + t k̂` is appended. */
  lemma PlaneStepProperties(e: Element, s: RayState, sqrt: real -> real)
    requires (e.Plane? || e.Output?) && IsSqrt(sqrt)
    ensures var c := Dot(e.normal, Hat(sqrt, s.k));
      var l := PlaneStep(e, s, sqrt);
      (c == 0.0 <==> l.distance.None?) &&
      (c == 0.0 ==> l.ray == s) &&
      (c != 0.0 ==>
        0.0 <= l.distance.value &&
        l.distance.value * Abs(c) == Norm(sqrt, Sub(e.pos, s.P())) &&
        l.ray == s.(vertices := s.vertices + [Add(s.P(), Scale(l.distance.value, Hat(sqrt, s.k)))]))
  {
    var c := Dot(e.normal, Hat(sqrt, s.k));
    if c != 0.0 {
      PlaneDistanceScaled(sqrt, c, Sub(e.pos, s.P()));
    }
  }

  /** `Plane.refraction` applies Snell's law with the plane's fixed normal;
      `OutputPlane.refraction` raises NotImplementedError. */
  function PlaneRefracted(e: Element, s: RayState, sqrt: real -> real): Outcome
    requires e.Plane? || e.Output?
  {
    if e.Output? then Outcome(s, Raised(NotImplementedError)) else Snell(e.n1, e.n2, e.normal, s, sqrt)
  }

  // ---------------------------------------------------------------------------------------
  // propagate_ray

  /** `propagate_ray` of each element: the base element raises NotImplementedError; the sphere
      refracts (its preceding `intercept` call has no effect); the plane steps to itself and then
      refracts; the output plane only steps. */
  function Propagated(e: Element, s: RayState, sqrt: real -> real): Outcome {
    match e
    case Base(_, _, _) => Outcome(s, Raised(NotImplementedError))
    case Spherical(_, _, _, _, _, _, _) => SphereRefracted(e, s, sqrt)
    case Plane(_, _, _, _, _, _) => PlaneRefracted(e, PlaneStep(e, s, sqrt).ray, sqrt)
    case Output(_, _, _, _, _, _) => Outcome(PlaneStep(e, s, sqrt).ray, Returned)
  }

  /** One element appends at most one vertex, keeps the earlier history, the frequency and the
      flag; the output plane never changes `k` and never raises; the base element changes nothing. */
  lemma PropagatedFrame(e: Element, s: RayState, sqrt: real -> real)
    ensures var o := Propagated(e, s, sqrt);
      (|o.ray.vertices| == |s.vertices| || |o.ray.vertices| == |s.vertices| + 1) &&
      o.ray.vertices[..|s.vertices|] == s.vertices &&
      o.ray.freq == s.freq && o.ray.terminated == s.terminated
    ensures e.Output? ==> Propagated(e, s, sqrt).status == Returned && Propagated(e, s, sqrt).ray.k == s.k
    ensures e.Base? ==> Propagated(e, s, sqrt) == Outcome(s, Raised(NotImplementedError))
    ensures e.Spherical? ==> |Propagated(e, s, sqrt).ray.vertices| == |s.vertices| + 1
  {
    match e
    case Base(_, _, _) =>
    case Spherical(_, _, _, _, _, _, _) =>
      RefractionAppendsOne(e, s, sqrt);
      assert (s.vertices + [SphereLanding(e, s, sqrt)])[..|s.vertices|] == s.vertices;
    case Plane(_, _, _, _, _, _) =>
      var l := PlaneStep(e, s, sqrt);
      SnellFrame(e.n1, e.n2, e.normal, l.ray, sqrt);
      PlaneStepFrame(e, s, sqrt);
    case Output(_, _, _, _, _, _) =>
      PlaneStepFrame(e, s, sqrt);
  }

  lemma PlaneStepFrame(e: Element, s: RayState, sqrt: real -> real)
    requires e.Plane? || e.Output?
    ensures var r := PlaneStep(e, s, sqrt).ray;
      (|r.vertices| == |s.vertices| || |r.vertices| == |s.vertices| + 1) &&
      r.vertices[..|s.vertices|] == s.vertices &&
      r.k == s.k && r.freq == s.freq && r.terminated == s.terminated
  {
    var r := PlaneStep(e, s, sqrt).ray;
    if |r.vertices| != |s.vertices| {
      assert r.vertices == s.vertices + [r.P()];
    }
  }

  // ---------------------------------------------------------------------------------------
  // The operations on a Ray object

  /** The Snell tail of both `refraction` methods on a ray object. */
  method ApplySnell(n1: real, n2: real, normal: Vec3, ray: Ray, sqrt: real -> real) returns (st: Status)
    modifies ray
    ensures Outcome(ray.State(), st) == Snell(n1, n2, normal, old(ray.State()), sqrt)
  {
    var s0 := ray.State();
    var sin1 := SinTheta1(normal, s0, sqrt);
    if n1 == 0.0 {
      return Raised(ZeroDivisionError);
    }
    if sin1 > n2 / n1 {
      return Returned;
    }
    if n2 == 0.0 {
      return Raised(ZeroDivisionError);
    }
    var newk := RefractedK(n1, n2, normal, s0, sqrt);
    var updated := ray.SetK(ToValue(newk));
    assert ray.State() == s0.(k := newk);
    return Returned;
  }

  /** `SphericalRefraction.refraction` on a ray object. */
  method SphericalRefraction(e: Element, ray: Ray, sqrt: real -> real) returns (st: Status)
    requires e.Spherical?
    modifies ray
    ensures Outcome(ray.State(), st) == SphereRefracted(e, old(ray.State()), sqrt)
  {
    var h := SphereIntercept(e, ray.State(), sqrt);
    var newp := Add(ray.P(), Scale(Advance(h), ray.Khat(sqrt)));
    var appended := ray.Append(ToValue(newp));
    var normal := SphereNormal(e, newp, sqrt);
    st := ApplySnell(e.n1, e.n2, normal, ray, sqrt);
  }

  /** `SphericalRefraction.reflection` on a ray object. */
  method SphericalReflection(e: Element, ray: Ray, sqrt: real -> real)
    requires e.Spherical?
    modifies ray
    ensures ray.State() == SphereReflected(e, old(ray.State()), sqrt)
  {
    var h := SphereIntercept(e, ray.State(), sqrt);
    var newp := Add(ray.P(), Scale(Advance(h), ray.Khat(sqrt)));
    var appended := ray.Append(ToValue(newp));
    var normal := SphereNormal(e, newp, sqrt);
    var newk := Mirror(ray.Khat(sqrt), normal);
    var updated := ray.SetK(ToValue(newk));
  }

  /** `Plane.intercept` on a ray object. */
  method PlaneIntercept(e: Element, ray: Ray, sqrt: real -> real) returns (t: Option<real>)
    requires e.Plane? || e.Output?
    modifies ray
    ensures Landing(t, ray.State()) == PlaneStep(e, old(ray.State()), sqrt)
  {
    var khat := ray.Khat(sqrt);
    var c := Dot(e.normal, khat);
    if Abs(c) > 0.0 {
      var d := Norm(sqrt, Scale(1.0 / c, Sub(e.pos, ray.P())));
      var newp := Add(ray.P(), Scale(d, khat));
      var appended := ray.Append(ToValue(newp));
      return Some(d);
    }
    return None;
  }

  /** `Plane.refraction` / `OutputPlane.refraction` on a ray object. */
  method PlaneRefraction(e: Element, ray: Ray, sqrt: real -> real) returns (st: Status)
    requires e.Plane? || e.Output?
    modifies ray
    ensures Outcome(ray.State(), st) == PlaneRefracted(e, old(ray.State()), sqrt)
  {
    if e.Output? {
      return Raised(NotImplementedError);
    }
    st := ApplySnell(e.n1, e.n2, e.normal, ray, sqrt);
  }

  /** `propagate_ray` of any element on a ray object. It also hands back what the Python method
      returns: the output plane returns its intercept (a distance, or None for a parallel ray);
      the sphere and the plane return None. */
  method PropagateRay(e: Element, ray: Ray, sqrt: real -> real) returns (st: Status, t: Option<real>)
    modifies ray
    ensures Outcome(ray.State(), st) == Propagated(e, old(ray.State()), sqrt)
    ensures t == (if e.Output? then PlaneStep(e, old(ray.State()), sqrt).distance else None)
  {
    t := None;
    match e
    case Base(_, _, _) =>
      st := Raised(NotImplementedError);
    case Spherical(_, _, _, _, _, _, _) =>
      st := SphericalRefraction(e, ray, sqrt);
    case Plane(_, _, _, _, _, _) =>
      var d := PlaneIntercept(e, ray, sqrt);
      st := PlaneRefraction(e, ray, sqrt);
    case Output(_, _, _, _, _, _) =>
      t := PlaneIntercept(e, ray, sqrt);
      st := Returned;
  }
}
