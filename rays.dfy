/** Sources of light rays: a single `Ray`, and the `UniformCollimatedBeam` that fills a disc
    with ray start points arranged in rings (rays.py). */
module Rays {
  import opened Vectors
  import opened Outcomes

  /** The vertex history of a ray; it is never empty, its last vertex is the current position. */
  type Path = s: seq<Vec3> | |s| > 0 witness [Origin]

  /** A snapshot of a ray's fields. */
  datatype RayState = RayState(vertices: Path, k: Vec3, freq: real, terminated: bool)
  {
    /** The current position (`Ray.p`). */
    function P(): Vec3 { vertices[|vertices| - 1] }
  }

  /** An argument handed to `append` or `ksetter`: a numpy array, or some other sequence
      (a list or tuple) of numbers. */
  datatype Value = NdArray(items: seq<real>) | OtherSequence(items: seq<real>)

  /** What `append` and `ksetter` accept: an ndarray of length 3. */
  predicate IsVector(v: Value) { v.NdArray? && |v.items| == 3 }

  function AsVec3(v: Value): Vec3
    requires |v.items| == 3
  {
    Vec3(v.items[0], v.items[1], v.items[2])
  }

  /** The ndarray holding a vector's three coordinates. */
  function ToValue(p: Vec3): (v: Value)
    ensures IsVector(v) && AsVec3(v) == p
  {
    NdArray([p.x, p.y, p.z])
  }

  /** An optical ray: its vertices, direction `k`, frequency and the `terminated` flag. */
  class Ray {
    var vertices: Path
    var k: Vec3
    var freq: real
    var terminated: bool

    function State(): RayState
      reads this
    {
      RayState(vertices, k, freq, terminated)
    }

    /** `Ray.p`: the last vertex. */
    function P(): Vec3
      reads this
    {
      State().P()
    }

    /** `Ray.khat`: the unit vector along `k`; scaled by `|k|` it gives `k` back. */
    function Khat(sqrt: real -> real): (u: Vec3)
      reads this
      ensures IsSqrt(sqrt) && k != Origin ==> Dot(u, u) == 1.0 && Scale(Norm(sqrt, k), u) == k
    {
      HatInverse(sqrt, k);
      Hat(sqrt, k)
    }

    /** A new ray has the one vertex `p`, the direction `k`, the given frequency and is not terminated. */
    constructor(p: Vec3 := Origin, k: Vec3 := Vec3(0.0, 0.0, 1.0), freq: real := 1.0)
      ensures State() == RayState([p], k, freq, false)
      ensures P() == p
    {
      vertices := [p];
      this.k := k;
      this.freq := freq;
      terminated := false;
    }

    /** Adds a vertex at the end of the path; anything but a length-3 ndarray raises TypeError
        and changes nothing. */
    method Append(newp: Value) returns (st: Status)
      modifies this
      ensures st == (if IsVector(newp) then Returned else Raised(TypeError))
      ensures IsVector(newp) ==> vertices == old(vertices) + [AsVec3(newp)] && P() == AsVec3(newp)
      ensures !IsVector(newp) ==> vertices == old(vertices)
      ensures k == old(k) && freq == old(freq) && terminated == old(terminated)
    {
      if !IsVector(newp) {
        return Raised(TypeError);
      }
      vertices := vertices + [AsVec3(newp)];
      return Returned;
    }

    /** Replaces the direction; anything but a length-3 ndarray raises TypeError and changes nothing. */
    method SetK(newk: Value) returns (st: Status)
      modifies this
      ensures st == (if IsVector(newk) then Returned else Raised(TypeError))
      ensures k == (if IsVector(newk) then AsVec3(newk) else old(k))
      ensures vertices == old(vertices) && freq == old(freq) && terminated == old(terminated)
    {
      if !IsVector(newk) {
        return Raised(TypeError);
      }
      k := AsVec3(newk);
      return Returned;
    }
  }

  // The beam's geometry. The axis of sample radii and the trigonometric functions are
  // parameters (numpy's `arange`, `cos`, `sin` and `pi`).

  datatype Trig = Trig(cos: real -> real, sin: real -> real, pi: real)

  function Pow2(n: nat): (p: nat)
    ensures 1 <= p
  {
    if n == 0 then 1 else 2 * Pow2(n - 1)
  }

  predicate Distinct(xs: seq<real>) {
    forall i, j :: 0 <= i < j < |xs| ==> xs[i] != xs[j]
  }

  /** Python's `list.index`: the position of the first occurrence of `x`. */
  function FirstIndex(xs: seq<real>, x: real): (i: nat)
    requires x in xs
    ensures i < |xs| && xs[i] == x
    ensures forall j :: 0 <= j < i ==> xs[j] != x
  {
    if xs[0] == x then 0 else 1 + FirstIndex(xs[1..], x)
  }

  /** In an axis without repeated values, every value is found at its own position. */
  lemma FirstIndexDistinct(xs: seq<real>, i: nat)
    requires Distinct(xs) && i < |xs|
    ensures FirstIndex(xs, xs[i]) == i
  {
  }

  /** The first `n` axial points: each axis value on the x axis, shifted by the centre. */
  function AxialPoints(axis: seq<real>, centre: Vec3, n: nat): (ps: seq<Vec3>)
    requires n <= |axis|
    ensures |ps| == n
    ensures forall i :: 0 <= i < n ==> ps[i] == Add(Vec3(axis[i], 0.0, 0.0), centre)
  {
    if n == 0 then [] else AxialPoints(axis, centre, n - 1) + [Add(Vec3(axis[n - 1], 0.0, 0.0), centre)]
  }

  /** Number of rings: one per axis value after the first. */
  function NumRings(axis: seq<real>): nat {
    if |axis| == 0 then 0 else |axis| - 1
  }

  /** `N` for ring `i`: three times two to the power of the index of its radius in the axis. */
  function RingSize(axis: seq<real>, i: nat): nat
    requires i < |axis|
  {
    3 * Pow2(FirstIndex(axis, axis[i]))
  }

  /** Rotated point `m + 1` of ring `i`, at angle `(m + 1) * 2π / N` on the circle of radius `axis[i]`. */
  function RingPoint(axis: seq<real>, i: nat, m: nat, centre: Vec3, trig: Trig): Vec3
    requires i < |axis|
  {
    var angle := 2.0 * trig.pi / (RingSize(axis, i) as real);
    var r := axis[i];
    Add(Vec3(r * trig.cos(angle * ((m + 1) as real)), r * trig.sin(angle * ((m + 1) as real)), 0.0), centre)
  }

  /** The first `count` rotated points of ring `i`. */
  function RingPoints(axis: seq<real>, i: nat, count: nat, centre: Vec3, trig: Trig): (ps: seq<Vec3>)
    requires i < |axis|
    ensures |ps| == count
    ensures forall m :: 0 <= m < count ==> ps[m] == RingPoint(axis, i, m, centre, trig)
  {
    if count == 0 then [] else RingPoints(axis, i, count - 1, centre, trig) + [RingPoint(axis, i, count - 1, centre, trig)]
  }

  /** The rotated points of rings 1 to `n`, each ring contributing `N - 1` points. */
  function Rings(axis: seq<real>, n: nat, centre: Vec3, trig: Trig): seq<Vec3>
    requires n <= NumRings(axis)
  {
    if n == 0 then []
    else Rings(axis, n - 1, centre, trig) + RingPoints(axis, n, RingSize(axis, n) - 1, centre, trig)
  }

  /** Every point `generate` appends, in order. */
  function BeamPoints(axis: seq<real>, centre: Vec3, trig: Trig): seq<Vec3> {
    AxialPoints(axis, centre, |axis|) + Rings(axis, NumRings(axis), centre, trig)
  }

  /** With distinct radii, rings 1 to `n` hold `(3·2 - 1) + … + (3·2^n - 1)` points. */
  lemma {:induction false} RingsCount(axis: seq<real>, n: nat, centre: Vec3, trig: Trig)
    requires Distinct(axis) && n <= NumRings(axis)
    ensures |Rings(axis, n, centre, trig)| + n + 6 == 3 * Pow2(n + 1)
  {
    if n > 0 {
      RingsCount(axis, n - 1, centre, trig);
      FirstIndexDistinct(axis, n);
    }
  }

  /** With distinct radii, a beam over `a >= 1` radii has `3·2^a - 5` points. */
  lemma BeamPointCount(axis: seq<real>, centre: Vec3, trig: Trig)
    requires Distinct(axis) && |axis| >= 1
    ensures |BeamPoints(axis, centre, trig)| + 5 == 3 * Pow2(|axis|)
  {
    RingsCount(axis, NumRings(axis), centre, trig);
  }

  /** If `cos² + sin² = 1`, every rotated point of ring `i` lies in the plane of the centre at
      distance `|axis[i]|` from it. */
  lemma RingPointOnCircle(axis: seq<real>, i: nat, m: nat, centre: Vec3, trig: Trig)
    requires i < |axis|
    requires forall t :: trig.cos(t) * trig.cos(t) + trig.sin(t) * trig.sin(t) == 1.0
    ensures var d := Sub(RingPoint(axis, i, m, centre, trig), centre);
      d.z == 0.0 && Dot(d, d) == axis[i] * axis[i]
  {
    var angle := 2.0 * trig.pi / (RingSize(axis, i) as real);
    var t := angle * ((m + 1) as real);
    var c := trig.cos(t);
    var s := trig.sin(t);
    var r := axis[i];
    SubAdd(Vec3(r * c, r * s, 0.0), centre);
    assert c * c + s * s == 1.0;
    CircleStep(r, c, s);
  }

  lemma SubAdd(p: Vec3, c: Vec3)
    ensures Sub(Add(p, c), c) == p
  {
  }

  lemma CircleStep(r: real, c: real, s: real)
    requires c * c + s * s == 1.0
    ensures (r * c) * (r * c) + (r * s) * (r * s) + 0.0 * 0.0 == r * r
  {
    assert (r * c) * (r * c) + (r * s) * (r * s) == (r * r) * (c * c + s * s);
  }

  /** A beam of rays filling a disc of the given radius around `centre`, travelling along `k`. */
  class UniformCollimatedBeam {
    var points: seq<Vec3>
    var objectlist: seq<Ray>
    const centre: Vec3
    const k: Vec3
    const radius: real
    const density: real

    constructor(centre: Vec3 := Origin, k: Vec3 := Vec3(0.0, 0.0, 1.0), radius: real := 2.5, density: real := 0.625)
      ensures points == [] && objectlist == []
      ensures this.centre == centre && this.k == k && this.radius == radius && this.density == density
    {
      points := [];
      objectlist := [];
      this.centre := centre;
      this.k := k;
      this.radius := radius;
      this.density := density;
    }

    /** Appends the axial points and then the rings of rotated points, and wraps every point
        collected so far, old and new, in a fresh ray along `k`. */
    method Generate(axis: seq<real>, trig: Trig)
      modifies this
      ensures points == old(points) + BeamPoints(axis, centre, trig)
      ensures |objectlist| == |old(objectlist)| + |points|
      ensures objectlist[..|old(objectlist)|] == old(objectlist)
      ensures forall i :: |old(objectlist)| <= i < |objectlist| ==>
        fresh(objectlist[i]) && objectlist[i].State() == RayState([points[i - |old(objectlist)|]], k, 1.0, false)
      ensures forall i, j :: |old(objectlist)| <= i < j < |objectlist| ==> objectlist[i] != objectlist[j]
    {
      AddAxialPoints(axis);
      AddRings(axis, trig);
      WrapPoints();
    }

    /** The ring loop of `generate`, over the axis values after the first. */
    method AddRings(axis: seq<real>, trig: Trig)
      modifies this
      ensures points == old(points) + Rings(axis, NumRings(axis), centre, trig)
      ensures objectlist == old(objectlist)
    {
      var ring := 0;
      while ring < NumRings(axis)
        invariant ring <= NumRings(axis)
        invariant points == old(points) + Rings(axis, ring, centre, trig)
        invariant objectlist == old(objectlist)
      {
        AddRing(axis, ring + 1, trig);
        ring := ring + 1;
      }
    }

    /** The first loop of `generate`: one point per axis value. */
    method AddAxialPoints(axis: seq<real>)
      modifies this
      ensures points == old(points) + AxialPoints(axis, centre, |axis|)
      ensures objectlist == old(objectlist)
    {
      var j := 0;
      while j < |axis|
        invariant j <= |axis|
        invariant points == old(points) + AxialPoints(axis, centre, j)
        invariant objectlist == old(objectlist)
      {
        points := points + [Add(Vec3(axis[j], 0.0, 0.0), centre)];
        j := j + 1;
      }
    }

    /** One pass of the ring loop of `generate`: the `N - 1` rotated points of ring `i`. */
    method AddRing(axis: seq<real>, i: nat, trig: Trig)
      requires 1 <= i <= NumRings(axis)
      modifies this
      ensures points == old(points) + RingPoints(axis, i, RingSize(axis, i) - 1, centre, trig)
      ensures objectlist == old(objectlist)
    {
      var n := RingSize(axis, i);
      var m := 0;
      while m < n - 1
        invariant m <= n - 1
        invariant points == old(points) + RingPoints(axis, i, m, centre, trig)
        invariant objectlist == old(objectlist)
      {
        points := points + [RingPoint(axis, i, m, centre, trig)];
        m := m + 1;
      }
    }

    /** The last loop of `generate`: a fresh ray along `k` for every point in `points`. */
    method WrapPoints()
      modifies this
      ensures points == old(points)
      ensures |objectlist| == |old(objectlist)| + |points|
      ensures objectlist[..|old(objectlist)|] == old(objectlist)
      ensures forall i :: |old(objectlist)| <= i < |objectlist| ==>
        fresh(objectlist[i]) && objectlist[i].State() == RayState([points[i - |old(objectlist)|]], k, 1.0, false)
      ensures forall i, j :: |old(objectlist)| <= i < j < |objectlist| ==> objectlist[i] != objectlist[j]
    {
      var o := |objectlist|;
      var j := 0;
      while j < |points|
        invariant j <= |points|
        invariant points == old(points)
        invariant |objectlist| == o + j && objectlist[..o] == old(objectlist)
        invariant forall i :: o <= i < |objectlist| ==>
          fresh(objectlist[i]) && objectlist[i].State() == RayState([points[i - o]], k, 1.0, false)
        invariant forall i, i2 :: o <= i < i2 < |objectlist| ==> objectlist[i] != objectlist[i2]
      {
        var r := new Ray(points[j], k);
        objectlist := objectlist + [r];
        j := j + 1;
      }
    }
  }
}
