# 3DRayTracing optical engine, modelled in Dafny

This project models the optical-propagation core of the 3DRayTracing package. It has three parts:

- **Rays** (`rays.py`). A `Ray` carries:
  - its vertex history, whose last entry is the current position;
  - a direction `k`;
  - a frequency;
  - a `terminated` flag.

  `UniformCollimatedBeam.generate` lays out start points in concentric rings and wraps each point in a `Ray`.
- **Optical elements** (`opticalelements.py`):
  - a base element that cannot propagate anything;
  - a spherical refracting surface (intercept, refraction by the vector Snell law, reflection);
  - a refracting plane;
  - an output plane that only records where rays land.
- **The simulation driver** (`simulation.py`). It holds an ordered list of elements. It pushes every ray through every element in order and records the rays.

Geometry is three-vectors over `real`. numpy's square root is a parameter `sqrt: real -> real`. Every theorem that needs a real square root requires `IsSqrt(sqrt)`: for `x >= 0`, `sqrt(x) >= 0` and `sqrt(x) * sqrt(x) == x`.

Python exceptions are the `Status`/`Result` values of module `Outcomes`. An operation that may raise returns an `Outcome`: the ray afterwards, plus `Returned` or `Raised(e)`.

Modules:

| file | module | form |
|---|---|---|
| `vectors.dfy` | `Vectors` | vector algebra, `Norm` (`utils.norm`) and `Hat` (`utils.hat`) |
| `outcomes.dfy` | `Outcomes` | exceptions, `Result`, `Option`, `Status` |
| `rays.dfy` | `Rays` | `class Ray` and `class UniformCollimatedBeam`; the beam geometry as functions |
| `opticalelements.dfy` | `OpticalElements` | the elements as a datatype; each operation as a function on a `RayState` snapshot, plus a method on a `Ray` object proved equal to it |
| `axial.dfy` | `Axial` | theorems about rays travelling parallel to an element's axis (the arrangement exercised in testing.py) |
| `simulation.dfy` | `Simulation` | `class Simulation`, with `Trace`: the specification of one ray's run through the elements |

## Model

| member | source | states |
|---|---|---|
| `Rays.Ray.constructor` | rays.py:21-32 | a new ray has the single vertex `p`, the given `k` and frequency, and `terminated` False; `p()` is that vertex; the defaults are `p = 0`, `k = (0,0,1)`, `freq = 1.0` |
| `Rays.Ray.Khat` | rays.py:40-44 | `khat()` reads the ray and changes nothing; for a non-zero `k` it is a unit vector that, scaled by `|k|`, gives `k` back |
| `Rays.Ray.Append` | rays.py:46-52 | a length-3 ndarray is added as exactly one new last vertex, which becomes `p()`; anything else raises TypeError and changes nothing; `k`, frequency and flag never change |
| `Rays.Ray.SetK` | rays.py:54-60 | a length-3 ndarray replaces `k`; anything else raises TypeError and keeps `k`; vertices, frequency and flag never change |
| `Rays.ToValue` | rays.py:50 | the ndarray made from a vector passes the length-3 ndarray check and holds that vector's coordinates |
| `Rays.FirstIndex` | rays.py:101 | `list.index`: the position of the first occurrence; no earlier position holds the value |
| `Rays.FirstIndexDistinct` | rays.py:101 | in an axis without repeats, each value is found at its own position, so ring `i` has `N = 3·2^i` |
| `Rays.AxialPoints` | rays.py:97-99 | one point per axis value, `(x, 0, 0) + centre`, in axis order |
| `Rays.RingPoints` | rays.py:104-108 | ring `i` contributes its `N - 1` rotated points, point `m` at angle `(m+1)·2π/N` |
| `Rays.RingsCount` | rays.py:100-108 | with distinct radii, rings 1..n hold `3·2^(n+1) - n - 6` points, i.e. the sum of `3·2^i - 1` |
| `Rays.BeamPointCount` | rays.py:96-108 | one `generate` over `a >= 1` distinct radii adds `3·2^a - 5` points: `a` axial points plus the rings |
| `Rays.RingPointOnCircle` | rays.py:104-107 | given `cos² + sin² = 1`, each rotated point lies in the centre's z-plane at distance `|r|` from the centre |
| `Rays.UniformCollimatedBeam.constructor` | rays.py:71-77 | a new beam has no points and no rays, and stores centre, `k`, radius and density |
| `Rays.UniformCollimatedBeam.Generate` | rays.py:91-110 | the beam's points are appended after the old ones, never reset; every point collected so far, old and new, gets one fresh, distinct `Ray` at that point with the beam's `k`, appended in point order after the old rays |
| `Rays.UniformCollimatedBeam.AddAxialPoints` | rays.py:97-99 | the axial loop appends exactly `AxialPoints` |
| `Rays.UniformCollimatedBeam.AddRings` | rays.py:100-108 | the ring loop appends rings 1 .. `len(axis) - 1` in order |
| `Rays.UniformCollimatedBeam.AddRing` | rays.py:101-108 | one pass of the ring loop appends that ring's `N - 1` rotated points |
| `Rays.UniformCollimatedBeam.WrapPoints` | rays.py:109-110 | one fresh ray per point, in point order, pairwise distinct, each at its point with the beam's `k`; earlier rays stay in place |
| `OpticalElements.NewBase` | opticalelements.py:20-23 | stores the position and both indices |
| `OpticalElements.NewSpherical` | opticalelements.py:56-63 | ValueError exactly when the curvature is 0; otherwise `curvrad · curv = 1` and the centre is `pos + (0, 0, curvrad)` |
| `OpticalElements.NewPlane` | opticalelements.py:161-167 | ValueError exactly when `width · height ≠ 0`; otherwise a plane with the given fields |
| `OpticalElements.NewOutput` | opticalelements.py:214-215 | never fails; the output plane always has the default normal `(0,0,1)`, width and height |
| `OpticalElements.SphereIntercept` | opticalelements.py:65-91 | `intercept` reads the ray and changes nothing; it misses exactly when the discriminant is negative, and a miss returns the ray's `terminated` flag; otherwise it returns one of the two roots `-b ± q` (which one: `InterceptRoot`; that it lands on the sphere: `InterceptLands`) |
| `OpticalElements.InterceptRoot` | opticalelements.py:75-91 | root selection: `q = √disc ≥ 0` and `l1 = -b + q ≥ l2 = -b - q`; for `b ≠ 0`, the result is `l2` for a positive radius and `l1` otherwise; for `b = 0` it is `l1` |
| `OpticalElements.HitRoot` | opticalelements.py:69-91 | a returned distance solves `l² + 2bl + |r|² - R² = 0` |
| `OpticalElements.InterceptLands` | opticalelements.py:69-91 | for a non-zero direction, a returned root lands on the sphere: `|P + l·k̂ - C|² = R²` |
| `OpticalElements.MissNoIntersection` | opticalelements.py:71-74 | on a miss, every point of the ray's line lies strictly outside the sphere, so none is on it |
| `OpticalElements.SphereNormalUnit` | opticalelements.py:105-108 | away from the centre, the surface normal is a unit vector |
| `OpticalElements.SnellFrame` | opticalelements.py:110-118 | Snell's step never touches vertices, frequency or flag; under TIR it returns with the ray unchanged; it raises exactly when `n1 = 0`, or when `n2 = 0` off the TIR branch |
| `OpticalElements.SnellTangential` | opticalelements.py:116-118 | off the TIR branch, the new `k` satisfies `k' × n = (n1/n2)(k̂ × n)`: its tangential part is `n1/n2` times the incident one |
| `OpticalElements.RefractionAppendsOne` | opticalelements.py:102-114 | refraction appends exactly one vertex, the landing point `P + l·k̂`, before the TIR test; under TIR the result is that ray, unchanged otherwise |
| `OpticalElements.MissAppendsCurrent` | opticalelements.py:72-74 | on a miss with the flag False, the step is zero and the current position is appended again |
| `OpticalElements.MirrorProperties` | opticalelements.py:137-139 | for a unit normal, `k̂ - 2(n·k̂)n` has the same length, negated normal component and unchanged tangential part |
| `OpticalElements.LandingOffCentre` | opticalelements.py:102-108 | for a surface of non-zero radius and a non-zero direction, the point the ray is moved to is never the centre, so the normal taken there is defined |
| `OpticalElements.ReflectionProperties` | opticalelements.py:120-139 | for every surface `NewSpherical` can build (non-zero radius) and a non-zero direction, reflection appends the landing point; the new `k` is a unit vector with negated normal component and unchanged tangential part; frequency and flag are kept |
| `OpticalElements.PlaneStepProperties` | opticalelements.py:178-186 | `n·k̂ = 0` exactly when the plane intercept is None, and then nothing is appended; otherwise `t ≥ 0` with `t·|n·k̂| = |pos - P|`, and exactly `P + t·k̂` is appended |
| `OpticalElements.PlaneStepFrame` | opticalelements.py:178-186 | the plane step appends at most one vertex and keeps `k`, frequency and flag |
| `OpticalElements.PropagatedFrame` | opticalelements.py:34-36 | `propagate_ray` of any element appends at most one vertex and keeps history, frequency and flag; the output plane never raises and keeps `k`; the base element raises NotImplementedError and changes nothing; the sphere appends exactly one vertex |
| `OpticalElements.ApplySnell` | opticalelements.py:110-118 | on a ray object, the Snell tail leaves the ray and status as `Snell` says |
| `OpticalElements.SphericalRefraction` | opticalelements.py:93-118 | `SphericalRefraction.refraction` on a ray object equals `SphereRefracted` on its snapshot |
| `OpticalElements.SphericalReflection` | opticalelements.py:120-139 | `reflection` on a ray object equals `SphereReflected` on its snapshot |
| `OpticalElements.PlaneIntercept` | opticalelements.py:178-186 | `Plane.intercept` on a ray object returns the distance and leaves the ray as `PlaneStep` says |
| `OpticalElements.PlaneRefraction` | opticalelements.py:191-200 | `Plane.refraction` applies Snell with the plane's normal; `OutputPlane.refraction` (opticalelements.py:217-218) raises NotImplementedError |
| `OpticalElements.PropagateRay` | opticalelements.py:142-144 | every element's `propagate_ray` on a ray object leaves the ray and status as `Propagated` says (also opticalelements.py:34-36, 202-204 and 220-221); it returns the output plane's intercept, the distance or None for a parallel ray, and None for the sphere and the plane |
| `Axial.ConstructedOnAxis` | opticalelements.py:56-63 | `(0,0,1)` is a unit axis, and every constructed spherical surface has its centre one radius from its vertex along it |
| `Axial.ConstructedOutput` | opticalelements.py:214-215 | every constructed output plane faces along the unit z axis |
| `Axial.AxisDiscriminant` | opticalelements.py:69-71 | for a ray parallel to the axis, `r·k̂ = -(v + R)` and the discriminant is `R² - |w|²`, where `w` is the ray's offset from the axis |
| `Axial.ParallelMiss` | opticalelements.py:72-74 | a ray parallel to the axis misses exactly when it runs farther from the axis than `|R|`, and the miss returns its flag |
| `Axial.AxialDistance` | opticalelements.py:75-91 | a ray along the axis, with the centre ahead of it, meets the surface at its vertex, `v` ahead, for either sign of curvature (testing.py:102-109: 1.0 and 10.0) |
| `Axial.AxialIntercept` | opticalelements.py:102-103 | that ray lands exactly on the vertex `pos` |
| `Axial.AxialNormal` | opticalelements.py:105-108 | at the vertex, the normal used is the axis itself, for either sign of the radius |
| `Axial.NormalIncidence` | opticalelements.py:110-118 | a ray along a unit normal, between positive indices, is not totally reflected and keeps its direction |
| `Axial.AxialRefraction` | opticalelements.py:93-118 | a ray along the axis appends the vertex and passes undeviated |
| `Axial.AxialReflection` | opticalelements.py:120-139 | a ray along the axis appends the vertex and comes straight back with `k = -a` |
| `Axial.OutputStep` | opticalelements.py:178-186 | a ray heading along the plane's normal, `z` short of it and `w` off-axis, steps `t ≥ 0` with `t² = z² + |w|²` and lands at `P + t·a` |
| `Axial.OutputHeight` | opticalelements.py:178-186 | the output plane leaves that ray `t - z` beyond itself, measured along its normal |
| `Axial.StepEqualsGap` | opticalelements.py:181 | for a plane in front of the ray, the step equals the gap exactly when the ray runs through `pos` |
| `Axial.OutputLandsOnPlane` | opticalelements.py:178-186 | a plane in front receives the ray on its surface exactly when the ray runs through `pos`; any other ray ends beyond it |
| `Axial.AxialOutput` | opticalelements.py:220-221 | a ray along the axis through `pos` steps exactly the gap and lands on `pos` (testing.py's default output plane: 10 and `(0,0,10)`) |
| `Simulation.RaisedStays` | simulation.py:44-45 | once an element raises, later elements are never reached |
| `Simulation.Step` | simulation.py:44-45 | while nothing has raised, element `n` receives the ray as the first `n` left it, whatever `terminated` says |
| `Simulation.TraceFrame` | simulation.py:44-45 | a run through the elements keeps the old vertices as a prefix, adds at most one vertex per element, and keeps frequency and flag |
| `Simulation.TraceReturned` | simulation.py:44-45 | a run that returns met no base element, and gained at least one vertex per spherical surface |
| `Simulation.OutputsOnly` | simulation.py:44-45 | a run through output planes only never raises and never changes `k` |
| `Simulation.Simulation.constructor` | simulation.py:16-18 | a new simulation has no elements and no rays |
| `Simulation.Simulation.AppendElements` | simulation.py:26-32 | the arguments are appended in order; existing elements and the rays are untouched |
| `Simulation.Simulation.PropagateThrough` | simulation.py:44-45 | the inner loop leaves the ray and status as `Trace` of all elements says |
| `Simulation.Simulation.Propagate` | simulation.py:36-45 | elements are unchanged; rays become the old rays followed by the caller's own objects in input order, up to and including the one that raised (all of them when none raised); for distinct ray objects, each processed ray ends as `Trace` says and the later ones are untouched |

## Left out

- Floating point: NaN, infinities and rounding. Every quantity is an exact real, and `Hat` of the zero vector is the zero vector, where numpy gives NaN.
- numpy's `sqrt`, `arange`, `cos`, `sin` and `pi` are parameters: `sqrt`, the `axis` sequence and a `Trig` record. The beam's `radius` and `density` therefore do not shape the model's axis.
- `UniformCollimatedBeam.rms` (rays.py:112-121) is a floating-point statistic and is not modelled.
- graphics.py, testing.py and raytracer.py are not part of this model. utils.py is reduced to `Norm` and `Hat`.
- The aperture radius is stored but never enforced (its checks are commented out in opticalelements.py:78-87). No aperture check is modelled.
- The unreachable lines after the returns in `Plane.intercept` (opticalelements.py:188-189) are not modelled.
- The `== None` guard at the top of `refraction` and `reflection` never fires, because `intercept` never returns None. It is not modelled.
- The `__repr__` methods are not modelled. The private duplicate `__p` of `Ray` is also left out, because `p()` reads the last vertex.
- Getters (`pos`, `n1`, `normal`, `elements()`, `rays()`, `vertices()`, …) are the fields themselves.
- Extra positional arguments forwarded through `*args` are not modelled. The constructors take the named parameters only.
- rays.py:58 begins with a stray `y`, which makes the file fail to parse. `SetK` models the evident intent: the same length-3 ndarray check as `append`. Under that check, the list arguments in testing.py:38 and 48 raise TypeError.
- `Snell` follows opticalelements.py:117 as written, with `cos θ2` in both normal terms. The new `k` is therefore not normalised, and only the tangential (cross-product) form of Snell's law is stated about it.
- `Simulation.Simulation.Propagate`: the final state of each ray is stated only when `objectlist` holds no object twice. With repeats, a ray object is propagated once per occurrence.
- `Simulation.Simulation.Propagate`: `objectlist` is taken as a sequence value. In Python, `sim.propagate(sim.rays())` passes the very list that the loop appends to (simulation.py:23-24 and 41-43). Once one ray is recorded, that call never ends. The model makes one pass over the list as it was at the call.
- `OpticalElements.NewPlane`: width and height are taken as vectors. opticalelements.py:166 calls `.dot` on the raw `width` argument, so a list width raises AttributeError there. That case is not modelled.
- The element datatype is immutable, since no element field is ever reassigned after construction.
- testing.py's numeric cases are covered by the symbolic theorems in `Axial` rather than by literal instances:
  - curvature 0.2 at z = 1 has `v = 1`;
  - curvature -0.2 at z = 10 has `v = 10`;
  - the default output plane has `z = 10`.
- The paraxial focus, refraction angles and spot sizes in testing.py are floating-point results and are not modelled.
