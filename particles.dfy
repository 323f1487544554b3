/**
 * The bookkeeping of src/particles.ts: a piecewise-linear `LinearSpline`
 * over a list of control points, and the `ParticleSystem` that emits 75
 * particles per second of its two-second life, ages them, drops the dead
 * ones, animates the rest along three splines (alpha, size, colour) and
 * drags their velocity toward zero. Building the GPU buffers
 * (`_UpdateGeometry`) and the shader material are not modelled; neither
 * feeds back into this state.
 */
module Particles {
  import opened Base

  /** A control point `[t, d]`: the key `t` and the value `d` at it. */
  datatype Point<V> = Point(key: real, value: V)

  /** A `THREE.Color`: red, green and blue. */
  datatype Colour = Colour(r: real, g: real, b: real)

  /** `new THREE.Color(hex)`: each of the three bytes of `hex` over 255. */
  function FromHex(hex: nat): Colour {
    Colour(((hex / 65536) % 256) as real / 255.0, ((hex / 256) % 256) as real / 255.0, (hex % 256) as real / 255.0)
  }

  /** `new THREE.Color()`: white. */
  const White: Colour := Colour(1.0, 1.0, 1.0)

  /** The lerp of the alpha and the size splines, `a + t * (b - a)`. */
  function Mix(t: real, a: real, b: real): real {
    a + t * (b - a)
  }

  /** The lerp of the colour spline: a copy of `a` with `lerp(b, t)` applied. */
  function MixColour(t: real, a: Colour, b: Colour): Colour {
    Colour(a.r + (b.r - a.r) * t, a.g + (b.g - a.g) * t, a.b + (b.b - a.b) * t)
  }

  /** A lerp that is `a` at 0 and `b` at 1, as both lerps of the source are. */
  ghost predicate Interpolates<V(!new)>(lerp: (real, V, V) -> V) {
    (forall a: V, b: V :: lerp(0.0, a, b) == a) && (forall a: V, b: V :: lerp(1.0, a, b) == b)
  }

  lemma MixesInterpolate()
    ensures Interpolates(Mix) && Interpolates(MixColour)
  {
  }

  /**
   * Where the search loop of `Get` stops: the index of the first point
   * whose key is at least `t`, or the number of points when there is none.
   */
  function FirstAtLeast<V>(ps: seq<Point<V>>, t: real): (j: nat)
    ensures j <= |ps|
    ensures forall k :: 0 <= k < j ==> ps[k].key < t
    ensures j < |ps| ==> ps[j].key >= t
  {
    if ps == [] || ps[0].key >= t then 0 else 1 + FirstAtLeast(ps[1..], t)
  }

  /**
   * `p1` as the loop leaves it: the point before the first key at least
   * `t` (the last point when no key is), and 0 when the very first key is.
   * So either every key up to `p1` is below `t`, or `p1` is 0; and the
   * point after `p1`, if any, is at least `t` unless `p1` itself is.
   */
  function Segment<V>(ps: seq<Point<V>>, t: real): (p1: nat)
    requires ps != []
    ensures p1 < |ps|
    ensures p1 > 0 ==> forall k :: 0 <= k <= p1 ==> ps[k].key < t
    ensures p1 + 1 < |ps| ==> ps[p1 + 1].key >= t || ps[p1].key >= t
  {
    var j := FirstAtLeast(ps, t);
    if j == 0 then 0 else j - 1
  }

  /**
   * The interpolation of `Get` does not divide by zero. That can only
   * happen for a `t` at or below the first key when the second key equals
   * the first.
   */
  predicate Defined<V>(ps: seq<Point<V>>, t: real) {
    |ps| > 1 && ps[0].key >= t ==> ps[1].key != ps[0].key
  }

  /**
   * `Get(t)`: the segment `p1`, `p2 = min(len - 1, p1 + 1)`; the value at
   * `p1` when the two coincide, else the lerp at the fraction of the way
   * `t` lies from key `p1` to key `p2`.
   */
  function SplineValue<V>(ps: seq<Point<V>>, t: real, lerp: (real, V, V) -> V): V
    requires ps != [] && Defined(ps, t)
  {
    var p1 := Segment(ps, t);
    var p2 := MinInt(|ps| - 1, p1 + 1);
    if p1 == p2 then ps[p1].value
    else lerp((t - ps[p1].key) / (ps[p2].key - ps[p1].key), ps[p1].value, ps[p2].value)
  }

  /** Keys strictly increasing, as in every spline the particle system builds. */
  ghost predicate Increasing<V>(ps: seq<Point<V>>) {
    forall i, j :: 0 <= i < j < |ps| ==> ps[i].key < ps[j].key
  }

  /** Past every key, `Get` returns the last point's value as it is. */
  lemma SplineBeyond<V>(ps: seq<Point<V>>, t: real, lerp: (real, V, V) -> V)
    requires ps != [] && forall k :: 0 <= k < |ps| ==> ps[k].key < t
    ensures Defined(ps, t) && SplineValue(ps, t, lerp) == ps[|ps| - 1].value
  {
  }

  /**
   * With increasing keys the search stops at `j` exactly when the key
   * before `j` is below `t` and the key at `j` is not.
   */
  lemma {:induction false} StopsAt<V>(ps: seq<Point<V>>, t: real, j: nat)
    requires Increasing(ps) && j <= |ps|
    requires j > 0 ==> ps[j - 1].key < t
    requires j < |ps| ==> ps[j].key >= t
    ensures FirstAtLeast(ps, t) == j
  {
    if j > 0 {
      assert ps[0].key <= ps[j - 1].key;
      StopsAt(ps[1..], t, j - 1);
    }
  }

  /** With increasing keys, `Get` at a control key returns that point's value. */
  lemma {:induction false} SplineAtKey<V(!new)>(ps: seq<Point<V>>, k: nat, lerp: (real, V, V) -> V)
    requires Increasing(ps) && k < |ps| && Interpolates(lerp)
    ensures Defined(ps, ps[k].key) && SplineValue(ps, ps[k].key, lerp) == ps[k].value
  {
    var t := ps[k].key;
    StopsAt(ps, t, k);
    if k == 0 {
      assert Segment(ps, t) == 0;
      if |ps| > 1 {
        Fraction(t - ps[0].key, ps[1].key - ps[0].key);
        assert lerp(0.0, ps[0].value, ps[1].value) == ps[0].value;
      }
    } else {
      assert Segment(ps, t) == k - 1;
      Fraction(t - ps[k - 1].key, ps[k].key - ps[k - 1].key);
      assert lerp(1.0, ps[k - 1].value, ps[k].value) == ps[k].value;
    }
  }

  /** Where a distance `x` along a segment of length `d` puts the fraction `x / d`. */
  lemma Fraction(x: real, d: real)
    requires d > 0.0
    ensures x == 0.0 ==> x / d == 0.0
    ensures x == d ==> x / d == 1.0
    ensures 0.0 < x <= d ==> 0.0 < x / d <= 1.0
    ensures x < 0.0 ==> x / d < 0.0
  {
  }

  /**
   * At or below the first key `Get` does not clamp: it extrapolates along
   * the first segment, at a fraction that is negative below the key.
   */
  lemma {:induction false} SplineBelow<V>(ps: seq<Point<V>>, t: real, lerp: (real, V, V) -> V)
    requires |ps| > 1 && Increasing(ps) && t <= ps[0].key
    ensures Defined(ps, t)
    ensures var f := (t - ps[0].key) / (ps[1].key - ps[0].key);
      f <= 0.0 && (t < ps[0].key ==> f < 0.0) && SplineValue(ps, t, lerp) == lerp(f, ps[0].value, ps[1].value)
  {
    StopsAt(ps, t, 0);
    assert Segment(ps, t) == 0;
    Fraction(t - ps[0].key, ps[1].key - ps[0].key);
  }

  /**
   * Between two keys `Get` interpolates along their segment: for a `t`
   * above key `j - 1` and at most key `j`, the lerp from point `j - 1` to
   * point `j` at the fraction of the way `t` has come.
   */
  lemma {:induction false} SplineBetween<V>(ps: seq<Point<V>>, t: real, j: nat, lerp: (real, V, V) -> V)
    requires Increasing(ps) && 0 < j < |ps| && ps[j - 1].key < t <= ps[j].key
    ensures Defined(ps, t)
    ensures var f := (t - ps[j - 1].key) / (ps[j].key - ps[j - 1].key);
      0.0 < f <= 1.0 && SplineValue(ps, t, lerp) == lerp(f, ps[j - 1].value, ps[j].value)
  {
    StopsAt(ps, t, j);
    assert Segment(ps, t) == j - 1;
    Fraction(t - ps[j - 1].key, ps[j].key - ps[j - 1].key);
  }

  /** The alpha spline: fade in over the first tenth of the life, hold, fade out from 0.6. */
  const AlphaPoints: seq<Point<real>> := [Point(0.0, 0.0), Point(0.1, 1.0), Point(0.6, 1.0), Point(1.0, 0.0)]

  /** The colour spline: from a pale yellow to a pale red. */
  const ColourPoints: seq<Point<Colour>> := [Point(0.0, FromHex(0xFFFF80)), Point(1.0, FromHex(0xFF8080))]

  /** The size spline: from 1 up to 5 at mid-life and back to 1. */
  const SizePoints: seq<Point<real>> := [Point(0.0, 1.0), Point(0.5, 5.0), Point(1.0, 1.0)]

  lemma SplinesIncreasing()
    ensures Increasing(AlphaPoints) && Increasing(ColourPoints) && Increasing(SizePoints)
  {
  }

  function Alpha(t: real): real {
    SplineValue(AlphaPoints, t, Mix)
  }

  function SizeFactor(t: real): real {
    SplineValue(SizePoints, t, Mix)
  }

  function Tint(t: real): Colour {
    SplineValue(ColourPoints, t, MixColour)
  }

  /** Over a life fraction in [0, 1] the alpha stays in [0, 1]. */
  lemma {:induction false} AlphaRange(t: real)
    requires 0.0 <= t <= 1.0
    ensures 0.0 <= Alpha(t) <= 1.0
  {
    SplinesIncreasing();
    if t == 0.0 {
      SplineBelow(AlphaPoints, t, Mix);
      assert Alpha(t) == Mix(0.0 / 0.1, 0.0, 1.0);
    } else if t <= 0.1 {
      SplineBetween(AlphaPoints, t, 1, Mix);
    } else if t <= 0.6 {
      SplineBetween(AlphaPoints, t, 2, Mix);
    } else {
      SplineBetween(AlphaPoints, t, 3, Mix);
    }
  }

  /** Over a life fraction in [0, 1] the size factor stays in [1, 5]. */
  lemma {:induction false} SizeRange(t: real)
    requires 0.0 <= t <= 1.0
    ensures 1.0 <= SizeFactor(t) <= 5.0
  {
    SplinesIncreasing();
    if t == 0.0 {
      SplineBelow(SizePoints, t, Mix);
      assert SizeFactor(t) == Mix(0.0 / 0.5, 1.0, 5.0);
    } else if t <= 0.5 {
      SplineBetween(SizePoints, t, 1, Mix);
    } else {
      SplineBetween(SizePoints, t, 2, Mix);
    }
  }

  /** The two ends of the colour ramp, channel by channel. */
  lemma HexColours()
    ensures FromHex(0xFFFF80) == Colour(1.0, 1.0, 128.0 / 255.0)
    ensures FromHex(0xFF8080) == Colour(1.0, 128.0 / 255.0, 128.0 / 255.0)
  {
  }

  /** Over a life fraction in [0, 1] only the green channel moves, from 1 down to 128/255. */
  lemma {:induction false} TintRange(t: real)
    requires 0.0 <= t <= 1.0
    ensures var c := Tint(t); c.r == 1.0 && c.b == 128.0 / 255.0 && 128.0 / 255.0 <= c.g <= 1.0
  {
    HexColours();
    SplinesIncreasing();
    if t == 0.0 {
      SplineBelow(ColourPoints, t, MixColour);
    } else {
      SplineBetween(ColourPoints, t, 1, MixColour);
      assert (t - 0.0) / (1.0 - 0.0) == t;
    }
  }

  /** Before its life starts a particle's alpha is not clamped at 0: at -0.1 it is -1. */
  lemma AlphaExtrapolates()
    ensures Alpha(-0.1) == -1.0
  {
    SplinesIncreasing();
    SplineBelow(AlphaPoints, -0.1, Mix);
  }

  class LinearSpline<V> {
    /** `_points`, in the order they were added. */
    var points: seq<Point<V>>
    /** `_lerp`. */
    const lerp: (real, V, V) -> V

    constructor (lerp: (real, V, V) -> V)
      ensures points == [] && this.lerp == lerp
    {
      points := [];
      this.lerp := lerp;
    }

    /** `AddPoint(t, d)`: append the point, whatever its key. */
    method AddPoint(t: real, d: V)
      modifies this
      ensures points == old(points) + [Point(t, d)]
    {
      points := points + [Point(t, d)];
    }

    /**
     * `Get(t)`: the search loop for the segment, then the value at it. The
     * source reads the first point of an empty spline, so `Get` needs one.
     */
    method Get(t: real) returns (r: V)
      requires points != [] && Defined(points, t)
      ensures r == SplineValue(points, t, lerp)
    {
      var p1 := 0;
      ghost var stopped := false;
      for i := 0 to |points|
        invariant !stopped && p1 == (if i == 0 then 0 else i - 1)
        invariant forall k :: 0 <= k < i ==> points[k].key < t
      {
        if points[i].key >= t {
          assert FirstAtLeast(points, t) == i;
          stopped := true;
          break;
        }
        p1 := i;
      }
      if !stopped {
        assert FirstAtLeast(points, t) == |points|;
      }
      var p2 := MinInt(|points| - 1, p1 + 1);
      if p1 == p2 {
        return points[p1].value;
      }
      r := lerp((t - points[p1].key) / (points[p2].key - points[p1].key), points[p1].value, points[p2].value);
    }
  }

  /** One particle's state. `currentSize` is unset until the particle's first update. */
  datatype Particle = Particle(position: Vec3, size: real, colour: Colour, alpha: real, life: real, maxLife: real,
                               rotation: real, velocity: Vec3, currentSize: Option<real>)

  /** The six `Math.random()` draws of one new particle, in the order they are used. */
  datatype Draw = Draw(life: real, x: real, y: real, z: real, size: real, rotation: real)

  predicate Drawn(d: Draw) {
    0.0 <= d.life < 1.0 && 0.0 <= d.x < 1.0 && 0.0 <= d.y < 1.0 && 0.0 <= d.z < 1.0 &&
    0.0 <= d.size < 1.0 && 0.0 <= d.rotation < 1.0
  }

  /** The particle `_AddParticles` pushes for the draws `d`. */
  function Born(d: Draw): Particle {
    var life := (d.life * 0.75 + 0.25) * 10.0;
    Particle(Vec3((d.x * 20.0 - 1.0) * 1.0, (d.y * 20.0 - 1.0) * 1.0, (d.z * 20.0 - 1.0) * 1.0),
             (d.size * 0.5 + 0.5) * 4.0, White, 1.0, life, life, d.rotation * 2.0 * Pi, Vec3(0.0, 3.0, 0.0), None)
  }

  /**
   * A new particle lives between 2.5 and 10 seconds, starts at full life,
   * is between 2 and 4 in size, sits in [-1, 19) on each axis, and rises
   * at 3 units per second.
   */
  lemma BornBounds(d: Draw)
    requires Drawn(d)
    ensures var p := Born(d);
      2.5 <= p.life < 10.0 && p.maxLife == p.life && 2.0 <= p.size < 4.0 &&
      -1.0 <= p.position.x < 19.0 && -1.0 <= p.position.y < 19.0 && -1.0 <= p.position.z < 19.0 &&
      0.0 <= p.rotation < 2.0 * Pi && p.velocity == Vec3(0.0, 3.0, 0.0) && p.alpha == 1.0
  {
  }

  /** The first `n` particles drawn by `rand`. */
  function Batch(rand: nat -> Draw, n: nat): (r: seq<Particle>)
    ensures |r| == n && forall k :: 0 <= k < n ==> r[k] == Born(rand(k))
    ensures (forall k: nat :: k < n ==> Drawn(rand(k))) ==> Lived(r)
  {
    seq(n, k requires 0 <= k => Born(rand(k)))
  }

  /** `Math.floor(helperval * 75)`: the whole particles the accumulator `h` holds. */
  function Emitted(h: real): (n: int)
    ensures n as real <= h * 75.0 < n as real + 1.0
  {
    Floor(h * 75.0)
  }

  /** The particles `_AddParticles(dt)` appends to accumulator `h`: none when the count is negative. */
  function Count(h: real, dt: real): nat {
    var n := Emitted(h + dt);
    if n < 0 then 0 else n
  }

  /** The accumulator after `_AddParticles(dt)`: the time not yet paid out. */
  function Remainder(h: real, dt: real): real {
    (h + dt) - Emitted(h + dt) as real / 75.0
  }

  /**
   * Whatever the accumulator held and whatever the step, less than one
   * particle's worth (1/75 s) is left in it, and from a non-negative
   * remainder a non-negative step pays out exactly what was added.
   */
  lemma RemainderBound(h: real, dt: real)
    ensures 0.0 <= Remainder(h, dt) < 1.0 / 75.0
    ensures 0.0 <= h && 0.0 <= dt ==> Remainder(h, dt) + Count(h, dt) as real / 75.0 == h + dt
  {
  }

  function Sum(dts: seq<real>): real {
    if dts == [] then 0.0 else Sum(dts[..|dts| - 1]) + dts[|dts| - 1]
  }

  /** The accumulator after one `_AddParticles` per step of `dts`. */
  function Final(h: real, dts: seq<real>): real {
    if dts == [] then h else Remainder(Final(h, dts[..|dts| - 1]), dts[|dts| - 1])
  }

  /** The particles emitted over the steps `dts`. */
  function Total(h: real, dts: seq<real>): nat {
    if dts == [] then 0 else Total(h, dts[..|dts| - 1]) + Count(Final(h, dts[..|dts| - 1]), dts[|dts| - 1])
  }

  /** Over any run of non-negative steps, the emitted particles and the remainder account for all the time. */
  lemma {:induction false} Conserved(h: real, dts: seq<real>)
    requires 0.0 <= h && forall k :: 0 <= k < |dts| ==> dts[k] >= 0.0
    ensures 0.0 <= Final(h, dts) && Final(h, dts) + Total(h, dts) as real / 75.0 == h + Sum(dts)
  {
    if dts != [] {
      var front := dts[..|dts| - 1];
      Conserved(h, front);
      RemainderBound(Final(h, front), dts[|dts| - 1]);
    }
  }

  /**
   * No drift: starting from an empty accumulator, a run of non-negative
   * steps emits exactly `floor(75 * elapsed)` particles.
   */
  lemma {:induction false} SteadyRate(dts: seq<real>)
    requires forall k :: 0 <= k < |dts| ==> dts[k] >= 0.0
    ensures Total(0.0, dts) == Floor(75.0 * Sum(dts))
  {
    Conserved(0.0, dts);
    var n := Total(0.0, dts);
    if dts != [] {
      RemainderBound(Final(0.0, dts[..|dts| - 1]), dts[|dts| - 1]);
    }
    assert n as real <= 75.0 * Sum(dts) < n as real + 1.0;
  }

  /** Every life reduced by `dt` (the first loop of `_UpdateParticles`). */
  function Aged(ps: seq<Particle>, dt: real): (r: seq<Particle>)
    ensures |r| == |ps| && forall k :: 0 <= k < |ps| ==> r[k] == ps[k].(life := ps[k].life - dt)
  {
    seq(|ps|, k requires 0 <= k < |ps| => ps[k].(life := ps[k].life - dt))
  }

  /** The `filter` of `_UpdateParticles`: the particles with life left, in their order. */
  function Alive(ps: seq<Particle>): (r: seq<Particle>)
    ensures |r| <= |ps|
    ensures forall p :: p in r <==> p in ps && p.life > 0.0
  {
    if ps == [] then []
    else if ps[0].life > 0.0 then [ps[0]] + Alive(ps[1..])
    else Alive(ps[1..])
  }

  /** The life fraction a particle has used, `1 - life / maxLife`. */
  function Age(p: Particle): real
    requires p.maxLife != 0.0
  {
    1.0 - p.life / p.maxLife
  }

  /** The velocity after the drag: a tenth of it per second, never more than the velocity itself. */
  function Dragged(v: Vec3, dt: real): Vec3 {
    var drag := v.Scaled(dt * 0.1);
    Vec3(v.x - Clamped(v.x, drag.x, v.x), v.y - Clamped(v.y, drag.y, v.y), v.z - Clamped(v.z, drag.z, v.z))
  }

  /** Whatever the step, the drag moves every component toward zero and never across it. */
  lemma DragTowardZero(v: Vec3, dt: real)
    ensures var r := Dragged(v, dt);
      (v.x >= 0.0 ==> 0.0 <= r.x <= v.x) && (v.x <= 0.0 ==> v.x <= r.x <= 0.0) &&
      (v.y >= 0.0 ==> 0.0 <= r.y <= v.y) && (v.y <= 0.0 ==> v.y <= r.y <= 0.0) &&
      (v.z >= 0.0 ==> 0.0 <= r.z <= v.z) && (v.z <= 0.0 ==> v.z <= r.z <= 0.0)
  {
    var drag := v.Scaled(dt * 0.1);
    ClampedStepTowardZero(v.x, drag.x);
    ClampedStepTowardZero(v.y, drag.y);
    ClampedStepTowardZero(v.z, drag.z);
  }

  /** `p.size * factor`, the size a particle is drawn at. */
  function Scale(size: real, factor: real): real {
    size * factor
  }

  lemma NonNegativeProduct(a: real, b: real)
    requires 0.0 <= a && 0.0 <= b
    ensures 0.0 <= a * b
  {
  }

  lemma ScaleBounds(size: real, factor: real)
    requires 0.0 < size && 1.0 <= factor <= 5.0
    ensures size <= Scale(size, factor) <= 5.0 * size
  {
    NonNegativeProduct(size, factor - 1.0);
    NonNegativeProduct(size, 5.0 - factor);
  }

  /**
   * The second loop of `_UpdateParticles` on one particle, given what the
   * three splines return for its age: turn, take the alpha, scale the
   * size, take the colour, move by the velocity, then drag it.
   */
  function Painted(p: Particle, dt: real, alpha: real, factor: real, colour: Colour): Particle {
    p.(rotation := p.rotation + dt * 0.5, alpha := alpha, currentSize := Some(Scale(p.size, factor)),
       colour := colour, position := p.position.Plus(p.velocity.Scaled(dt)), velocity := Dragged(p.velocity, dt))
  }

  /** The second loop of `_UpdateParticles` on one particle. */
  function Animate(p: Particle, dt: real): Particle
    requires p.maxLife != 0.0
  {
    var t := Age(p);
    Painted(p, dt, Alpha(t), SizeFactor(t), Tint(t))
  }

  /** Every particle has a positive full life, so its age is defined. */
  ghost predicate Lived(ps: seq<Particle>) {
    forall k :: 0 <= k < |ps| ==> ps[k].maxLife > 0.0
  }

  function Animated(ps: seq<Particle>, dt: real): (r: seq<Particle>)
    requires Lived(ps)
    ensures |r| == |ps| && forall k :: 0 <= k < |ps| ==> r[k] == Animate(ps[k], dt)
  {
    seq(|ps|, k requires 0 <= k < |ps| => Animate(ps[k], dt))
  }

  lemma AgedLived(ps: seq<Particle>, dt: real)
    requires Lived(ps)
    ensures Lived(Aged(ps, dt)) && Lived(Alive(Aged(ps, dt)))
  {
    var r := Alive(Aged(ps, dt));
    forall k | 0 <= k < |r|
      ensures r[k].maxLife > 0.0
    {
      assert r[k] in Aged(ps, dt);
    }
  }

  /** `_UpdateParticles(dt)` on the particles `ps`. */
  function Updated(ps: seq<Particle>, dt: real): seq<Particle>
    requires Lived(ps)
  {
    AgedLived(ps, dt);
    Animated(Alive(Aged(ps, dt)), dt)
  }

  /**
   * The `filter` keeps exactly the particles whose life outlasts the
   * step: one comes out iff some particle went in with more life than
   * `dt`, and it comes out with `dt` less.
   */
  lemma Retained(ps: seq<Particle>, dt: real)
    ensures forall q :: q in Alive(Aged(ps, dt)) <==>
      exists k :: 0 <= k < |ps| && ps[k].life > dt && q == ps[k].(life := ps[k].life - dt)
  {
    var aged := Aged(ps, dt);
    forall q | q in Alive(aged)
      ensures exists k :: 0 <= k < |ps| && ps[k].life > dt && q == ps[k].(life := ps[k].life - dt)
    {
      var k :| 0 <= k < |aged| && aged[k] == q;
    }
  }

  /**
   * The animation keeps every life, so an update leaves only particles
   * with life left, and never more particles than it was given.
   */
  lemma UpdatedLive(ps: seq<Particle>, dt: real)
    requires Lived(ps)
    ensures |Updated(ps, dt)| <= |ps|
    ensures forall k :: 0 <= k < |Updated(ps, dt)| ==> Updated(ps, dt)[k].life > 0.0
  {
    AgedLived(ps, dt);
    var alive := Alive(Aged(ps, dt));
    forall k | 0 <= k < |alive|
      ensures alive[k].life > 0.0
    {
      assert alive[k] in alive;
    }
  }

  /** A particle within its life: a positive full life, no more left than that, and a positive base size. */
  predicate InLife(p: Particle) {
    0.0 < p.maxLife && p.life <= p.maxLife && 0.0 < p.size
  }

  /** A freshly drawn particle is within its life. */
  lemma BornInLife(d: Draw)
    requires Drawn(d)
    ensures InLife(Born(d))
  {
  }

  /**
   * What the splines give a particle within its life: alpha in [0, 1],
   * between 1 and 5 times its base size, a colour on the yellow-to-red ramp.
   */
  predicate Shown(p: Particle) {
    InLife(p) && 0.0 <= p.alpha <= 1.0 && p.currentSize.Some? && p.size <= p.currentSize.value <= 5.0 * p.size &&
    p.colour.r == 1.0 && p.colour.b == 128.0 / 255.0 && 128.0 / 255.0 <= p.colour.g <= 1.0
  }

  /** A particle within its life has used between none and all of it. */
  lemma AgeRange(p: Particle)
    requires InLife(p) && p.life > 0.0
    ensures 0.0 <= Age(p) < 1.0
  {
    assert 0.0 < p.life / p.maxLife <= 1.0;
  }

  lemma PaintedShown(p: Particle, dt: real, alpha: real, factor: real, c: Colour)
    requires InLife(p) && 0.0 <= alpha <= 1.0 && 1.0 <= factor <= 5.0
    requires c.r == 1.0 && c.b == 128.0 / 255.0 && 128.0 / 255.0 <= c.g <= 1.0
    ensures Shown(Painted(p, dt, alpha, factor, c))
  {
    var q := Painted(p, dt, alpha, factor, c);
    ScaleBounds(p.size, factor);
  }

  lemma {:induction false} AnimateShown(p: Particle, dt: real)
    requires InLife(p) && p.life > 0.0
    ensures Shown(Animate(p, dt))
  {
    AgeRange(p);
    var t := Age(p);
    AlphaRange(t);
    SizeRange(t);
    TintRange(t);
    PaintedShown(p, dt, Alpha(t), SizeFactor(t), Tint(t));
  }

  /**
   * For a step that does not go backwards, particles within their life
   * stay within it, and every one the update keeps is shown with alpha,
   * size and colour in the splines' ranges.
   */
  lemma {:induction false} UpdateShown(ps: seq<Particle>, dt: real)
    requires Lived(ps) && 0.0 <= dt && forall k :: 0 <= k < |ps| ==> InLife(ps[k])
    ensures forall k :: 0 <= k < |Updated(ps, dt)| ==> Shown(Updated(ps, dt)[k])
  {
    AgedLived(ps, dt);
    var aged := Aged(ps, dt);
    var alive := Alive(aged);
    forall k | 0 <= k < |alive|
      ensures Shown(Animate(alive[k], dt))
    {
      assert alive[k] in alive;
      var j :| 0 <= j < |aged| && aged[j] == alive[k];
      assert InLife(ps[j]);
      AnimateShown(alive[k], dt);
    }
  }

  class ParticleSystem {
    var totalLife: real
    var deleted: bool
    var particles: seq<Particle>
    /** The emission accumulator: time not yet paid out as particles. */
    var helperval: real
    const alphaSpline: LinearSpline<real>
    const colourSpline: LinearSpline<Colour>
    const sizeSpline: LinearSpline<real>

    /** The three splines hold the points and lerps the constructor gives them. */
    ghost predicate Splines()
      reads alphaSpline, colourSpline, sizeSpline
    {
      alphaSpline.points == AlphaPoints && alphaSpline.lerp == Mix &&
      colourSpline.points == ColourPoints && colourSpline.lerp == MixColour &&
      sizeSpline.points == SizePoints && sizeSpline.lerp == Mix
    }

    ghost predicate Valid()
      reads this, alphaSpline, colourSpline, sizeSpline
    {
      Splines() && Lived(particles)
    }

    /**
     * The constructor: two seconds of life, no particles, the three
     * splines, and the `_AddParticles(0)` that turns the unset accumulator
     * into 0 and pays out nothing.
     */
    constructor ()
      ensures Valid() && totalLife == 2.0 && !deleted && particles == [] && helperval == 0.0
    {
      totalLife := 2.0;
      deleted := false;
      particles := [];
      helperval := 0.0;
      var alpha := NewAlphaSpline();
      var colour := NewColourSpline();
      var size := NewSizeSpline();
      alphaSpline, colourSpline, sizeSpline := alpha, colour, size;
    }

    /** `_alphaSpline` as the constructor builds it. */
    static method NewAlphaSpline() returns (s: LinearSpline<real>)
      ensures fresh(s) && s.points == AlphaPoints && s.lerp == Mix
    {
      s := new LinearSpline(Mix);
      s.AddPoint(0.0, 0.0);
      s.AddPoint(0.1, 1.0);
      s.AddPoint(0.6, 1.0);
      s.AddPoint(1.0, 0.0);
    }

    /** `_colourSpline` as the constructor builds it. */
    static method NewColourSpline() returns (s: LinearSpline<Colour>)
      ensures fresh(s) && s.points == ColourPoints && s.lerp == MixColour
    {
      s := new LinearSpline(MixColour);
      s.AddPoint(0.0, FromHex(0xFFFF80));
      s.AddPoint(1.0, FromHex(0xFF8080));
    }

    /** `_sizeSpline` as the constructor builds it. */
    static method NewSizeSpline() returns (s: LinearSpline<real>)
      ensures fresh(s) && s.points == SizePoints && s.lerp == Mix
    {
      s := new LinearSpline(Mix);
      s.AddPoint(0.0, 1.0);
      s.AddPoint(0.5, 5.0);
      s.AddPoint(1.0, 1.0);
    }

    /**
     * `_AddParticles(dt)`: add the step to the accumulator, pay out its
     * whole particles (the `k`-th drawn by `rand(k)`), keep the rest.
     */
    method AddParticles(dt: real, rand: nat -> Draw)
      requires Valid() && forall k: nat :: Drawn(rand(k))
      modifies this
      ensures Valid() && particles == old(particles) + Batch(rand, Count(old(helperval), dt))
      ensures helperval == Remainder(old(helperval), dt)
      ensures totalLife == old(totalLife) && deleted == old(deleted)
    {
      helperval := helperval + dt;
      var n := Floor(helperval * 75.0);
      helperval := helperval - n as real / 75.0;
      var i := 0;
      while i < n
        invariant 0 <= i && (n >= 0 ==> i <= n) && (n < 0 ==> i == 0)
        invariant particles == old(particles) + Batch(rand, i) && Lived(particles)
        invariant helperval == Remainder(old(helperval), dt)
        invariant totalLife == old(totalLife) && deleted == old(deleted)
      {
        particles := particles + [Born(rand(i))];
        i := i + 1;
      }
    }

    /** The body of the second loop of `_UpdateParticles` for the particle `p`. */
    method AnimateParticle(p: Particle, dt: real) returns (q: Particle)
      requires Splines() && p.maxLife != 0.0
      ensures q == Animate(p, dt)
    {
      var t := 1.0 - p.life / p.maxLife;
      var alpha := alphaSpline.Get(t);
      var size := sizeSpline.Get(t);
      var colour := colourSpline.Get(t);
      q := Paint(p, dt, alpha, size, colour);
    }

    /** The rest of that loop body, once the splines have been read. */
    static method Paint(p: Particle, dt: real, alpha: real, size: real, colour: Colour) returns (q: Particle)
      ensures q == Painted(p, dt, alpha, size, colour)
    {
      q := p.(rotation := p.rotation + dt * 0.5, alpha := alpha, currentSize := Some(Scale(p.size, size)), colour := colour);
      q := q.(position := p.position.Plus(p.velocity.Scaled(dt)));
      var drag := p.velocity.Scaled(dt * 0.1);
      drag := Vec3(Clamped(p.velocity.x, drag.x, p.velocity.x), Clamped(p.velocity.y, drag.y, p.velocity.y),
                   Clamped(p.velocity.z, drag.z, p.velocity.z));
      q := q.(velocity := p.velocity.Plus(drag.Negated()));
    }

    /**
     * `_UpdateParticles(dt)`: age every particle, keep those with life
     * left, and animate those along the splines.
     */
    method UpdateParticles(dt: real)
      requires Valid()
      modifies this
      ensures Valid() && particles == Updated(old(particles), dt)
      ensures totalLife == old(totalLife) && deleted == old(deleted) && helperval == old(helperval)
    {
      AgeAll(dt);
      AgedLived(old(particles), dt);
      particles := Alive(particles);
      AnimateAll(dt);
    }

    /** The first loop of `_UpdateParticles`: every life less `dt`. */
    method AgeAll(dt: real)
      requires Valid()
      modifies this
      ensures Valid() && particles == Aged(old(particles), dt)
      ensures totalLife == old(totalLife) && deleted == old(deleted) && helperval == old(helperval)
    {
      var i := 0;
      while i < |particles|
        invariant 0 <= i <= |particles| == |old(particles)|
        invariant forall k :: 0 <= k < |particles| ==>
          particles[k] == if k < i then old(particles)[k].(life := old(particles)[k].life - dt) else old(particles)[k]
        invariant totalLife == old(totalLife) && deleted == old(deleted) && helperval == old(helperval)
      {
        particles := particles[i := particles[i].(life := particles[i].life - dt)];
        i := i + 1;
      }
      AgedLived(old(particles), dt);
    }

    /** The second loop of `_UpdateParticles`: every particle animated. */
    method AnimateAll(dt: real)
      requires Valid()
      modifies this
      ensures Valid() && particles == Animated(old(particles), dt)
      ensures totalLife == old(totalLife) && deleted == old(deleted) && helperval == old(helperval)
    {
      var i := 0;
      while i < |particles|
        invariant 0 <= i <= |particles| == |old(particles)|
        invariant forall k :: 0 <= k < |particles| ==>
          particles[k] == if k < i then Animate(old(particles)[k], dt) else old(particles)[k]
        invariant totalLife == old(totalLife) && deleted == old(deleted) && helperval == old(helperval)
      {
        var p := AnimateParticle(particles[i], dt);
        particles := particles[i := p];
        i := i + 1;
      }
    }

    /** `Delete`: mark the system deleted (taking its points out of the scene is not modelled). */
    method Delete()
      modifies this
      ensures deleted && particles == old(particles) && totalLife == old(totalLife) && helperval == old(helperval)
    {
      deleted := true;
    }

    /**
     * `Step(dt)`: emit while life is left, otherwise delete once no
     * particle is left; then update the particles and take the step off
     * the life.
     */
    method Step(dt: real, rand: nat -> Draw)
      requires Valid() && forall k: nat :: Drawn(rand(k))
      modifies this
      ensures Valid() && totalLife == old(totalLife) - dt
      ensures deleted == (old(deleted) || (old(totalLife) <= 0.0 && old(particles) == []))
      ensures old(totalLife) > 0.0 ==>
        particles == Updated(old(particles) + Batch(rand, Count(old(helperval), dt)), dt) &&
        helperval == Remainder(old(helperval), dt)
      ensures old(totalLife) <= 0.0 ==> particles == Updated(old(particles), dt) && helperval == old(helperval)
    {
      if totalLife > 0.0 {
        AddParticles(dt, rand);
      } else if |particles| == 0 {
        Delete();
      }
      UpdateParticles(dt);
      totalLife := totalLife - dt;
    }
  }
}
