/** The background particle cloud of the hero scene: how many particles a device gets, how
    each particle is first drawn, and the per-frame drift with its wrap-around at radius 20.
    Three.js buffers are modelled as one sequence entry per particle; the square root, the
    sphere sampling angles and `Math.random()` are inputs. */
module ParticleField {
  import opened Wrappers
  import Capability
  import SceneManager

  datatype Vec3 = Vec3(x: real, y: real, z: real)

  /** Squared distance from the origin. */
  function NormSq(v: Vec3): real
  {
    v.x * v.x + v.y * v.y + v.z * v.z
  }

  function Scale(v: Vec3, k: real): Vec3
  {
    Vec3(k * v.x, k * v.y, k * v.z)
  }

  /** Beyond this distance a particle is sent back. */
  const MaxDistance: real := 20.0
  /** The distance a sent-back particle lands at. */
  const ResetDistance: real := 10.0

  lemma NormSqNonneg(v: Vec3)
    ensures NormSq(v) >= 0.0
  {
    assert v.x * v.x >= 0.0 && v.y * v.y >= 0.0 && v.z * v.z >= 0.0;
  }

  /** Squaring is strictly increasing on the non-negative reals. */
  lemma SquareMonotone(a: real, b: real)
    requires 0.0 <= a <= b
    ensures a * a <= b * b
    ensures a < b ==> a * a < b * b
  {
    assert b * b - a * a == (b - a) * (b + a);
    if a < b {
      MulPos(b - a, b + a);
    }
  }

  lemma MulPos(a: real, b: real)
    requires a > 0.0 && b > 0.0
    ensures a * b > 0.0
  {}

  lemma NormSqScale(v: Vec3, k: real)
    ensures NormSq(Scale(v, k)) == k * k * NormSq(v)
  {
    assert (k * v.x) * (k * v.x) == k * k * (v.x * v.x);
    assert (k * v.y) * (k * v.y) == k * k * (v.y * v.y);
    assert (k * v.z) * (k * v.z) == k * k * (v.z * v.z);
  }

  // ---------------------------------------------------------------- particle count

  /** `window.devicePixelRatio || 1`: an absent or zero ratio counts as 1. */
  function PixelRatio(dpr: Option<real>): (r: real)
    ensures dpr.Some? && dpr.value != 0.0 ==> r == dpr.value
    ensures dpr.None? || dpr.value == 0.0 ==> r == 1.0
  {
    if dpr.Some? && dpr.value != 0.0 then dpr.value else 1.0
  }

  /** `getOptimalParticleCount`: a mobile user agent gets 30% of the request, otherwise a
      pixel ratio above 2 gets 70%, otherwise the request stands. Fractions are rounded
      down; the mobile rule wins over the pixel-ratio rule. */
  function OptimalCount(requested: int, userAgent: string, dpr: Option<real>): (r: int)
    ensures Capability.IsMobileDevice(userAgent) ==> 10 * r <= 3 * requested < 10 * r + 10
    ensures !Capability.IsMobileDevice(userAgent) && PixelRatio(dpr) > 2.0 ==>
              10 * r <= 7 * requested < 10 * r + 10
    ensures !Capability.IsMobileDevice(userAgent) && PixelRatio(dpr) <= 2.0 ==> r == requested
  {
    if Capability.IsMobileDevice(userAgent) then (requested as real * 0.3).Floor
    else if PixelRatio(dpr) > 2.0 then (requested as real * 0.7).Floor
    else requested
  }

  /** Scaling never adds particles and never goes negative. */
  lemma OptimalCountBounds(requested: int, userAgent: string, dpr: Option<real>)
    requires requested >= 0
    ensures 0 <= OptimalCount(requested, userAgent, dpr) <= requested
  {}

  /** Asking for more never yields fewer. */
  lemma OptimalCountMonotone(a: int, b: int, userAgent: string, dpr: Option<real>)
    requires a <= b
    ensures OptimalCount(a, userAgent, dpr) <= OptimalCount(b, userAgent, dpr)
  {}

  // ---------------------------------------------------------------- initial draws

  /** The random draws of one particle, each in [0, 1). The sphere angles are not draws
      here: they enter as the unit direction of `InitialParticle`. */
  datatype Draws = Draws(radius: real, vx: real, vy: real, vz: real, mix: real, blend: real, size: real)

  predicate Unit(u: real) { 0.0 <= u < 1.0 }

  predicate ValidDraws(d: Draws)
  {
    Unit(d.radius) && Unit(d.vx) && Unit(d.vy) && Unit(d.vz) && Unit(d.mix) && Unit(d.blend) && Unit(d.size)
  }

  /** `10 + Math.random() * 10` */
  function Radius(u: real): (r: real)
    requires Unit(u)
    ensures 10.0 <= r < 20.0
  {
    10.0 + u * 10.0
  }

  /** `(Math.random() - 0.5) * 0.02` */
  function VelocityComponent(u: real): (r: real)
    requires Unit(u)
    ensures -0.01 <= r < 0.01
  {
    (u - 0.5) * 0.02
  }

  /** `Math.random() * 2 + 0.5` */
  function Size(u: real): (r: real)
    requires Unit(u)
    ensures 0.5 <= r < 2.5
  {
    u * 2.0 + 0.5
  }

  /** The palette as hex codes; `0x000000` is declared in the source but never chosen. */
  const ElectricBlue: int := 0x00d4ff
  const PureWhite: int := 0xffffff
  const PureBlack: int := 0x000000

  /** A colour as the source builds it: a copy of a palette entry, or `lerpColors(from, to, t)`. */
  datatype Colour = Pure(hex: int) | Blend(from: int, to: int, t: real)

  /** The colour choice: the mix draw picks white below 0.7, a blue-to-white blend with a
      second draw below 0.9, and blue otherwise. */
  function ChooseColour(mix: real, blend: real): (c: Colour)
    ensures c.Blend? ==> c.from == ElectricBlue && c.to == PureWhite && c.t == blend
    ensures c == Pure(PureWhite) <==> mix < 0.7
    ensures c == Pure(ElectricBlue) <==> 0.9 <= mix
  {
    if mix < 0.7 then Pure(PureWhite)
    else if mix < 0.9 then Blend(ElectricBlue, PureWhite, blend)
    else Pure(ElectricBlue)
  }

  /** The three bands partition the draw: white exactly below 0.7, a blend exactly on
      [0.7, 0.9), blue exactly from 0.9 on; black is never chosen. */
  lemma ColourBands(mix: real, blend: real)
    ensures ChooseColour(mix, blend) == Pure(PureWhite) <==> mix < 0.7
    ensures ChooseColour(mix, blend).Blend? <==> 0.7 <= mix < 0.9
    ensures ChooseColour(mix, blend) == Pure(ElectricBlue) <==> 0.9 <= mix
    ensures ChooseColour(mix, blend) != Pure(PureBlack)
  {}

  datatype Particle = Particle(position: Vec3, velocity: Vec3, colour: Colour, size: real)

  /** One particle of `createGPUParticles`: at `radius` along the sampled unit direction,
      with a small random velocity, a colour and a size. */
  function InitialParticle(d: Draws, direction: Vec3): (p: Particle)
    requires ValidDraws(d) && NormSq(direction) == 1.0
    ensures 100.0 <= NormSq(p.position) < 400.0
    ensures -0.01 <= p.velocity.x < 0.01 && -0.01 <= p.velocity.y < 0.01 && -0.01 <= p.velocity.z < 0.01
    ensures 0.5 <= p.size < 2.5
    ensures p.colour == ChooseColour(d.mix, d.blend)
  {
    var r := Radius(d.radius);
    NormSqScale(direction, r);
    SquareMonotone(10.0, r);
    SquareMonotone(r, 20.0);
    Particle(Scale(direction, r),
             Vec3(VelocityComponent(d.vx), VelocityComponent(d.vy), VelocityComponent(d.vz)),
             ChooseColour(d.mix, d.blend), Size(d.size))
  }

  // ---------------------------------------------------------------- the field

  /** What the shader material carries: the time uniform. The basic fallback uses a plain
      material without uniforms. */
  datatype Points = Points(positions: seq<Vec3>, rotationY: real, time: Option<real>)

  /** The component: `particleCount`, the points object once built, and the velocities the
      GPU path stores (the basic path stores none). */
  datatype Field = Field(count: nat, points: Option<Points>, velocities: Option<seq<Vec3>>, useGpu: bool)

  /** Every buffer holds one entry per particle. */
  predicate Valid(f: Field)
  {
    && (f.points.Some? ==> |f.points.value.positions| == f.count)
    && (f.velocities.Some? ==> |f.velocities.value| == f.count)
    && (f.velocities.Some? ==> f.points.Some?)
  }

  /** The constructor with `init()`: the count is scaled, the GPU path builds particles
      with velocities and a time uniform starting at 0, the basic path builds positions
      only; either way the animate callback joins the render loop. */
  function Create(loop: SceneManager.Loop, callback: SceneManager.CallbackId, requested: int, userAgent: string,
                  dpr: Option<real>, webgl2: bool, draws: seq<Draws>, directions: seq<Vec3>): (r: (Field, SceneManager.Loop))
    requires OptimalCount(requested, userAgent, dpr) >= 0
    requires |draws| == |directions| == OptimalCount(requested, userAgent, dpr)
    requires forall i :: 0 <= i < |draws| ==> ValidDraws(draws[i]) && NormSq(directions[i]) == 1.0
    ensures Valid(r.0) && r.0.count == OptimalCount(requested, userAgent, dpr)
    ensures r.0.points.Some? && r.0.useGpu == webgl2
    ensures forall i :: 0 <= i < r.0.count ==> 100.0 <= NormSq(r.0.points.value.positions[i]) < 400.0
    ensures r.0.velocities.Some? <==> webgl2
    ensures r.0.points.value.time.Some? <==> webgl2
    ensures r.1 == SceneManager.OnAnimate(loop, callback)
  {
    var n := OptimalCount(requested, userAgent, dpr);
    var ps := seq(n, i requires 0 <= i < n => InitialParticle(draws[i], directions[i]));
    var positions := seq(n, i requires 0 <= i < n => ps[i].position);
    var field :=
      if webgl2 then
        Field(n, Some(Points(positions, 0.0, Some(0.0))), Some(seq(n, i requires 0 <= i < n => ps[i].velocity)), true)
      else
        Field(n, Some(Points(positions, 0.0, None)), None, false);
    (field, SceneManager.OnAnimate(loop, callback))
  }

  /** `position += velocity * deltaTime * 10`, per coordinate. */
  function Advance(p: Vec3, v: Vec3, dt: real): (r: Vec3)
    ensures r.x - p.x == v.x * dt * 10.0 && r.y - p.y == v.y * dt * 10.0 && r.z - p.z == v.z * dt * 10.0
  {
    Vec3(p.x + v.x * dt * 10.0, p.y + v.y * dt * 10.0, p.z + v.z * dt * 10.0)
  }

  /** The boundary check given the position's distance `d`: beyond `MaxDistance` the
      position is multiplied by `-10 / d`, which puts it at distance 10 on the opposite ray. */
  function Wrap(p: Vec3, d: real): (r: Vec3)
    requires d >= 0.0 && d * d == NormSq(p)
    ensures NormSq(r) <= MaxDistance * MaxDistance
    ensures d <= MaxDistance ==> r == p
    ensures d > MaxDistance ==>
      NormSq(r) == ResetDistance * ResetDistance && exists k :: k < 0.0 && r == Scale(p, k)
  {
    if d > MaxDistance then
      var k := -(ResetDistance / d);
      NormSqScale(p, k);
      assert k * d == -ResetDistance;
      assert k * k * (d * d) == (k * d) * (k * d);
      Scale(p, k)
    else
      SquareMonotone(d, MaxDistance);
      p
  }

  /** `dists` holds the distance of every particle after the advance, as `Math.sqrt`
      computes it. */
  predicate Distances(f: Field, dt: real, dists: seq<real>)
    requires Valid(f)
  {
    f.velocities.Some? ==>
      && |dists| == f.count
      && forall i :: 0 <= i < f.count ==>
           && dists[i] >= 0.0
           && dists[i] * dists[i] == NormSq(Advance(f.points.value.positions[i], f.velocities.value[i], dt))
  }

  /** `animate(deltaTime, elapsedTime)`: without a points object nothing happens. Otherwise
      the cloud turns by `deltaTime * 0.08` about y, the time uniform (if any) becomes the
      elapsed time, and, when velocities are stored, every particle drifts and wraps. */
  function Animate(f: Field, dt: real, elapsed: real, dists: seq<real>): (r: Field)
    requires Valid(f) && Distances(f, dt, dists)
    ensures Valid(r) && r.count == f.count && r.velocities == f.velocities && r.useGpu == f.useGpu
    ensures f.points.None? ==> r == f
    ensures f.points.Some? ==>
      && r.points.Some?
      && r.points.value.rotationY == f.points.value.rotationY + dt * 0.08
      && r.points.value.time == (if f.points.value.time.Some? then Some(elapsed) else None)
    ensures f.points.Some? && f.velocities.None? ==> r.points.value.positions == f.points.value.positions
    ensures f.velocities.Some? ==> forall i :: 0 <= i < r.count ==>
      var moved := Advance(f.points.value.positions[i], f.velocities.value[i], dt);
      && NormSq(r.points.value.positions[i]) <= MaxDistance * MaxDistance
      && (dists[i] <= MaxDistance ==> r.points.value.positions[i] == moved)
      && (dists[i] > MaxDistance ==> NormSq(r.points.value.positions[i]) == ResetDistance * ResetDistance)
  {
    if f.points.None? then f
    else
      var pts := f.points.value;
      var time := if pts.time.Some? then Some(elapsed) else None;
      var positions :=
        if f.velocities.None? then pts.positions
        else
          var vs := f.velocities.value;
          seq(f.count, i requires 0 <= i < f.count => Wrap(Advance(pts.positions[i], vs[i], dt), dists[i]));
      f.(points := Some(Points(positions, pts.rotationY + dt * 0.08, time)))
  }

  /** Whatever the prior positions, after a frame of the GPU field every particle is
      within `MaxDistance` of the origin and the particle count is unchanged. */
  lemma AnimateKeepsCloudBounded(f: Field, dt: real, elapsed: real, dists: seq<real>)
    requires Valid(f) && f.velocities.Some? && Distances(f, dt, dists)
    ensures var r := Animate(f, dt, elapsed, dists);
      && r.count == f.count && |r.points.value.positions| == |f.points.value.positions|
      && forall i :: 0 <= i < r.count ==> NormSq(r.points.value.positions[i]) <= 400.0
  {}

  /** A particle that is not beyond the boundary after its drift is exactly where the
      drift took it: the wrap only moves escaping particles. */
  lemma NoWrapInsideBoundary(p: Vec3, v: Vec3, dt: real, d: real)
    requires d >= 0.0 && d * d == NormSq(Advance(p, v, dt))
    requires NormSq(Advance(p, v, dt)) <= MaxDistance * MaxDistance
    ensures Wrap(Advance(p, v, dt), d) == Advance(p, v, dt)
  {
  }

  /** A particle at rest (zero velocity) inside the cloud never moves. */
  lemma RestingParticleStays(p: Vec3, dt: real, d: real)
    requires NormSq(p) <= MaxDistance * MaxDistance
    requires d >= 0.0 && d * d == NormSq(p)
    ensures Wrap(Advance(p, Vec3(0.0, 0.0, 0.0), dt), d) == p
  {
    assert Advance(p, Vec3(0.0, 0.0, 0.0), dt) == p;
    NoWrapInsideBoundary(p, Vec3(0.0, 0.0, 0.0), dt, d);
  }
}
