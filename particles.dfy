/** Building the particle records: the mass rule of each mass mode, one
    fresh particle from its random draws, `rebuildParticles` (a new array
    of `count | 0` particles, optionally carrying over the old positions,
    velocities and cooled heat) and `applyUniformRadius`.  Every
    `Math.random()` value, and the spawn position, is an input. */
module Particles {
  import opened JsNumber
  import opened Types
  import opened Utils
  import opened SimState

  const PI: real := 3.141592653589793

  /** `Math.PI*r*r*0.02`: the mass of a disc of radius r in `'byArea'`
      mode. */
  function Area(r: real): real
  {
    PI * r * r * 0.02
  }

  /** A product `a*r*r*d` with positive outer factors is never negative,
      and positive unless r is 0. */
  lemma ScaledSquare(a: real, r: real, d: real)
    requires a > 0.0 && d > 0.0
    ensures a * r * r * d >= 0.0
    ensures r != 0.0 ==> a * r * r * d > 0.0
  {
    if r > 0.0 {
      Product4(a, r, r, d);
    } else if r < 0.0 {
      Product4(a, -r, -r, d);
      assert a * (-r) * (-r) * d == a * r * r * d;
    }
  }

  lemma Product4(a: real, b: real, c: real, d: real)
    requires a > 0.0 && b > 0.0 && c > 0.0 && d > 0.0
    ensures a * b * c * d > 0.0
  {
    MulPositive(a, b);
    MulPositive(a * b, c);
    MulPositive(a * b * c, d);
  }

  /** A disc's mass is never negative, and positive for a non-zero
      radius. */
  lemma AreaSign(r: real)
    ensures Area(r) >= 0.0
    ensures r != 0.0 ==> Area(r) > 0.0
  {
    if r != 0.0 {
      calc {
        Area(r);
      ==
        PI * r * r * 0.02;
      > { ScaledSquare(PI, r, 0.02); }
        0.0;
      }
    } else {
      calc {
        Area(r);
      ==
        PI * r * r * 0.02;
      >= { ScaledSquare(PI, r, 0.02); }
        0.0;
      }
    }
  }

  /** `massForRadius(r)`: the configured mass, the disc area, its damped
      inverse, a draw between the random bounds, or 1 for any other mode.
      `u` is the `Math.random()` value `rand` takes in `'random'` mode. */
  function MassForRadius(ps: ParticleSettings, r: real, u: real): real
    requires 0.0 <= u < 1.0
  {
    if ps.massMode == "constant" then ps.mass
    else if ps.massMode == "byArea" then Area(r)
    else if ps.massMode == "inverse" then AreaSign(r); 1.0 / (Area(r) + 0.1)
    else if ps.massMode == "random" then Rand(ps.randomMassMin, ps.randomMassMax, u)
    else 1.0
  }

  /** The mass of every mode: positive in `'byArea'` for a non-zero radius,
      in (0, 10] in `'inverse'` for every radius, within the random bounds
      in `'random'` when they form a range, and 1 for an unknown mode. */
  lemma MassPositive(ps: ParticleSettings, r: real, u: real)
    requires 0.0 <= u < 1.0
    ensures ps.massMode == "byArea" && r != 0.0 ==> MassForRadius(ps, r, u) > 0.0
    ensures ps.massMode == "inverse" ==> 0.0 < MassForRadius(ps, r, u) <= 10.0
    ensures ps.massMode == "random" && ps.randomMassMin < ps.randomMassMax ==>
              ps.randomMassMin <= MassForRadius(ps, r, u) < ps.randomMassMax
    ensures ps.massMode !in {"constant", "byArea", "inverse", "random"} ==> MassForRadius(ps, r, u) == 1.0
  {
    if ps.massMode == "inverse" {
      AreaSign(r);
      InverseBelow(Area(r) + 0.1, 0.1);
    } else if ps.massMode == "byArea" {
      AreaSign(r);
    }
  }

  /** The random values one `makeParticle()` consumes: the radius draw, the
      mass draw (used in `'random'` mass mode), the two velocity draws, and
      the position `spawnPosFor` picks for it. */
  datatype Draws = Draws(ur: real, um: real, uvx: real, uvy: real, pos: Vec)

  predicate UnitDraws(d: Draws)
  {
    0.0 <= d.ur < 1.0 && 0.0 <= d.um < 1.0 && 0.0 <= d.uvx < 1.0 && 0.0 <= d.uvy < 1.0
  }

  /** `makeParticle()`: a radius drawn in `[radiusMin, radiusMin +
      radiusRange)`, its mass, the spawn position, velocities drawn in
      `[-40, 40)`, `invM = 1/m`, no heat, and the solid colour. */
  function MakeParticle(ps: ParticleSettings, d: Draws): Particle
    requires UnitDraws(d)
  {
    var r := Rand(ps.radiusMin, ps.radiusMin + ps.radiusRange, d.ur);
    var m := MassForRadius(ps, r, d.um);
    Particle(d.pos.x, d.pos.y, Rand(-40.0, 40.0, d.uvx), Rand(-40.0, 40.0, d.uvy),
             r, m, Div(1.0, m), 0.0, ps.solidColor)
  }

  /** A fresh particle has no heat, an inverse mass that is the inverse of
      its mass, a radius within the configured range, velocities in
      [-40, 40), the spawn position and the solid colour. */
  lemma FreshParticle(ps: ParticleSettings, d: Draws)
    requires UnitDraws(d)
    ensures var p := MakeParticle(ps, d);
            p.heat == 0.0 && (p.m != 0.0 ==> p.m * p.invM == 1.0)
            && (ps.radiusRange >= 0.0 ==> ps.radiusMin <= p.r <= ps.radiusMin + ps.radiusRange)
            && -40.0 <= p.vx < 40.0 && -40.0 <= p.vy < 40.0
            && p.x == d.pos.x && p.y == d.pos.y && p.color == ps.solidColor
  {
  }

  /** Particle i of a rebuild: a fresh particle, which, when positions are
      kept and an old particle i exists, takes that one's position clamped
      into the canvas, its velocity, and 0.8 of its heat. */
  function Rebuilt(ps: ParticleSettings, keep: bool, prev: seq<Particle>, bw: real, bh: real,
                   d: Draws, i: int): Particle
    requires UnitDraws(d)
  {
    var p := MakeParticle(ps, d);
    if keep && 0 <= i < |prev| then
      p.(x := Clamp(prev[i].x, p.r, bw - p.r), y := Clamp(prev[i].y, p.r, bh - p.r),
         vx := prev[i].vx, vy := prev[i].vy, heat := prev[i].heat * 0.8)
    else p
  }

  /** A kept particle takes the old velocity and 0.8 of the old heat, and a
      centre at least its radius inside a canvas at least its diameter
      wide and tall; radius, mass and inverse mass are the fresh ones.
      Otherwise the particle is a fresh one. */
  lemma KeptParticle(ps: ParticleSettings, keep: bool, prev: seq<Particle>, bw: real, bh: real,
                     d: Draws, i: int)
    requires UnitDraws(d)
    ensures var p, f := Rebuilt(ps, keep, prev, bw, bh, d, i), MakeParticle(ps, d);
            p.r == f.r && p.m == f.m && p.invM == f.invM && p.color == f.color
            && (keep && 0 <= i < |prev| ==>
                  p.vx == prev[i].vx && p.vy == prev[i].vy && p.heat == 0.8 * prev[i].heat
                  && (2.0 * p.r <= bw ==> p.r <= p.x <= bw - p.r)
                  && (2.0 * p.r <= bh ==> p.r <= p.y <= bh - p.r))
            && (!keep || i < 0 || i >= |prev| ==> p == f)
  {
  }

  /** `clamp(count, 0, maxParticles) | 0`. */
  function Target(s: Settings): int
  {
    ToInt32(Clamp(s.particles.count, 0.0, s.performance.maxParticles))
  }

  /** For a particle limit below 2^31, the target is the integer part of
      the clamped count: between 0 and the limit. */
  lemma TargetBounds(s: Settings)
    requires 0.0 <= s.performance.maxParticles < TWO31 as real
    ensures Target(s) == Trunc(Clamp(s.particles.count, 0.0, s.performance.maxParticles))
    ensures 0 <= Target(s) && Target(s) as real <= s.performance.maxParticles
    ensures 0.0 <= s.particles.count <= s.performance.maxParticles ==>
              Target(s) as real <= s.particles.count < Target(s) as real + 1.0
  {
  }

  /** `Math.max(8, (radiusMax*2)|0)`: the hash cell size after a rebuild. */
  function CellFor(ps: ParticleSettings): real
  {
    Max(8.0, ToInt32(ps.radiusMax * 2.0) as real)
  }

  /** The cell size is never below 8, and is the integer part of the
      largest diameter whenever that is between 8 and 2^31. */
  lemma CellForBounds(ps: ParticleSettings)
    ensures CellFor(ps) >= 8.0
    ensures 8.0 <= ps.radiusMax * 2.0 < TWO31 as real ==> CellFor(ps) == Trunc(ps.radiusMax * 2.0) as real
  {
  }

  /** `rebuildParticles(keepPositions)`: the array becomes exactly `count |
      0` particles (none when that is negative), particle i made from the
      draws `spawn(i)`, and the cell size is reset from the largest
      radius; nothing else in the state changes. */
  method RebuildParticles(w: World, keepPositions: bool, spawn: nat -> Draws)
    requires forall i: nat :: UnitDraws(spawn(i))
    modifies w`particles, w`gridCell
    ensures |w.particles| == if Target(w.settings) < 0 then 0 else Target(w.settings)
    ensures forall i :: 0 <= i < |w.particles| ==>
              w.particles[i] == Rebuilt(w.settings.particles, keepPositions, old(w.particles),
                                        w.BW(), w.BH(), spawn(i), i)
    ensures w.gridCell == CellFor(w.settings.particles)
    ensures old(w.Valid()) ==> w.Valid()
  {
    var ps := w.settings.particles;
    var bw, bh := w.BW(), w.BH();
    var target := Target(w.settings);
    var prev := w.particles;
    w.particles := [];
    var i := 0;
    while i < target
      invariant 0 <= i && (i <= target || i == 0)
      invariant |w.particles| == i
      invariant forall k :: 0 <= k < i ==> w.particles[k] == Rebuilt(ps, keepPositions, prev, bw, bh, spawn(k), k)
    {
      var p := MakeParticle(ps, spawn(i));
      if keepPositions && i < |prev| {
        p := p.(x := Clamp(prev[i].x, p.r, bw - p.r), y := Clamp(prev[i].y, p.r, bh - p.r),
                vx := prev[i].vx, vy := prev[i].vy, heat := prev[i].heat * 0.8);
      }
      w.particles := w.particles + [p];
      i := i + 1;
    }
    w.gridCell := Max(8.0, ToInt32(ps.radiusMax * 2.0) as real);
    CellForBounds(ps);
  }

  /** One record under `applyUniformRadius`: radius `radiusMax`, its mass
      (u is the draw of `'random'` mode), `invM = 1/m`, and the centre
      clamped to the canvas for that radius. */
  function Uniform(ps: ParticleSettings, bw: real, bh: real, u: real, p: Particle): Particle
    requires 0.0 <= u < 1.0
  {
    var r := ps.radiusMax;
    var m := MassForRadius(ps, r, u);
    p.(r := r, m := m, invM := Div(1.0, m), x := Clamp(p.x, r, bw - r), y := Clamp(p.y, r, bh - r))
  }

  /** Every record through `Uniform`, record k with draw `um(k)`. */
  function UniformAll(ps: ParticleSettings, bw: real, bh: real, um: nat -> real, s: seq<Particle>): (t: seq<Particle>)
    requires forall k: nat :: 0.0 <= um(k) < 1.0
    ensures |t| == |s|
  {
    seq(|s|, k requires 0 <= k < |s| => Uniform(ps, bw, bh, um(k), s[k]))
  }

  /** After a uniform resize every radius is `radiusMax`, every inverse mass
      is the inverse of its mass, every centre is at least the radius
      inside a canvas at least the diameter wide and tall, and velocity,
      heat and colour are kept. */
  lemma UniformProps(ps: ParticleSettings, bw: real, bh: real, um: nat -> real, s: seq<Particle>, k: int)
    requires forall k: nat :: 0.0 <= um(k) < 1.0
    requires 0 <= k < |s|
    ensures var q := UniformAll(ps, bw, bh, um, s)[k];
            q.r == ps.radiusMax && (q.m != 0.0 ==> q.m * q.invM == 1.0)
            && (2.0 * q.r <= bw ==> q.r <= q.x <= bw - q.r)
            && (2.0 * q.r <= bh ==> q.r <= q.y <= bh - q.r)
            && q.vx == s[k].vx && q.vy == s[k].vy && q.heat == s[k].heat && q.color == s[k].color
  {
    assert UniformAll(ps, bw, bh, um, s)[k] == Uniform(ps, bw, bh, um(k), s[k]);
  }

  /** `applyUniformRadius()`: nothing unless `uniformSize` is set; then
      every record is resized in place (record k taking draw `um(k)`) and
      the cell size is reset from `radiusMax`. */
  method ApplyUniformRadius(w: World, um: nat -> real)
    requires forall k: nat :: 0.0 <= um(k) < 1.0
    modifies w`particles, w`gridCell
    ensures !w.settings.particles.uniformSize ==>
              w.particles == old(w.particles) && w.gridCell == old(w.gridCell)
    ensures w.settings.particles.uniformSize ==>
              w.particles == UniformAll(w.settings.particles, w.BW(), w.BH(), um, old(w.particles))
              && w.gridCell == CellFor(w.settings.particles)
    ensures old(w.Valid()) ==> w.Valid()
  {
    var ps := w.settings.particles;
    if !ps.uniformSize {
      return;
    }
    var bw, bh := w.BW(), w.BH();
    ghost var s0 := w.particles;
    var i := 0;
    while i < |w.particles|
      invariant 0 <= i <= |w.particles| == |s0|
      invariant forall k :: 0 <= k < i ==> w.particles[k] == Uniform(ps, bw, bh, um(k), s0[k])
      invariant forall k :: i <= k < |s0| ==> w.particles[k] == s0[k]
    {
      w.particles := w.particles[i := Uniform(ps, bw, bh, um(i), w.particles[i])];
      i := i + 1;
    }
    w.gridCell := Max(8.0, ToInt32(ps.radiusMax * 2.0) as real);
    CellForBounds(ps);
  }
}
