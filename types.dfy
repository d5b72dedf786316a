/** The simulation's records: particles, vectors, wells, the pointer, and
    the slice of the settings object the physics reads.  Numbers are reals;
    settings that the source keys on strings (modes, tools) stay strings so
    that unknown values behave as they do in the source. */
module Types {

  /** The slot of each field within a particle's 8 buffer slots.  The
      slot count itself is written as the literal 8 in index arithmetic,
      where it keeps the arithmetic linear for the verifier. */
  const X: int := 0
  const Y: int := 1
  const VX: int := 2
  const VY: int := 3
  const R: int := 4
  const M: int := 5
  const INV_M: int := 6
  const HEAT: int := 7

  datatype Vec = Vec(x: real, y: real)

  const Zero: Vec := Vec(0.0, 0.0)

  function Add(a: Vec, b: Vec): Vec
  {
    Vec(a.x + b.x, a.y + b.y)
  }

  function Scale(a: Vec, k: real): Vec
  {
    Vec(a.x * k, a.y * k)
  }

  datatype Particle = Particle(x: real, y: real, vx: real, vy: real,
                               r: real, m: real, invM: real, heat: real,
                               color: string)

  /** A gravity well: a position and an alternating spin sign. */
  datatype Well = Well(x: real, y: real, sign: int)

  /** The part of the pointer state the physics reads. */
  datatype PointerState = PointerState(x: real, y: real, dx: real, dy: real, active: bool)

  datatype Container = Container(cx: real, cy: real, radiusN: real, sizeN: real)

  datatype ParticleSettings = ParticleSettings(
    count: real, radiusMin: real, radiusMax: real, radiusRange: real,
    uniformSize: bool, colorMode: string, solidColor: string,
    massMode: string, mass: real, randomMassMin: real, randomMassMax: real)

  datatype PhysicsSettings = PhysicsSettings(
    gravity: real, tiltSensitivity: real, airDrag: real, windX: real, windY: real,
    boundaries: string, restitution: real, wallFriction: real,
    particleFriction: real, container: Container)

  datatype CollisionSettings = CollisionSettings(
    mode: string, softness: real, inelasticity: real, enable: bool)

  datatype ForceSettings = ForceSettings(
    turbulenceMode: string, amplitude: real, scale: real, timeScale: real,
    wellsCount: real, wellsSeed: real, wellsMove: bool)

  datatype PointerSettings = PointerSettings(
    enabled: bool, tool: string, strength: real, radius: real)

  datatype PerformanceSettings = PerformanceSettings(
    simSpeed: real, substeps: real, adaptive: bool, lowFpsThreshold: real,
    maxParticles: real, collisionCap: real)

  datatype ControlSettings = ControlSettings(mouseSetsGravity: bool)

  datatype Settings = Settings(
    particles: ParticleSettings, physics: PhysicsSettings,
    collisions: CollisionSettings, forces: ForceSettings,
    pointer: PointerSettings, performance: PerformanceSettings,
    controls: ControlSettings)

  /** A collision pass runs only when collisions are enabled and the mode
      is not `'none'`. */
  predicate CollisionsOn(enable: bool, mode: string)
  {
    enable && mode != "none"
  }

  /** The per-unit-mass turbulence at a point, given the current wells
      (empty when there are none); its contents are not modelled. */
  type TurbField = (seq<Well>, Vec) -> Vec

  /** A stream of `Math.random` draws: the k-th call returns `draw(k)`. */
  ghost predicate UnitStream(draw: nat -> real)
  {
    forall k: nat :: 0.0 <= draw(k) < 1.0
  }

  /** `Math.random`: each call returns the next draw of a fixed stream of
      values in [0, 1). */
  class RandomSource {
    const draw: nat -> real
    var next: nat

    constructor(draw: nat -> real)
      ensures this.draw == draw && next == 0
    {
      this.draw := draw;
      next := 0;
    }

    method Random() returns (u: real)
      requires UnitStream(draw)
      modifies this
      ensures u == draw(old(next)) && next == old(next) + 1
      ensures 0.0 <= u < 1.0
    {
      u := draw(next);
      next := next + 1;
    }
  }
}
