/** The clamped main-thread physics step over `State.particles`:
    `simulatePhysicsStep` (gravity and wind, a turbulence value scaled by
    the inverse mass, the pointer with offset 1e-3, the acceleration cut to
    [-500, 500] and the new velocity to [-1000, 1000] per axis),
    `handleCollisions` (3x3 neighbours, the fixed normal `(1,0)` below a
    distance of 1e-3, the impulse cut to [-100, 100], friction fallback
    1e-4) and `handleBoundaries` (`containerRest = rest`, circle fallback
    1e-4). */
module ClampedLoopPhysics {
  import opened JsNumber
  import opened Types
  import opened ForceKernel
  import opened ContactKernel
  import opened WallKernel
  import opened FlatForces
  import opened PassSettings
  import opened SimState
  import opened RecordCollisions
  import opened RecordLaws
  import opened RecordSteps

  function DataOf(w: World): StepData
    reads w`settings, w`mouseGravity, w`gDir, w`heatDecay
  {
    StepData(w.settings.controls.mouseSetsGravity, w.mouseGravity, w.gDir, w.heatDecay)
  }

  /** The acceleration on p before the clamp: gravity and wind, the
      turbulence field at p (no wells list: the turbulence helper finds
      its own) times the inverse mass, and the pointer. */
  function ClampedForces(mf: MathFns, settings: Settings, pointer: PointerState, field: TurbField,
                         data: StepData, p: Particle): Vec
    requires SqrtLaw(mf)
  {
    Add(Add(BaseAt(p, settings, data), Scale(field([], Vec(p.x, p.y)), p.invM)),
        PointerAt(mf, p, settings, pointer, settings.pointer.enabled && pointer.active, 0.001))
  }

  /** One particle through this copy's step: the clamped integration. */
  function Advance(mf: MathFns, settings: Settings, pointer: PointerState, field: TurbField,
                   data: StepData, h: real, p: Particle): Particle
    requires SqrtLaw(mf)
  {
    Integrate(p, ClampedForces(mf, settings, pointer, field, data, p), h, settings.physics.airDrag,
              true, settings.particles.colorMode == "heat", data.heatDecay)
  }

  function AdvanceFn(mf: MathFns, settings: Settings, pointer: PointerState, field: TurbField,
                     data: StepData, h: real): Particle --> Particle
  {
    p requires SqrtLaw(mf) => Advance(mf, settings, pointer, field, data, h, p)
  }

  /** `simulatePhysicsStep(time, h)`: every record advanced in place by the
      clamped step; `field` is the turbulence at this time. */
  method SimulatePhysicsStep(w: World, mf: MathFns, field: TurbField, h: real)
    requires SqrtLaw(mf)
    modifies w`particles
    ensures w.particles == MapAll(AdvanceFn(mf, w.settings, w.pointer, field, DataOf(w), h),
                                  old(w.particles))
  {
    w.MapParticles(AdvanceFn(mf, w.settings, w.pointer, field, DataOf(w), h));
  }

  /** After the step every velocity component lies in [-1000, 1000], the
      position has advanced by the new velocity times h, and the step is
      the one taken with the acceleration cut to [-500, 500] per axis,
      whatever the forces were. */
  lemma AdvanceClamps(mf: MathFns, settings: Settings, pointer: PointerState, field: TurbField,
                      data: StepData, h: real, s: seq<Particle>, k: int)
    requires SqrtLaw(mf) && 0 <= k < |s|
    ensures var p, q := s[k], MapAll(AdvanceFn(mf, settings, pointer, field, data, h), s)[k];
            var a := ClampedForces(mf, settings, pointer, field, data, p);
            -SPEED_LIMIT <= q.vx <= SPEED_LIMIT && -SPEED_LIMIT <= q.vy <= SPEED_LIMIT
            && q.x == p.x + q.vx * h && q.y == p.y + q.vy * h
            && q.r == p.r && q.m == p.m && q.invM == p.invM && q.color == p.color
            && q == Integrate(p, Vec(Limit(a.x, ACCEL_LIMIT), Limit(a.y, ACCEL_LIMIT)), h,
                              settings.physics.airDrag, true, settings.particles.colorMode == "heat",
                              data.heatDecay)
  {
    var p := s[k];
    var a := ClampedForces(mf, settings, pointer, field, data, p);
    assert MapAll(AdvanceFn(mf, settings, pointer, field, data, h), s)[k]
           == Advance(mf, settings, pointer, field, data, h, p);
    IntegrateUsesLimit(p, a, h, settings.physics.airDrag, settings.particles.colorMode == "heat",
                       data.heatDecay);
  }

  /** The pointer adds nothing while it is off, its tool is `'none'`, or
      the particle is outside its radius. */
  lemma PointerOnlyInReach(mf: MathFns, settings: Settings, pointer: PointerState, field: TurbField,
                           data: StepData, p: Particle)
    requires SqrtLaw(mf)
    requires !PointerOn(settings.pointer.enabled && pointer.active, settings.pointer.tool)
             || !InReach(p, settings, pointer)
    ensures ClampedForces(mf, settings, pointer, field, data, p)
            == Add(BaseAt(p, settings, data), Scale(field([], Vec(p.x, p.y)), p.invM))
  {
  }

  /** This copy's collision pass: the fixed normal `(1,0)` below 1e-3, the
      impulse cut to [-100, 100], friction fallback 1e-4. */
  function ClampedPass(settings: Settings): (rp: RecordPass)
    ensures rp.policy == FixedUnitX && rp.eps == 0.001 && rp.cp.clampImpulse
    ensures rp.cap == ToInt32(settings.performance.collisionCap)
  {
    RecordPass(PassContact(settings, true, 0.0001), FixedUnitX, 0.001,
               ToInt32(settings.performance.collisionCap))
  }

  /** `handleCollisions()`: the record pass with this copy's parameters;
      the fixed normal draws no random number. */
  method HandleCollisions(w: World, rng: RandomSource, mf: MathFns, ghost nl: NeighborFn)
    requires SqrtLaw(mf) && UnitStream(rng.draw) && w.Valid()
    requires AgreesWithGrid(nl, w.grid.buckets, w.gridCell)
    modifies w`particles, rng
    ensures w.particles
            == Collide(ClampedPass(w.settings), mf, rng.draw, nl, old(w.particles), |old(w.particles)|, old(rng.next)).0
    ensures rng.next == old(rng.next)
  {
    RecordCollisions.HandleCollisions(w, rng, ClampedPass(w.settings), mf, nl);
  }

  /** The pass keeps the sums of positions, every radius, mass, inverse
      mass and colour, momentum when every inverse mass is the inverse of
      its mass, and heat in [0, 1.2]; its result does not depend on any
      random draw. */
  lemma ClampedCollisionsKeep(settings: Settings, mf: MathFns, d1: nat -> real, d2: nat -> real,
                              nl: NeighborFn, s: seq<Particle>, k: nat)
    requires SqrtLaw(mf)
    ensures Keeps(ClampedPass(settings), s, Collide(ClampedPass(settings), mf, d1, nl, s, |s|, k).0)
    ensures Collide(ClampedPass(settings), mf, d1, nl, s, |s|, k) == Collide(ClampedPass(settings), mf, d2, nl, s, |s|, k)
  {
    CollideKeeps(ClampedPass(settings), mf, d1, nl, s, k);
    CollideDrawFree(ClampedPass(settings), mf, d1, d2, nl, s, |s|, k);
  }

  /** Below a distance of 1e-3 the normal is `(1,0)` and the distance 1e-3,
      so the step is deterministic. */
  lemma CoincidentUsesFixedNormal(settings: Settings, mf: MathFns, draw: nat -> real, k: nat,
                                  p: Particle, q: Particle)
    requires SqrtLaw(mf) && Hypot(mf, q.x - p.x, q.y - p.y) < 0.001
    ensures PairContact(ClampedPass(settings), mf, draw, k, p, q) == Contact(1.0, 0.0, 0.001)
  {
  }

  /** The walls of this copy, with the `|| 1e-4` circle fallback. */
  function ClampedWalls(w: World): (walls: Walls)
    reads w`settings, w`canvasWidth, w`canvasHeight, w`dpr
    ensures walls.containerRest == w.settings.physics.restitution
  {
    RecordWalls(w.settings, w.BW(), w.BH(), 0.0001)
  }

  /** `handleBoundaries()`: every record through the walls of the mapped
      mode, with `containerRest = rest`. */
  method HandleBoundaries(w: World, mf: MathFns)
    requires SqrtLaw(mf)
    modifies w`particles
    ensures w.particles == MapAll(Bounded(mf, ClampedWalls(w)), old(w.particles))
  {
    w.MapParticles(Bounded(mf, ClampedWalls(w)));
  }
}
