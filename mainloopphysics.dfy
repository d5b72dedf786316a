/** The unclamped main-thread physics step over `State.particles`:
    `simulatePhysicsStep` (gravity and wind, the inline turbulence modes,
    wells only in mode `'wells'`, the pointer with offset 1e-4, then the
    plain semi-implicit Euler step), `handleCollisions` (3x3 neighbours,
    a random unit normal below a distance of 1e-4, no impulse clamp,
    friction fallback 1e-6) and `handleBoundaries` (`containerRest =
    rest`, circle fallback 1e-6). */
module MainLoopPhysics {
  import opened JsNumber
  import opened Types
  import opened Utils
  import opened ForceKernel
  import opened ContactKernel
  import opened WallKernel
  import opened FlatForces
  import opened PassSettings
  import opened SimState
  import opened RecordCollisions
  import opened RecordLaws
  import opened RecordSteps

  /** The gravity source and heat decay the state holds. */
  function DataOf(w: World): StepData
    reads w`settings, w`mouseGravity, w`gDir, w`heatDecay
  {
    StepData(w.settings.controls.mouseSetsGravity, w.mouseGravity, w.gDir, w.heatDecay)
  }

  /** The wells the step uses: computed from the time only in turbulence
      mode `'wells'`, none otherwise.  `wellsAt` stands for the wells
      generator the step calls. */
  function WellsFor(tm: string, wellsAt: real -> seq<Well>, time: real): (ws: Option<seq<Well>>)
    ensures ws.Some? <==> tm == "wells"
  {
    if tm == "wells" then Some(wellsAt(time)) else None
  }

  /** One particle through `simulatePhysicsStep`: the forces, then the
      unclamped step with the heat update in `'heat'` colour mode. */
  function Advance(mf: MathFns, settings: Settings, pointer: PointerState, field: TurbField,
                   wells: Option<seq<Well>>, data: StepData, h: real, p: Particle): Particle
    requires SqrtLaw(mf)
  {
    var ptrActive := settings.pointer.enabled && pointer.active;
    Integrate(p, InlineForces(mf, p, settings, pointer, ptrActive, field, wells, data), h,
              settings.physics.airDrag, false, settings.particles.colorMode == "heat", data.heatDecay)
  }

  function AdvanceFn(mf: MathFns, settings: Settings, pointer: PointerState, field: TurbField,
                     wells: Option<seq<Well>>, data: StepData, h: real): Particle --> Particle
  {
    p requires SqrtLaw(mf) => Advance(mf, settings, pointer, field, wells, data, h, p)
  }

  /** `simulatePhysicsStep(time, h)`: every record is advanced in place,
      from its own values and the state's settings, pointer and gravity. */
  method SimulatePhysicsStep(w: World, mf: MathFns, field: TurbField, wellsAt: real -> seq<Well>,
                             time: real, h: real)
    requires SqrtLaw(mf)
    modifies w`particles
    ensures w.particles == MapAll(AdvanceFn(mf, w.settings, w.pointer, field,
                                            WellsFor(w.settings.forces.turbulenceMode, wellsAt, time),
                                            DataOf(w), h), old(w.particles))
  {
    var wells := if w.settings.forces.turbulenceMode == "wells" then Some(wellsAt(time)) else None;
    w.MapParticles(AdvanceFn(mf, w.settings, w.pointer, field, wells, DataOf(w), h));
  }

  /** The step is plain semi-implicit Euler with no clamp: `v' = v + (a -
      v*drag)*h`, then `x' = x + v'*h`; radius, mass, inverse mass and
      colour are kept, and heat only changes in `'heat'` colour mode. */
  lemma AdvanceIsEuler(mf: MathFns, settings: Settings, pointer: PointerState, field: TurbField,
                       wells: Option<seq<Well>>, data: StepData, h: real, s: seq<Particle>, k: int)
    requires SqrtLaw(mf) && 0 <= k < |s|
    ensures var p, q := s[k], MapAll(AdvanceFn(mf, settings, pointer, field, wells, data, h), s)[k];
            var a := InlineForces(mf, p, settings, pointer, settings.pointer.enabled && pointer.active,
                                  field, wells, data);
            var drag := settings.physics.airDrag;
            q.vx == p.vx + (a.x - p.vx * drag) * h && q.vy == p.vy + (a.y - p.vy * drag) * h
            && q.x == p.x + q.vx * h && q.y == p.y + q.vy * h
            && q.r == p.r && q.m == p.m && q.invM == p.invM && q.color == p.color
            && (settings.particles.colorMode != "heat" ==> q.heat == p.heat)
  {
    assert MapAll(AdvanceFn(mf, settings, pointer, field, wells, data, h), s)[k]
           == Advance(mf, settings, pointer, field, wells, data, h, s[k]);
    AdvanceEuler(mf, settings, pointer, field, wells, data, h, s[k]);
  }

  /** `AdvanceIsEuler` for one record. */
  lemma AdvanceEuler(mf: MathFns, settings: Settings, pointer: PointerState, field: TurbField,
                     wells: Option<seq<Well>>, data: StepData, h: real, p: Particle)
    requires SqrtLaw(mf)
    ensures var q := Advance(mf, settings, pointer, field, wells, data, h, p);
            var a := InlineForces(mf, p, settings, pointer, settings.pointer.enabled && pointer.active,
                                  field, wells, data);
            var drag := settings.physics.airDrag;
            q.vx == p.vx + (a.x - p.vx * drag) * h && q.vy == p.vy + (a.y - p.vy * drag) * h
            && q.x == p.x + q.vx * h && q.y == p.y + q.vy * h
            && q.r == p.r && q.m == p.m && q.invM == p.invM && q.color == p.color
            && (settings.particles.colorMode != "heat" ==> q.heat == p.heat)
  {
    var a := InlineForces(mf, p, settings, pointer, settings.pointer.enabled && pointer.active,
                          field, wells, data);
    var q := Integrate(p, a, h, settings.physics.airDrag, false, settings.particles.colorMode == "heat",
                       data.heatDecay);
    assert Advance(mf, settings, pointer, field, wells, data, h, p) == q;
    IntegrateUnclamped(p, a, h, settings.physics.airDrag, settings.particles.colorMode == "heat",
                       data.heatDecay);
  }

  /** Outside mode `'wells'` the step does not depend on the wells
      generator at all; in mode `'wells'` it uses the wells of this time. */
  lemma WellsOnlyInWellsMode(mf: MathFns, settings: Settings, pointer: PointerState, field: TurbField,
                             wellsA: real -> seq<Well>, wellsB: real -> seq<Well>, time: real,
                             data: StepData, h: real, p: Particle)
    requires SqrtLaw(mf) && settings.forces.turbulenceMode != "wells"
    ensures Advance(mf, settings, pointer, field, WellsFor(settings.forces.turbulenceMode, wellsA, time), data, h, p)
            == Advance(mf, settings, pointer, field, WellsFor(settings.forces.turbulenceMode, wellsB, time), data, h, p)
  {
  }

  /** With turbulence mode `'none'` and the pointer off or out of reach,
      the step accelerates by gravity and wind alone. */
  lemma GravityOnlyStep(mf: MathFns, settings: Settings, pointer: PointerState, field: TurbField,
                        wells: Option<seq<Well>>, data: StepData, h: real, p: Particle)
    requires SqrtLaw(mf) && settings.forces.turbulenceMode == "none"
    requires !PointerOn(settings.pointer.enabled && pointer.active, settings.pointer.tool)
             || !InReach(p, settings, pointer)
    ensures Advance(mf, settings, pointer, field, wells, data, h, p)
            == Integrate(p, BaseAt(p, settings, data), h, settings.physics.airDrag, false,
                         settings.particles.colorMode == "heat", data.heatDecay)
  {
    var a := InlineForces(mf, p, settings, pointer, settings.pointer.enabled && pointer.active,
                          field, wells, data);
    assert a == Add(BaseAt(p, settings, data), InlineTurbulence(p, "none", field, wells));
  }

  /** This copy's collision pass: the random unit normal below a distance
      of 1e-4, no impulse clamp, friction fallback 1e-6, cap
      `collisionCap | 0`. */
  function MainPass(settings: Settings): (rp: RecordPass)
    ensures rp.policy == RandomUnit && rp.eps == 0.0001 && !rp.cp.clampImpulse
    ensures rp.cap == ToInt32(settings.performance.collisionCap)
  {
    RecordPass(PassContact(settings, false, 0.000001), RandomUnit, 0.0001,
               ToInt32(settings.performance.collisionCap))
  }

  /** `handleCollisions()`: the record pass with this copy's parameters,
      each `Math.random()` call taking the next draw of `rng`. */
  method HandleCollisions(w: World, rng: RandomSource, mf: MathFns, ghost nl: NeighborFn)
    requires SqrtLaw(mf) && UnitStream(rng.draw) && w.Valid()
    requires AgreesWithGrid(nl, w.grid.buckets, w.gridCell)
    modifies w`particles, rng
    ensures (w.particles, rng.next)
            == Collide(MainPass(w.settings), mf, rng.draw, nl, old(w.particles), |old(w.particles)|, old(rng.next))
  {
    RecordCollisions.HandleCollisions(w, rng, MainPass(w.settings), mf, nl);
  }

  /** Whatever the draws, the pass keeps the sums of positions, every
      radius, mass, inverse mass and colour, momentum when every inverse
      mass is the inverse of its mass (or in `'soft'` mode), and heat in
      [0, 1.2]. */
  lemma MainCollisionsKeep(settings: Settings, mf: MathFns, draw: nat -> real, nl: NeighborFn,
                           s: seq<Particle>, k: nat)
    requires SqrtLaw(mf)
    ensures Keeps(MainPass(settings), s, Collide(MainPass(settings), mf, draw, nl, s, |s|, k).0)
  {
    CollideKeeps(MainPass(settings), mf, draw, nl, s, k);
  }

  /** Below a distance of 1e-4 the pass draws two numbers and uses them as
      a unit normal (unless both map to 0), with distance 1e-4. */
  lemma CoincidentUsesRandomNormal(settings: Settings, mf: MathFns, draw: nat -> real, k: nat,
                                   p: Particle, q: Particle)
    requires SqrtLaw(mf) && Hypot(mf, q.x - p.x, q.y - p.y) < 0.0001
    ensures Draws(MainPass(settings), mf, p, q)
    ensures var c := PairContact(MainPass(settings), mf, draw, k, p, q);
            c.d == 0.0001
            && (Norm2(draw(k) * 2.0 - 1.0, draw(k + 1) * 2.0 - 1.0) > 0.0 ==> Norm2(c.nx, c.ny) == 1.0)
  {
  }

  /** The walls of this copy, with the `|| 1e-6` circle fallback. */
  function MainWalls(w: World): (walls: Walls)
    reads w`settings, w`canvasWidth, w`canvasHeight, w`dpr
    ensures walls.containerRest == w.settings.physics.restitution
  {
    RecordWalls(w.settings, w.BW(), w.BH(), 0.000001)
  }

  /** `handleBoundaries()`: every record through the walls of the mapped
      mode, with `containerRest = rest`. */
  method HandleBoundaries(w: World, mf: MathFns)
    requires SqrtLaw(mf)
    modifies w`particles
    ensures w.particles == MapAll(Bounded(mf, MainWalls(w)), old(w.particles))
  {
    w.MapParticles(Bounded(mf, MainWalls(w)));
  }
}
