/** The per-particle force and integration steps on the flat buffer, in
    the two copies that take a particle index: the worker helpers (gravity
    and wind, a turbulence term computed elsewhere, the pointer with offset
    1e-3, and the clamped integrator) and the older helpers (gravity and
    wind, the inline turbulence modes scaled by the inverse mass, the
    pointer with offset 1e-4, and the unclamped integrator). */
module FlatForces {
  import opened JsNumber
  import opened Types
  import opened Utils
  import opened PhysicsUtils
  import opened ForceKernel

  /** The per-frame values the step receives besides the settings: the
      two gravity directions, which one is in use, and the heat decay. */
  datatype StepData = StepData(mouseSetsGravity: bool, mouseGravity: Vec, gDir: Vec,
                               heatDecay: real)

  /** Gravity and wind on particle p. */
  function BaseAt(p: Particle, settings: Settings, data: StepData): Vec
  {
    BaseAccel(GravitySource(data.mouseSetsGravity, data.mouseGravity, data.gDir),
              settings.physics, p.invM)
  }

  /** The pointer's pull on particle p, with distance offset `eps`. */
  function PointerAt(mf: MathFns, p: Particle, settings: Settings,
                     pointer: PointerState, ptrActive: bool, eps: real): Vec
    requires SqrtLaw(mf) && eps > 0.0
  {
    PointerAccel(mf, ptrActive, settings.pointer, pointer, Vec(p.x, p.y), p.invM, eps)
  }

  /** Whether particle p lies strictly inside the pointer's radius. */
  predicate InReach(p: Particle, settings: Settings, pointer: PointerState)
  {
    Norm2(p.x - pointer.x, p.y - pointer.y) < settings.pointer.radius * settings.pointer.radius
  }

  /** `applyForces` of the worker helpers on particle i of the buffer: the
      base, then the turbulence term `turb` the turbulence module returned,
      then the pointer.  The pointer adds nothing while it is off, its tool
      is `'none'`, or the particle is outside its radius. */
  function WorkerForces(mf: MathFns, s: seq<real>, i: int, settings: Settings,
                        pointer: PointerState, ptrActive: bool, turb: Vec,
                        data: StepData): (a: Vec)
    requires SqrtLaw(mf) && Holds(s, i)
    ensures !PointerOn(ptrActive, settings.pointer.tool) || !InReach(Rec(s, i), settings, pointer)
            ==> a == Add(BaseAt(Rec(s, i), settings, data), turb)
  {
    var p := Rec(s, i);
    Add(Add(BaseAt(p, settings, data), turb), PointerAt(mf, p, settings, pointer, ptrActive, 0.001))
  }

  /** The inline turbulence of the older helpers and of the worker: every
      mode is the inverse mass times a field value; mode `'wells'`
      contributes only when a wells list is at hand. */
  function InlineTurbulence(p: Particle, tm: string, field: TurbField,
                            wells: Option<seq<Well>>): (a: Vec)
    ensures tm !in TURBULENCE_MODES ==> a == Zero
    ensures tm == "wells" && wells.None? ==> a == Zero
    ensures p.invM == 0.0 ==> a == Zero
  {
    if tm == "wells" && wells.None? then Zero
    else
      var ws := if wells.Some? then wells.value else [];
      ScaledTurbulence(tm, field, ws, Vec(p.x, p.y), p.invM)
  }

  /** `applyForces` of the older helpers, and the worker's inline force
      block, on particle p.  With turbulence mode `'none'` and the pointer
      off, the result is exactly gravity plus wind. */
  function InlineForces(mf: MathFns, p: Particle, settings: Settings,
                        pointer: PointerState, ptrActive: bool, field: TurbField,
                        wells: Option<seq<Well>>, data: StepData): (a: Vec)
    requires SqrtLaw(mf)
    ensures settings.forces.turbulenceMode == "none" && !PointerOn(ptrActive, settings.pointer.tool)
            ==> a == BaseAt(p, settings, data)
    ensures !PointerOn(ptrActive, settings.pointer.tool) || !InReach(p, settings, pointer)
            ==> a == Add(BaseAt(p, settings, data),
                         InlineTurbulence(p, settings.forces.turbulenceMode, field, wells))
  {
    var base := BaseAt(p, settings, data);
    var turb := InlineTurbulence(p, settings.forces.turbulenceMode, field, wells);
    Add(Add(base, turb), PointerAt(mf, p, settings, pointer, ptrActive, 0.0001))
  }

  /** The integration step on particle i as a function of the buffer:
      `clamps` selects the worker's clamped step. */
  function StepAt(s: seq<real>, i: int, acc: Vec, h: real, settings: Settings,
                  data: StepData, clamps: bool): (q: Particle)
    requires Holds(s, i)
    ensures q.r == s[i * 8 + R] && q.m == s[i * 8 + M] && q.invM == s[i * 8 + INV_M]
    ensures q.x == s[i * 8 + X] + q.vx * h && q.y == s[i * 8 + Y] + q.vy * h
    ensures clamps ==> -SPEED_LIMIT <= q.vx <= SPEED_LIMIT && -SPEED_LIMIT <= q.vy <= SPEED_LIMIT
    ensures settings.particles.colorMode != "heat" ==> q.heat == s[i * 8 + HEAT]
    ensures settings.particles.colorMode == "heat" ==>
              s[i * 8 + HEAT] * data.heatDecay <= q.heat <= s[i * 8 + HEAT] * data.heatDecay + HEAT_GAIN_MAX
  {
    var p := Rec(s, i);
    assert p.x == s[i * 8 + X] && p.y == s[i * 8 + Y] && p.heat == s[i * 8 + HEAT];
    assert p.r == s[i * 8 + R] && p.m == s[i * 8 + M] && p.invM == s[i * 8 + INV_M];
    Integrate(p, acc, h, settings.physics.airDrag, clamps, settings.particles.colorMode == "heat", data.heatDecay)
  }

  /** `applyIntegration`: particle i's position, velocity and heat are
      replaced by one integration step; every other slot keeps its value
      (see `IntegrationSlots`). */
  method ApplyIntegration(a: array<real>, i: int, acc: Vec, h: real, settings: Settings,
                          data: StepData, clamps: bool)
    requires Holds(a[..], i)
    modifies a
    ensures a[..] == WithMotionHeat(old(a[..]), i, StepAt(old(a[..]), i, acc, h, settings, data, clamps))
  {
    var q := StepAt(a[..], i, acc, h, settings, data, clamps);
    StoreMotionHeat(a, i, q);
  }

  /** An integration step writes only the X, Y, VX, VY and HEAT slots of
      its own particle: the radius, mass and inverse-mass slots and every
      slot of every other particle keep their values. */
  lemma IntegrationSlots(s: seq<real>, i: int, q: Particle, k: int)
    requires Holds(s, i) && 0 <= k < |s|
    requires k != i * 8 + X && k != i * 8 + Y && k != i * 8 + VX && k != i * 8 + VY
    requires k != i * 8 + HEAT
    ensures WithMotionHeat(s, i, q)[k] == s[k]
  {
  }

  /** The worker's step keeps velocities in [-1000, 1000]: the slots the
      step writes hold clamped velocities and a position advanced by them. */
  lemma ClampedStepSlots(s: seq<real>, i: int, acc: Vec, h: real, settings: Settings, data: StepData)
    requires Holds(s, i)
    ensures var t := WithMotionHeat(s, i, StepAt(s, i, acc, h, settings, data, true));
            -SPEED_LIMIT <= t[i * 8 + VX] <= SPEED_LIMIT && -SPEED_LIMIT <= t[i * 8 + VY] <= SPEED_LIMIT
            && t[i * 8 + X] == s[i * 8 + X] + t[i * 8 + VX] * h
            && t[i * 8 + Y] == s[i * 8 + Y] + t[i * 8 + VY] * h
  {
    var q := StepAt(s, i, acc, h, settings, data, true);
    WithMotionHeatRec(s, i, q, i);
  }
}
