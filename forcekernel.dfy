/** The per-particle force and integration arithmetic shared by every copy
    of the physics step: the gravity-plus-wind base acceleration, the
    pointer tools, and one semi-implicit Euler step with the optional
    acceleration and velocity clamps and the heat update. */
module ForceKernel {
  import opened JsNumber
  import opened Types

  /** Acceleration bound of the clamped integrators, per axis. */
  const ACCEL_LIMIT: real := 500.0
  /** Velocity bound of the clamped integrators, per axis. */
  const SPEED_LIMIT: real := 1000.0
  /** Largest heat a single integration step adds. */
  const HEAT_GAIN_MAX: real := 0.05

  /** The direction gravity pulls in: the pointer-set direction when the
      pointer sets gravity, the device-tilt direction otherwise. */
  function GravitySource(mouseSetsGravity: bool, mouseGravity: Vec, gDir: Vec): Vec
  {
    if mouseSetsGravity then mouseGravity else gDir
  }

  /** Gravity and wind for a particle with inverse mass `invM`, in the
      source's evaluation order. */
  function BaseAccel(g: Vec, ph: PhysicsSettings, invM: real): (a: Vec)
    ensures a == Scale(Vec(g.x * ph.gravity * ph.tiltSensitivity + ph.windX,
                           g.y * ph.gravity * ph.tiltSensitivity + ph.windY), invM)
  {
    Vec(g.x * ph.gravity * ph.tiltSensitivity * invM + ph.windX * invM,
        g.y * ph.gravity * ph.tiltSensitivity * invM + ph.windY * invM)
  }

  /** With `invM = 1/m`, mass times the base acceleration is the
      mass-independent gravity-plus-wind force. */
  lemma BaseAccelTimesMass(g: Vec, ph: PhysicsSettings, m: real, invM: real)
    requires m * invM == 1.0
    ensures m * BaseAccel(g, ph, invM).x == g.x * ph.gravity * ph.tiltSensitivity + ph.windX
    ensures m * BaseAccel(g, ph, invM).y == g.y * ph.gravity * ph.tiltSensitivity + ph.windY
  {
    var fx := g.x * ph.gravity * ph.tiltSensitivity + ph.windX;
    var fy := g.y * ph.gravity * ph.tiltSensitivity + ph.windY;
    assert m * (fx * invM) == fx * (m * invM);
    assert m * (fy * invM) == fy * (m * invM);
  }

  /** Whether the pointer acts at all: it is enabled and active and a
      tool other than `'none'` is selected. */
  predicate PointerOn(active: bool, tool: string)
  {
    active && tool != "none"
  }

  /** The pointer tool's acceleration on a particle at `pos`; `eps` is the
      distance offset the copy adds to the square root (1e-3 or 1e-4).
      For a non-negative strength and inverse mass, `'attract'` never
      pushes the particle away from the pointer, `'repel'` never pulls it
      in, and `'spin'` acts at right angles to the pointer direction. */
  function PointerAccel(mf: MathFns, active: bool, ps: PointerSettings, ptr: PointerState,
                        pos: Vec, invM: real, eps: real): (a: Vec)
    requires SqrtLaw(mf) && eps > 0.0
    ensures !PointerOn(active, ps.tool) ==> a == Zero
    ensures Norm2(pos.x - ptr.x, pos.y - ptr.y) >= ps.radius * ps.radius ==> a == Zero
    ensures ps.tool !in {"attract", "repel", "push", "spin"} ==> a == Zero
    ensures var dx, dy := pos.x - ptr.x, pos.y - ptr.y;
            ps.strength >= 0.0 && invM >= 0.0 ==>
              (ps.tool == "attract" ==> Dot(a.x, a.y, dx, dy) <= 0.0)
              && (ps.tool == "repel" ==> Dot(a.x, a.y, dx, dy) >= 0.0)
              && (ps.tool == "spin" ==> Dot(a.x, a.y, dx, dy) == 0.0)
  {
    if !PointerOn(active, ps.tool) then Zero
    else
      var dx, dy := pos.x - ptr.x, pos.y - ptr.y;
      var d2 := Norm2(dx, dy);
      var rr := ps.radius;
      if !(d2 < rr * rr) then Zero
      else
        SumOfSquaresSign(dx, dy);
        var d := mf.sqrt(d2) + eps;
        var fall := 1.0 - d / rr;
        PointerForceSign(ps.strength, fall, invM);
        ToolAccel(ps.tool, dx, dy, d, ps.strength * fall * fall * invM, fall, ptr, invM)
  }

  /** The selected tool's acceleration at offset `(dx, dy)` from the
      pointer, at offset distance `d`, with radial magnitude `f` and
      falloff `fall`. */
  function ToolAccel(tool: string, dx: real, dy: real, d: real, f: real, fall: real,
                     ptr: PointerState, invM: real): (a: Vec)
    requires d > 0.0
    ensures tool !in {"attract", "repel", "push", "spin"} ==> a == Zero
    ensures f >= 0.0 && tool == "attract" ==> Dot(a.x, a.y, dx, dy) <= 0.0
    ensures f >= 0.0 && tool == "repel" ==> Dot(a.x, a.y, dx, dy) >= 0.0
    ensures tool == "spin" ==> Dot(a.x, a.y, dx, dy) == 0.0
  {
    var nx, ny := dx / d, dy / d;
    RadialComponent(dx, dy, d, f);
    if tool == "attract" then Vec(-nx * f, -ny * f)
    else if tool == "repel" then Vec(nx * f, ny * f)
    else if tool == "push" then Vec(ptr.dx * 60.0 * fall * invM, ptr.dy * 60.0 * fall * invM)
    else if tool == "spin" then Vec(-ny * f * 0.8, nx * f * 0.8)
    else Zero
  }

  lemma PointerForceSign(strength: real, fall: real, invM: real)
    ensures strength >= 0.0 && invM >= 0.0 ==> strength * fall * fall * invM >= 0.0
  {
    if strength >= 0.0 && invM >= 0.0 {
      SquareSign(fall);
      NonNegProduct(strength, fall * fall);
      assert strength * fall * fall == strength * (fall * fall);
      NonNegProduct(strength * fall * fall, invM);
    }
  }

  lemma NonNegProduct(a: real, b: real)
    requires a >= 0.0 && b >= 0.0
    ensures a * b >= 0.0
  {
    if a > 0.0 && b > 0.0 { MulPositive(a, b); }
  }

  /** The components of `f` times the unit direction `(dx, dy)/d` along
      and across `(dx, dy)`. */
  lemma RadialComponent(dx: real, dy: real, d: real, f: real)
    requires d > 0.0
    ensures f >= 0.0 ==> (dx / d * f) * dx + (dy / d * f) * dy >= 0.0
    ensures f >= 0.0 ==> (-(dx / d) * f) * dx + (-(dy / d) * f) * dy <= 0.0
    ensures (-(dy / d) * f * 0.8) * dx + ((dx / d) * f * 0.8) * dy == 0.0
  {
    var k := f / d;
    assert f >= 0.0 ==> k >= 0.0 by {
      if f > 0.0 { assert k * d == f; if k < 0.0 { MulPositive(-k, d); } }
    }
    assert (dx / d * f) * dx + (dy / d * f) * dy == k * (dx * dx + dy * dy);
    assert (-(dx / d) * f) * dx + (-(dy / d) * f) * dy == -(k * (dx * dx + dy * dy));
    SumOfSquaresSign(dx, dy);
    if f >= 0.0 { NonNegProduct(k, dx * dx + dy * dy); }
  }

  /** `Math.max(-lim, Math.min(lim, v))`. */
  function Limit(v: real, lim: real): (r: real)
    requires lim >= 0.0
    ensures -lim <= r <= lim
    ensures -lim <= v <= lim ==> r == v
  {
    Max(-lim, Min(lim, v))
  }

  /** The heat an integration step adds: the scaled squared speed, cut to
      [0, 0.05]. */
  function HeatGain(vx: real, vy: real): (g: real)
    ensures 0.0 <= g <= HEAT_GAIN_MAX
  {
    Max(0.0, Min(HEAT_GAIN_MAX, (vx * vx + vy * vy) * 0.000001))
  }

  /** One axis of the velocity update: the acceleration (clamped to
      [-500, 500] when `clamps`) minus the drag, times the step, added to
      the velocity, which is then clamped to [-1000, 1000] when `clamps`. */
  function Velocity(v: real, acc: real, h: real, drag: real, clamps: bool): (w: real)
    ensures clamps ==> -SPEED_LIMIT <= w <= SPEED_LIMIT
    ensures !clamps ==> w == v + (acc - v * drag) * h
  {
    var a := if clamps then Limit(acc, ACCEL_LIMIT) else acc;
    var w := Euler(v, a, h, drag);
    if clamps then Limit(w, SPEED_LIMIT) else w
  }

  /** The unclamped update of one velocity component. */
  function Euler(v: real, a: real, h: real, drag: real): real
  {
    v + (a - v * drag) * h
  }

  /** One semi-implicit Euler step: velocity first, then position with the
      new velocity, then heat in the `'heat'` colour mode. */
  function Integrate(p: Particle, a: Vec, h: real, drag: real, clamps: bool,
                     heatMode: bool, heatDecay: real): (q: Particle)
    ensures q.r == p.r && q.m == p.m && q.invM == p.invM && q.color == p.color
    ensures q.x == p.x + q.vx * h && q.y == p.y + q.vy * h
    ensures clamps ==> -SPEED_LIMIT <= q.vx <= SPEED_LIMIT && -SPEED_LIMIT <= q.vy <= SPEED_LIMIT
    ensures !heatMode ==> q.heat == p.heat
    ensures heatMode ==> p.heat * heatDecay <= q.heat <= p.heat * heatDecay + HEAT_GAIN_MAX
  {
    var vx := Velocity(p.vx, a.x, h, drag, clamps);
    var vy := Velocity(p.vy, a.y, h, drag, clamps);
    var heat := if heatMode then p.heat * heatDecay + HeatGain(vx, vy) else p.heat;
    p.(x := p.x + vx * h, y := p.y + vy * h, vx := vx, vy := vy, heat := heat)
  }

  /** Without clamps the step is the plain semi-implicit Euler update. */
  lemma IntegrateUnclamped(p: Particle, a: Vec, h: real, drag: real, heatMode: bool, heatDecay: real)
    ensures var q := Integrate(p, a, h, drag, false, heatMode, heatDecay);
            q.vx == p.vx + (a.x - p.vx * drag) * h && q.vy == p.vy + (a.y - p.vy * drag) * h
  {
  }

  /** On one axis, the clamps change nothing while the acceleration and
      the unclamped new velocity stay within their bounds. */
  lemma VelocityClampsInactive(v: real, acc: real, h: real, drag: real)
    requires -ACCEL_LIMIT <= acc <= ACCEL_LIMIT
    requires -SPEED_LIMIT <= Velocity(v, acc, h, drag, false) <= SPEED_LIMIT
    ensures Velocity(v, acc, h, drag, true) == Velocity(v, acc, h, drag, false)
  {
  }

  /** The clamps change nothing while the acceleration and the new
      velocity stay within their bounds. */
  lemma ClampsInactiveWhenSmall(p: Particle, a: Vec, h: real, drag: real, heatMode: bool, heatDecay: real)
    requires -ACCEL_LIMIT <= a.x <= ACCEL_LIMIT && -ACCEL_LIMIT <= a.y <= ACCEL_LIMIT
    requires var u := Integrate(p, a, h, drag, false, heatMode, heatDecay);
             -SPEED_LIMIT <= u.vx <= SPEED_LIMIT && -SPEED_LIMIT <= u.vy <= SPEED_LIMIT
    ensures Integrate(p, a, h, drag, true, heatMode, heatDecay)
            == Integrate(p, a, h, drag, false, heatMode, heatDecay)
  {
    assert Velocity(p.vx, a.x, h, drag, true) == Velocity(p.vx, a.x, h, drag, false) by {
      assert Integrate(p, a, h, drag, false, heatMode, heatDecay).vx == Velocity(p.vx, a.x, h, drag, false);
      VelocityClampsInactive(p.vx, a.x, h, drag);
    }
    assert Velocity(p.vy, a.y, h, drag, true) == Velocity(p.vy, a.y, h, drag, false) by {
      assert Integrate(p, a, h, drag, false, heatMode, heatDecay).vy == Velocity(p.vy, a.y, h, drag, false);
      VelocityClampsInactive(p.vy, a.y, h, drag);
    }
    IntegrateByVelocity(p, a, a, h, drag, true, false, heatMode, heatDecay);
  }

  /** Integration depends on the acceleration and on the clamping switch
      only through the two velocities they produce. */
  lemma IntegrateByVelocity(p: Particle, a: Vec, b: Vec, h: real, drag: real, c1: bool, c2: bool,
                            heatMode: bool, heatDecay: real)
    requires Velocity(p.vx, a.x, h, drag, c1) == Velocity(p.vx, b.x, h, drag, c2)
    requires Velocity(p.vy, a.y, h, drag, c1) == Velocity(p.vy, b.y, h, drag, c2)
    ensures Integrate(p, a, h, drag, c1, heatMode, heatDecay)
            == Integrate(p, b, h, drag, c2, heatMode, heatDecay)
  {
  }

  /** With the clamps, any acceleration acts as its clamped value. */
  lemma VelocityUsesLimit(v: real, acc: real, h: real, drag: real)
    ensures Velocity(v, acc, h, drag, true) == Velocity(v, Limit(acc, ACCEL_LIMIT), h, drag, true)
  {
    var a := Limit(acc, ACCEL_LIMIT);
    LimitTwice(acc, ACCEL_LIMIT);
    ClampedVelocity(v, acc, h, drag, a);
    ClampedVelocity(v, a, h, drag, a);
  }

  /** The clamped update, written with the clamped acceleration `a`. */
  lemma ClampedVelocity(v: real, acc: real, h: real, drag: real, a: real)
    requires a == Limit(acc, ACCEL_LIMIT)
    ensures Velocity(v, acc, h, drag, true) == Limit(Euler(v, a, h, drag), SPEED_LIMIT)
  {
  }

  /** Cutting a value a second time changes nothing. */
  lemma LimitTwice(x: real, lim: real)
    requires lim >= 0.0
    ensures Limit(Limit(x, lim), lim) == Limit(x, lim)
  {
  }

  /** With the clamps, a step is the step taken with the acceleration cut
      to [-500, 500] on each axis, whatever the acceleration was. */
  lemma IntegrateUsesLimit(p: Particle, a: Vec, h: real, drag: real, heatMode: bool, heatDecay: real)
    ensures Integrate(p, a, h, drag, true, heatMode, heatDecay)
            == Integrate(p, Vec(Limit(a.x, ACCEL_LIMIT), Limit(a.y, ACCEL_LIMIT)), h, drag, true, heatMode, heatDecay)
  {
    VelocityUsesLimit(p.vx, a.x, h, drag);
    VelocityUsesLimit(p.vy, a.y, h, drag);
    IntegrateByVelocity(p, a, Vec(Limit(a.x, ACCEL_LIMIT), Limit(a.y, ACCEL_LIMIT)), h, drag, true, true,
                        heatMode, heatDecay);
  }

  /** Hence any acceleration beyond 500 on both axes acts as exactly 500. */
  lemma ClampedAccelSaturates(p: Particle, a: Vec, h: real, drag: real, heatMode: bool, heatDecay: real)
    requires a.x >= ACCEL_LIMIT && a.y >= ACCEL_LIMIT
    ensures Integrate(p, a, h, drag, true, heatMode, heatDecay)
            == Integrate(p, Vec(ACCEL_LIMIT, ACCEL_LIMIT), h, drag, true, heatMode, heatDecay)
  {
    IntegrateUsesLimit(p, a, h, drag, heatMode, heatDecay);
    IntegrateUsesLimit(p, Vec(ACCEL_LIMIT, ACCEL_LIMIT), h, drag, heatMode, heatDecay);
  }

  /** With no acceleration and no clamps, each velocity component is
      scaled by `1 - drag*h`. */
  lemma DragOnly(p: Particle, h: real, drag: real, heatMode: bool, heatDecay: real)
    ensures var q := Integrate(p, Zero, h, drag, false, heatMode, heatDecay);
            q.vx == p.vx * (1.0 - drag * h) && q.vy == p.vy * (1.0 - drag * h)
  {
    assert p.vx + (0.0 - p.vx * drag) * h == p.vx * (1.0 - drag * h);
    assert p.vy + (0.0 - p.vy * drag) * h == p.vy * (1.0 - drag * h);
  }

  /** The turbulence contribution in the copies that scale a per-unit-mass
      field by the inverse mass: nothing for mode `'none'` or an unknown
      mode. */
  function ScaledTurbulence(tm: string, field: TurbField, wells: seq<Well>, pos: Vec, invM: real): (a: Vec)
    ensures tm !in TURBULENCE_MODES ==> a == Zero
    ensures invM == 0.0 ==> a == Zero
  {
    if tm in TURBULENCE_MODES then Scale(field(wells, pos), invM) else Zero
  }

  /** The turbulence modes that contribute a force. */
  const TURBULENCE_MODES: set<string> := {"flow", "curl", "vortex", "wind", "jets", "swirlgrid", "wells"}
}
