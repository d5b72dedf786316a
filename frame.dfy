/** One animation frame of the main thread, with the performance rules it
    calls first: the frame time from the clock (at most 1/20 s, times the
    simulation speed), the smoothed FPS and the window of the last 30
    samples, the adaptive rule that switches collisions by the window's
    average, and then, while running or single-stepping, the spatial hash
    built once and the substeps, each the unclamped physics step, the
    collision pass when collisions are on, and the boundaries.  Rendering
    and the HUD are not modelled. */
module Frame {
  import opened JsNumber
  import opened Types
  import opened Utils
  import opened WallKernel
  import opened FlatForces
  import opened SimState
  import opened RecordGrid
  import opened RecordCollisions
  import opened RecordLaws
  import opened RecordSteps
  import opened MainLoopPhysics

  // ---------------------------------------------------------------------
  // Performance metrics and the adaptive rule
  // ---------------------------------------------------------------------

  /** The window's capacity. */
  const WINDOW: int := 30

  /** `1 / Math.max(1e-6, dtRaw)`: the rate of this frame, positive and at
      most a million frames a second whatever the frame time. */
  function InstantFps(dtRaw: real): (fps: real)
    ensures 0.0 < fps <= 1000000.0
  {
    InverseBelow(Max(0.000001, dtRaw), 0.000001);
    1.0 / Max(0.000001, dtRaw)
  }

  /** The samples after `push(fps)` and, beyond 30, one `shift()`. */
  function Window(s: seq<real>, fps: real): seq<real>
  {
    var t := s + [fps];
    if |t| > WINDOW then t[1..] else t
  }

  /** From a window of at most 30 samples the new window holds at most 30,
      ends with the new sample, and is the newest `min(|s|+1, 30)` samples
      of the old window followed by the new one. */
  lemma WindowKeepsNewest(s: seq<real>, fps: real)
    requires |s| <= WINDOW
    ensures var t := Window(s, fps);
            |t| == (if |s| < WINDOW then |s| + 1 else WINDOW)
            && t[|t| - 1] == fps
            && t == (s + [fps])[|s| + 1 - |t|..]
  {
  }

  /** `updatePerformanceMetrics(dtRaw)`: the smoothed rate moves a tenth of
      the way to this frame's rate, and the sample joins the window. */
  method UpdatePerformanceMetrics(w: World, dtRaw: real)
    modifies w`fpsSmooth, w`recentFps
    ensures w.fpsSmooth == old(w.fpsSmooth) * 0.9 + InstantFps(dtRaw) * 0.1
    ensures w.recentFps == Window(old(w.recentFps), InstantFps(dtRaw))
  {
    var fps := 1.0 / Max(0.000001, dtRaw);
    w.fpsSmooth := w.fpsSmooth * 0.9 + fps * 0.1;
    w.recentFps := w.recentFps + [fps];
    if |w.recentFps| > 30 {
      w.recentFps := w.recentFps[1..];
    }
  }

  /** The smoothed rate stays between its old value and the new sample. */
  lemma SmoothBetween(old_: real, fps: real)
    ensures Min(old_, fps) <= old_ * 0.9 + fps * 0.1 <= Max(old_, fps)
  {
    LerpBetween(old_, fps, 0.1);
    assert old_ * 0.9 + fps * 0.1 == Lerp(old_, fps, 0.1);
  }

  /** `recentFps.reduce((a, b) => a + b, 0)`: the sum from the left. */
  function Sum(s: seq<real>): real
  {
    if s == [] then 0.0 else Sum(s[..|s| - 1]) + s[|s| - 1]
  }

  /** The average the adaptive rule compares: the sum over
      `Math.max(1, length)`. */
  function Avg(s: seq<real>): real
  {
    Div(Sum(s), Max(1.0, |s| as real))
  }

  /** A sum of samples each at least `lo` and at most `hi`. */
  lemma {:induction false} SumBounds(s: seq<real>, lo: real, hi: real)
    requires forall k :: 0 <= k < |s| ==> lo <= s[k] <= hi
    ensures |s| as real * lo <= Sum(s) <= |s| as real * hi
  {
    if s != [] {
      SumBounds(s[..|s| - 1], lo, hi);
      assert (|s| - 1) as real * lo + lo == |s| as real * lo;
      assert (|s| - 1) as real * hi + hi == |s| as real * hi;
    }
  }

  /** The average of a non-empty window lies between the smallest and the
      largest bound of its samples; the empty window averages to 0. */
  lemma AvgBounds(s: seq<real>, lo: real, hi: real)
    requires forall k :: 0 <= k < |s| ==> lo <= s[k] <= hi
    ensures s == [] ==> Avg(s) == 0.0
    ensures s != [] ==> lo <= Avg(s) <= hi
  {
    if s != [] {
      var n := |s| as real;
      SumBounds(s, lo, hi);
      assert Avg(s) == Sum(s) / n;
      DivideBounds(Sum(s), n, lo, hi);
    }
  }

  lemma DivideBounds(x: real, n: real, lo: real, hi: real)
    requires n >= 1.0 && n * lo <= x <= n * hi
    ensures lo <= x / n <= hi
  {
  }

  /** The settings after `applyAdaptiveSettings()` at frame `frameCount`
      with window s: in adaptive mode on every 30th frame collisions are
      enabled exactly when the average reaches the low-FPS threshold;
      otherwise nothing changes. */
  function Adapted(settings: Settings, frameCount: int, s: seq<real>): Settings
  {
    if settings.performance.adaptive && frameCount % 30 == 0 then
      settings.(collisions := settings.collisions.(enable := Avg(s) >= settings.performance.lowFpsThreshold))
    else settings
  }

  /** The rule touches nothing but the collision switch, and acts only in
      adaptive mode on frames divisible by 30. */
  lemma AdaptedOnlySwitch(settings: Settings, frameCount: int, s: seq<real>)
    ensures var a := Adapted(settings, frameCount, s);
            a == settings.(collisions := settings.collisions.(enable := a.collisions.enable))
    ensures !settings.performance.adaptive || frameCount % 30 != 0 ==>
              Adapted(settings, frameCount, s) == settings
  {
  }

  /** When the rule acts on a window whose samples lie in [lo, hi]: if even
      the lowest bound reaches the threshold collisions end up on, if even
      the highest is below it they end up off, and an empty window counts
      as 0 frames a second. */
  lemma AdaptedByWindow(settings: Settings, frameCount: int, s: seq<real>, lo: real, hi: real)
    requires settings.performance.adaptive && frameCount % 30 == 0
    requires forall k :: 0 <= k < |s| ==> lo <= s[k] <= hi
    ensures var on, thr := Adapted(settings, frameCount, s).collisions.enable, settings.performance.lowFpsThreshold;
            (s != [] && lo >= thr ==> on)
            && (s != [] && hi < thr ==> !on)
            && (s == [] ==> on == (0.0 >= thr))
  {
    AvgBounds(s, lo, hi);
  }

  /** `applyAdaptiveSettings()`. */
  method ApplyAdaptiveSettings(w: World)
    modifies w`settings
    ensures w.settings == Adapted(old(w.settings), w.frameCount, w.recentFps)
  {
    if w.settings.performance.adaptive && w.frameCount % 30 == 0 {
      var avg := Div(Sum(w.recentFps), Max(1.0, |w.recentFps| as real));
      w.settings := w.settings.(collisions := w.settings.collisions.(
        enable := avg >= w.settings.performance.lowFpsThreshold));
    }
  }

  // ---------------------------------------------------------------------
  // The frame
  // ---------------------------------------------------------------------

  /** `Math.min(1/20, (t - lastT)/1000) * simSpeed`: the frame time in
      seconds, for a clock in milliseconds. */
  function DtRaw(t: real, lastT: real, simSpeed: real): real
  {
    Min(1.0 / 20.0, (t - lastT) / 1000.0) * simSpeed
  }

  /** The frame time never exceeds `simSpeed/20` for a non-negative speed,
      and is not negative when the clock has not gone back. */
  lemma DtRawBounds(t: real, lastT: real, simSpeed: real)
    requires simSpeed >= 0.0
    ensures DtRaw(t, lastT, simSpeed) <= simSpeed / 20.0
    ensures t >= lastT ==> DtRaw(t, lastT, simSpeed) >= 0.0
  {
    var m := Min(1.0 / 20.0, (t - lastT) / 1000.0);
    assert DtRaw(t, lastT, simSpeed) == m * simSpeed;
    assert simSpeed / 20.0 == (1.0 / 20.0) * simSpeed;
    if simSpeed > 0.0 {
      assert (1.0 / 20.0 - m) * simSpeed >= 0.0 by {
        NonNegTimes(1.0 / 20.0 - m, simSpeed);
      }
      if t >= lastT {
        NonNegTimes(m, simSpeed);
      }
    }
  }

  /** `substeps | 0`, raised to 1 when below 1. */
  function SubCount(substeps: real): (n: int)
    ensures n >= 1
    ensures 1.0 <= substeps < TWO31 as real ==> n == Trunc(substeps)
  {
    var s := ToInt32(substeps);
    if s < 1 then 1 else s
  }

  /** The substeps' times `dt / sub` together make up exactly `dt`. */
  lemma SubstepsCover(dt: real, substeps: real)
    ensures (dt / SubCount(substeps) as real) * SubCount(substeps) as real == dt
  {
  }

  /** What every substep of a frame reads: the settings after the adaptive
      rule, the pointer, the turbulence field and wells at the frame's time
      (the time is the same for every substep), the gravity source, the
      substep time, the walls and the grid's neighbour lists. */
  datatype FrameEnv = FrameEnv(settings: Settings, pointer: PointerState, field: TurbField,
                               wells: Option<seq<Well>>, data: StepData, h: real, walls: Walls,
                               nl: NeighborFn)

  /** The environment the state gives a frame. */
  function EnvOf(w: World, field: TurbField, wellsAt: real -> seq<Well>, time: real, h: real): FrameEnv
    reads w`settings, w`pointer, w`mouseGravity, w`gDir, w`heatDecay, w`canvasWidth, w`canvasHeight
    reads w`dpr, w.grid, w`gridCell
  {
    FrameEnv(w.settings, w.pointer, field, WellsFor(w.settings.forces.turbulenceMode, wellsAt, time),
             DataOf(w), h, MainWalls(w), GridNeighbors(w.grid.buckets, w.gridCell))
  }

  /** One substep on records s with draw counter k: every record advanced,
      then the collision pass when collisions are on, then every record
      through the walls. */
  function Substep(mf: MathFns, draw: nat -> real, e: FrameEnv, s: seq<Particle>, k: nat): (r: (seq<Particle>, nat))
    requires SqrtLaw(mf)
    ensures |r.0| == |s|
  {
    var a := MapAll(AdvanceFn(mf, e.settings, e.pointer, e.field, e.wells, e.data, e.h), s);
    var b := if CollisionsOn(e.settings.collisions.enable, e.settings.collisions.mode)
             then Collide(MainPass(e.settings), mf, draw, e.nl, a, |a|, k)
             else (a, k);
    (MapAll(Bounded(mf, e.walls), b.0), b.1)
  }

  /** n substeps in a row. */
  function Substeps(mf: MathFns, draw: nat -> real, e: FrameEnv, n: nat, s: seq<Particle>, k: nat): (r: (seq<Particle>, nat))
    requires SqrtLaw(mf)
    ensures |r.0| == |s|
  {
    if n == 0 then (s, k)
    else
      var prev := Substeps(mf, draw, e, n - 1, s, k);
      Substep(mf, draw, e, prev.0, prev.1)
  }

  /** A substep keeps every radius, mass, inverse mass and colour. */
  lemma SubstepKeepsBodies(mf: MathFns, draw: nat -> real, e: FrameEnv, s: seq<Particle>, k: nat)
    requires SqrtLaw(mf)
    ensures SameBodies(s, Substep(mf, draw, e, s, k).0)
  {
    var a := MapAll(AdvanceFn(mf, e.settings, e.pointer, e.field, e.wells, e.data, e.h), s);
    forall m | 0 <= m < |s|
      ensures a[m].r == s[m].r && a[m].m == s[m].m && a[m].invM == s[m].invM && a[m].color == s[m].color
    {
      AdvanceIsEuler(mf, e.settings, e.pointer, e.field, e.wells, e.data, e.h, s, m);
    }
    assert SameBodies(s, a);
    var b := if CollisionsOn(e.settings.collisions.enable, e.settings.collisions.mode)
             then Collide(MainPass(e.settings), mf, draw, e.nl, a, |a|, k)
             else (a, k);
    if CollisionsOn(e.settings.collisions.enable, e.settings.collisions.mode) {
      MainCollisionsKeep(e.settings, mf, draw, e.nl, a, k);
    }
    assert SameBodies(a, b.0);
    var c := MapAll(Bounded(mf, e.walls), b.0);
    forall m | 0 <= m < |b.0|
      ensures c[m].r == b.0[m].r && c[m].m == b.0[m].m && c[m].invM == b.0[m].invM && c[m].color == b.0[m].color
    {
      BoundedMovesOnly(mf, e.walls, b.0, m);
    }
    SameBodiesTrans(s, a, b.0);
    SameBodiesTrans(s, b.0, c);
  }

  /** However many substeps a frame takes, the particle array keeps its
      length and every particle its radius, mass, inverse mass and
      colour. */
  lemma {:induction false} SubstepsKeepBodies(mf: MathFns, draw: nat -> real, e: FrameEnv, n: nat,
                                              s: seq<Particle>, k: nat)
    requires SqrtLaw(mf)
    ensures SameBodies(s, Substeps(mf, draw, e, n, s, k).0)
  {
    if n > 0 {
      SubstepsKeepBodies(mf, draw, e, n - 1, s, k);
      var prev := Substeps(mf, draw, e, n - 1, s, k);
      var next := Substep(mf, draw, e, prev.0, prev.1);
      assert Substeps(mf, draw, e, n, s, k) == next;
      SubstepKeepsBodies(mf, draw, e, prev.0, prev.1);
      SameBodiesTrans(s, prev.0, next.0);
    }
  }

  /** With collisions off no substep draws a random number, and the frame
      is the advance-then-walls map applied n times. */
  lemma {:induction false} NoCollisionsNoDraws(mf: MathFns, draw: nat -> real, e: FrameEnv, n: nat,
                                               s: seq<Particle>, k: nat)
    requires SqrtLaw(mf) && !CollisionsOn(e.settings.collisions.enable, e.settings.collisions.mode)
    ensures Substeps(mf, draw, e, n, s, k).1 == k
  {
    if n > 0 {
      NoCollisionsNoDraws(mf, draw, e, n - 1, s, k);
    }
  }

  /** The substep loop of `frame`, for `sub` substeps. */
  method RunSubsteps(w: World, rng: RandomSource, mf: MathFns, field: TurbField,
                     wellsAt: real -> seq<Well>, time: real, h: real, sub: int)
    requires SqrtLaw(mf) && UnitStream(rng.draw) && w.Valid()
    modifies w`particles, rng
    ensures (w.particles, rng.next)
            == Substeps(mf, rng.draw, EnvOf(w, field, wellsAt, time, h), if sub < 0 then 0 else sub,
                        old(w.particles), old(rng.next))
  {
    ghost var e := EnvOf(w, field, wellsAt, time, h);
    ghost var s0, k0 := w.particles, rng.next;
    GridNeighborsAgree(w.grid.buckets, w.gridCell);
    var s := 0;
    while s < sub
      invariant 0 <= s && (s <= sub || s == 0)
      invariant EnvOf(w, field, wellsAt, time, h) == e && w.Valid()
      invariant (w.particles, rng.next) == Substeps(mf, rng.draw, e, s, s0, k0)
    {
      ghost var p, k := w.particles, rng.next;
      MainLoopPhysics.SimulatePhysicsStep(w, mf, field, wellsAt, time, h);
      ghost var a := w.particles;
      if CollisionsOn(w.settings.collisions.enable, w.settings.collisions.mode) {
        MainLoopPhysics.HandleCollisions(w, rng, mf, GridNeighbors(w.grid.buckets, w.gridCell));
      }
      MainLoopPhysics.HandleBoundaries(w, mf);
      assert (w.particles, rng.next) == Substep(mf, rng.draw, e, p, k);
      s := s + 1;
    }
  }

  /** The part of `frame(t)` that moves the particles: nothing unless
      running or single-stepping; then the grid, built once from the
      positions at the start of the frame when collisions are on, and
      `max(1, substeps | 0)` substeps of `dt / sub` each, all at time
      `t / 1000`. */
  method AdvanceFrame(w: World, rng: RandomSource, mf: MathFns, t: real, field: TurbField,
                      wellsAt: real -> seq<Well>, dt: real)
    requires SqrtLaw(mf) && UnitStream(rng.draw) && w.Valid()
    modifies w`particles, w.grid, rng
    ensures (w.running || w.stepOnce) && CollisionsOn(w.settings.collisions.enable, w.settings.collisions.mode) ==>
              w.grid.buckets == GridFor(old(w.particles), w.gridCell)
    ensures w.running || w.stepOnce ==>
              var sub := SubCount(w.substeps);
              (w.particles, rng.next)
              == Substeps(mf, rng.draw, EnvOf(w, field, wellsAt, t / 1000.0, dt / sub as real), sub,
                          old(w.particles), old(rng.next))
    ensures !(w.running || w.stepOnce) ==> w.particles == old(w.particles) && rng.next == old(rng.next)
  {
    if w.running || w.stepOnce {
      var sub := ToInt32(w.substeps);
      if sub < 1 {
        sub := 1;
      }
      var h := dt / sub as real;
      if CollisionsOn(w.settings.collisions.enable, w.settings.collisions.mode) {
        BuildGrid(w);
      }
      RunSubsteps(w, rng, mf, field, wellsAt, t / 1000.0, h, sub);
    }
  }

  /** The start of `frame(t)`: the frame time from the clock, the clock
      set to t, the metrics updated and the adaptive rule applied. */
  method BeginFrame(w: World, t: real) returns (dtRaw: real)
    modifies w`lastT, w`fpsSmooth, w`recentFps, w`settings
    ensures dtRaw == DtRaw(t, old(w.lastT), old(w.settings.performance.simSpeed)) && w.lastT == t
    ensures w.fpsSmooth == old(w.fpsSmooth) * 0.9 + InstantFps(dtRaw) * 0.1
    ensures w.recentFps == Window(old(w.recentFps), InstantFps(dtRaw))
    ensures w.settings == Adapted(old(w.settings), w.frameCount, w.recentFps)
  {
    dtRaw := Min(1.0 / 20.0, (t - w.lastT) / 1000.0) * w.settings.performance.simSpeed;
    w.lastT := t;
    UpdatePerformanceMetrics(w, dtRaw);
    ApplyAdaptiveSettings(w);
  }

  /** Single-stepping ends and the frame counter advances. */
  method EndFrame(w: World)
    modifies w`stepOnce, w`frameCount
    ensures !w.stepOnce && w.frameCount == old(w.frameCount) + 1
  {
    w.stepOnce := false;
    w.frameCount := w.frameCount + 1;
  }

  /** `frame(t)`: the frame time, the clock, the metrics and the adaptive
      rule; then the physics of the frame; finally single-stepping ends and
      the frame counter advances. */
  method Frame(w: World, rng: RandomSource, mf: MathFns, t: real, field: TurbField,
               wellsAt: real -> seq<Well>)
    requires SqrtLaw(mf) && UnitStream(rng.draw) && w.Valid()
    modifies w`lastT, w`fpsSmooth, w`recentFps, w`settings, w`particles, w`stepOnce, w`frameCount
    modifies w.grid, rng
    ensures w.Valid()
    ensures w.lastT == t && !w.stepOnce && w.frameCount == old(w.frameCount) + 1
    ensures var fps := InstantFps(DtRaw(t, old(w.lastT), old(w.settings.performance.simSpeed)));
            w.fpsSmooth == old(w.fpsSmooth) * 0.9 + fps * 0.1
            && w.recentFps == Window(old(w.recentFps), fps)
            && w.settings == Adapted(old(w.settings), old(w.frameCount), w.recentFps)
    ensures old(w.running || w.stepOnce) && CollisionsOn(w.settings.collisions.enable, w.settings.collisions.mode) ==>
              w.grid.buckets == GridFor(old(w.particles), w.gridCell)
    ensures old(w.running || w.stepOnce) ==>
              var dt := DtRaw(t, old(w.lastT), old(w.settings.performance.simSpeed));
              var sub := SubCount(w.substeps);
              (w.particles, rng.next)
              == Substeps(mf, rng.draw, EnvOf(w, field, wellsAt, t / 1000.0, dt / sub as real), sub,
                          old(w.particles), old(rng.next))
    ensures !old(w.running || w.stepOnce) ==> w.particles == old(w.particles) && rng.next == old(rng.next)
    ensures w.running == old(w.running) && w.substeps == old(w.substeps) && w.gridCell == old(w.gridCell)
    ensures w.gDir == old(w.gDir) && w.mouseGravity == old(w.mouseGravity) && w.heatDecay == old(w.heatDecay)
    ensures w.pointer == old(w.pointer) && w.canvasWidth == old(w.canvasWidth)
            && w.canvasHeight == old(w.canvasHeight) && w.dpr == old(w.dpr)
  {
    var dtRaw := BeginFrame(w, t);
    AdvanceFrame(w, rng, mf, t, field, wellsAt, dtRaw);
    EndFrame(w);
  }
}
