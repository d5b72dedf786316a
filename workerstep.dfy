/** The physics worker's `update` step: the message's particles are copied
    into a flat buffer, the largest radius is found, the substep count and
    step size are fixed, the wells are taken from the cache or computed,
    the grid is built when collisions are on, and then every substep
    advances each particle (forces, the unclamped integration, the walls)
    and runs the collision pass.  The buffer is read back into particles
    without colour.  The worker keeps two pieces of state between
    messages: the cached wells and the grid. */
module WorkerStep {
  import opened JsNumber
  import opened Types
  import opened Utils
  import opened PhysicsUtils
  import opened SpatialHash
  import opened FlatGrid
  import opened ForceKernel
  import opened WallKernel
  import opened BufferPass
  import opened FlatForces
  import opened FlatCollisions
  import opened CollisionLaws
  import opened PassSettings
  import opened Wells

  /** An `update` message: the particles and everything else the step
      reads, with the gravity source and heat decay gathered in `data`. */
  datatype Message = Message(particles: seq<Particle>, settings: Settings, time: real,
                             pointer: PointerState, bw: real, bh: real, substeps: real,
                             dt: real, collisionsEnable: bool, data: StepData)

  /** `substeps | 0`, raised to 1 when below. */
  function SubstepCount(substeps: real): (sub: int)
    ensures sub >= 1
    ensures 1.0 <= substeps < TWO31 as real ==> sub == Trunc(substeps)
    ensures -1.0 < substeps < 2.0 ==> sub == 1
  {
    var k := ToInt32(substeps);
    if k < 1 then 1 else k
  }

  /** The worker's walls: the mapped boundary mode, the restitution used
      for the screen walls and for both containers, and the `|| 1e-6`
      fallback for the distance to a circle's centre. */
  function WorkerWalls(settings: Settings, bw: real, bh: real): Walls
  {
    Walls(MapBoundaries(settings.physics.boundaries), bw, bh, settings.physics.restitution,
          settings.physics.restitution, settings.physics.wallFriction,
          settings.physics.container, 0.000001)
  }

  /** One particle through one substep: the inline forces, the unclamped
      integration with heat in `'heat'` colour mode, then the walls. */
  function Advance(mf: MathFns, msg: Message, field: TurbField, wells: Option<seq<Well>>,
                   h: real, p: Particle): (q: Particle)
    requires SqrtLaw(mf)
    ensures q.r == p.r && q.m == p.m && q.invM == p.invM && q.color == p.color
    ensures msg.settings.particles.colorMode != "heat" ==> q.heat == p.heat
  {
    var settings := msg.settings;
    var ptrActive := settings.pointer.enabled && msg.pointer.active;
    var a := InlineForces(mf, p, settings, msg.pointer, ptrActive, field, wells, msg.data);
    var stepped := Integrate(p, a, h, settings.physics.airDrag, false,
                             settings.particles.colorMode == "heat", msg.data.heatDecay);
    Boundary(mf, WorkerWalls(settings, msg.bw, msg.bh), stepped)
  }

  /** `Advance` as the function a motion pass applies. */
  function AdvanceFn(mf: MathFns, msg: Message, field: TurbField, wells: Option<seq<Well>>,
                     h: real): (f: Particle -> Particle)
    requires SqrtLaw(mf)
    ensures msg.settings.particles.colorMode != "heat" ==> forall p :: f(p).heat == p.heat
  {
    p => Advance(mf, msg, field, wells, h, p)
  }

  /** The wells a message's step uses: none unless the turbulence mode is
      `'wells'`; the cached list when the wells stand still and a list is
      cached; otherwise the list computed for the message. */
  function WellsFor(mf: MathFns, cached: Option<seq<Well>>, msg: Message): (w: Option<seq<Well>>)
    ensures w.None? <==> msg.settings.forces.turbulenceMode != "wells"
    ensures w.Some? && (msg.settings.forces.wellsMove || cached.None?) ==>
              |w.value| == WellsCount(msg.settings.forces.wellsCount)
  {
    var f := msg.settings.forces;
    if f.turbulenceMode != "wells" then None
    else if !f.wellsMove && cached.Some? then cached
    else Some(WellsSpec(mf, msg.time, f, msg.bw, msg.bh))
  }

  /** The cache after a step that used `wells`: replaced in `'wells'` mode
      with standing wells, else kept. */
  function CacheAfter(cached: Option<seq<Well>>, msg: Message, wells: Option<seq<Well>>): Option<seq<Well>>
  {
    if msg.settings.forces.turbulenceMode == "wells" && !msg.settings.forces.wellsMove then wells
    else cached
  }

  /** One substep on the first n particles of buffer s: every particle
      advanced by f, then, when on, the collision pass. */
  function Substep(f: Particle -> Particle, pp: PassParams, mf: MathFns, on: bool,
                   nl: (seq<real>, int) -> seq<int>, s: seq<real>, n: int): (t: seq<real>)
    requires SqrtLaw(mf) && pp.eps > 0.0 && 0 <= n && n * 8 <= |s|
    ensures |t| == |s|
  {
    var u := MapMotionHeat(f, s, n);
    if on then Collide(pp, mf, nl, u, n) else u
  }

  /** `Substep` as the function the substep loop applies to the whole
      buffer (a buffer too short for n particles is left alone). */
  function SubstepFn(f: Particle -> Particle, pp: PassParams, mf: MathFns, on: bool,
                     nl: (seq<real>, int) -> seq<int>, n: int): (step: seq<real> -> seq<real>)
    requires SqrtLaw(mf) && pp.eps > 0.0 && 0 <= n
    ensures forall u :: |step(u)| == |u|
  {
    u => if n * 8 <= |u| then Substep(f, pp, mf, on, nl, u, n) else u
  }

  /** k applications of `step` in a row. */
  function Repeat(step: seq<real> -> seq<real>, s: seq<real>, k: nat): (t: seq<real>)
    requires forall u :: |step(u)| == |u|
    ensures |t| == |s|
  {
    if k == 0 then s else step(Repeat(step, s, k - 1))
  }

  /** The neighbour lists of the grid built over the first n particles
      of buffer s, with cells sized for maxRadius. */
  function BufferNeighbors(s: seq<real>, n: int, maxRadius: real): (seq<real>, int) -> seq<int>
    requires Whole(s) && 0 <= n <= Count(s)
  {
    var cell := CellSize(maxRadius);
    GridNeighbors(GridOf(KeysOf(Positions(s), cell), n), cell, maxRadius)
  }

  /** The particles a step returns for a message, given the wells it uses:
      the substeps run on the packed particles with the step size
      `dt / sub`, the worker's pass and the grid built on the positions
      the message brought. */
  function StepSpec(mf: MathFns, msg: Message, field: TurbField, wells: Option<seq<Well>>)
    : (res: seq<Particle>)
    requires SqrtLaw(mf)
    ensures |res| == |msg.particles|
  {
    PackWhole(msg.particles);
    var s0 := Pack(msg.particles);
    var n := |msg.particles|;
    var maxRadius := MaxRadius(s0, n);
    var nl := BufferNeighbors(s0, n, maxRadius);
    var sub := SubstepCount(msg.substeps);
    var f := AdvanceFn(mf, msg, field, wells, msg.dt / sub as real);
    var on := CollisionsOn(msg.collisionsEnable, msg.settings.collisions.mode);
    Unpack(Repeat(SubstepFn(f, WorkerPass(msg.settings), mf, on, nl, n), s0, sub))
  }

  /** The step's result, in terms of the values the step computes on the way. */
  lemma {:induction false} StepSpecIs(mf: MathFns, msg: Message, field: TurbField, wells: Option<seq<Well>>, s0: seq<real>,
                                           maxRadius: real, sub: int, on: bool, nl: (seq<real>, int) -> seq<int>, f: Particle -> Particle)
    requires SqrtLaw(mf)
    requires s0 == Pack(msg.particles) && Whole(s0) && Count(s0) == |msg.particles|
    requires maxRadius == MaxRadius(s0, |msg.particles|)
    requires sub == SubstepCount(msg.substeps)
    requires on == CollisionsOn(msg.collisionsEnable, msg.settings.collisions.mode)
    requires nl == BufferNeighbors(s0, |msg.particles|, maxRadius)
    requires f == AdvanceFn(mf, msg, field, wells, msg.dt / sub as real)
    ensures StepSpec(mf, msg, field, wells)
              == Unpack(Repeat(SubstepFn(f, WorkerPass(msg.settings), mf, on, nl, |msg.particles|), s0, sub))
  {
  }

  /** A motion-and-heat pass never writes a radius, mass or inverse mass. */
  lemma {:induction false} MapMotionHeatBodies(f: Particle -> Particle, s: seq<real>, n: int)
    requires 0 <= n && n * 8 <= |s|
    ensures SameBodies(s, MapMotionHeat(f, s, n))
  {
    var t := MapMotionHeat(f, s, n);
    forall k | Holds(s, k)
      ensures Rec(t, k).r == Rec(s, k).r && Rec(t, k).m == Rec(s, k).m && Rec(t, k).invM == Rec(s, k).invM
    {
      if k < n {
        MapMotionHeatRec(f, s, n, k);
      } else {
        MapMotionHeatTail(f, s, n, k);
      }
    }
  }

  /** A motion-and-heat pass whose function keeps heat keeps every heat. */
  lemma {:induction false} MapMotionHeatKeepsHeat(f: Particle -> Particle, s: seq<real>, n: int)
    requires 0 <= n && n * 8 <= |s|
    requires forall p :: f(p).heat == p.heat
    ensures SameHeat(s, MapMotionHeat(f, s, n))
  {
    var t := MapMotionHeat(f, s, n);
    forall k | Holds(s, k)
      ensures Rec(t, k).heat == Rec(s, k).heat
    {
      if k < n {
        MapMotionHeatRec(f, s, n, k);
      } else {
        MapMotionHeatTail(f, s, n, k);
      }
    }
  }

  /** The two parts of a substep. */
  lemma {:induction false} SubstepParts(f: Particle -> Particle, pp: PassParams, mf: MathFns, on: bool,
                     nl: (seq<real>, int) -> seq<int>, s: seq<real>, n: int)
    requires SqrtLaw(mf) && pp.eps > 0.0 && 0 <= n && n * 8 <= |s|
    ensures on ==> Substep(f, pp, mf, on, nl, s, n) == Collide(pp, mf, nl, MapMotionHeat(f, s, n), n)
    ensures !on ==> Substep(f, pp, mf, on, nl, s, n) == MapMotionHeat(f, s, n)
  {
  }

  /** One substep keeps every radius, mass and inverse mass. */
  lemma SubstepBodies(f: Particle -> Particle, pp: PassParams, mf: MathFns, on: bool,
                      nl: (seq<real>, int) -> seq<int>, s: seq<real>, n: int)
    requires SqrtLaw(mf) && pp.eps > 0.0 && 0 <= n && n * 8 <= |s|
    ensures SameBodies(s, Substep(f, pp, mf, on, nl, s, n))
  {
    var u := MapMotionHeat(f, s, n);
    MapMotionHeatBodies(f, s, n);
    SubstepParts(f, pp, mf, on, nl, s, n);
    if on {
      CollideKeeps(pp, mf, nl, u, n);
    }
  }

  /** Outside heat colour mode one substep keeps every heat. */
  lemma SubstepHeat(f: Particle -> Particle, pp: PassParams, mf: MathFns, on: bool,
                    nl: (seq<real>, int) -> seq<int>, s: seq<real>, n: int)
    requires SqrtLaw(mf) && pp.eps > 0.0 && 0 <= n && n * 8 <= |s|
    requires !pp.cp.heatMode && forall p :: f(p).heat == p.heat
    ensures SameHeat(s, Substep(f, pp, mf, on, nl, s, n))
  {
    var u := MapMotionHeat(f, s, n);
    MapMotionHeatKeepsHeat(f, s, n);
    SubstepParts(f, pp, mf, on, nl, s, n);
    if on {
      CollideKeepsHeat(pp, mf, nl, u, n);
    }
  }

  /** Every application of a substep keeps every radius, mass and inverse mass. */
  lemma SubstepFnBodies(f: Particle -> Particle, pp: PassParams, mf: MathFns, on: bool,
                        nl: (seq<real>, int) -> seq<int>, n: int)
    requires SqrtLaw(mf) && pp.eps > 0.0 && 0 <= n
    ensures forall u :: SameBodies(u, SubstepFn(f, pp, mf, on, nl, n)(u))
  {
    forall u
      ensures SameBodies(u, SubstepFn(f, pp, mf, on, nl, n)(u))
    {
      if n * 8 <= |u| {
        SubstepBodies(f, pp, mf, on, nl, u, n);
      }
    }
  }

  /** Outside heat colour mode every application of a substep keeps every heat. */
  lemma SubstepFnHeat(f: Particle -> Particle, pp: PassParams, mf: MathFns, on: bool,
                      nl: (seq<real>, int) -> seq<int>, n: int)
    requires SqrtLaw(mf) && pp.eps > 0.0 && 0 <= n
    requires !pp.cp.heatMode && forall p :: f(p).heat == p.heat
    ensures forall u :: SameHeat(u, SubstepFn(f, pp, mf, on, nl, n)(u))
  {
    forall u
      ensures SameHeat(u, SubstepFn(f, pp, mf, on, nl, n)(u))
    {
      if n * 8 <= |u| {
        SubstepHeat(f, pp, mf, on, nl, u, n);
      }
    }
  }

  /** One more application of the step. */
  lemma RepeatNext(step: seq<real> -> seq<real>, s: seq<real>, k: nat, t: seq<real>, u: seq<real>)
    requires forall u :: |step(u)| == |u|
    requires t == Repeat(step, s, k) && u == step(t)
    ensures u == Repeat(step, s, k + 1)
  {
  }

  /** Repeating a step that keeps every radius, mass and inverse mass keeps them. */
  lemma {:induction false} RepeatBodies(step: seq<real> -> seq<real>, s: seq<real>, k: nat)
    requires forall u :: |step(u)| == |u|
    requires forall u :: SameBodies(u, step(u))
    ensures SameBodies(s, Repeat(step, s, k))
  {
    if k > 0 {
      RepeatBodies(step, s, k - 1);
      var t := Repeat(step, s, k - 1);
      assert SameBodies(t, step(t));
    }
  }

  /** Repeating a step that keeps every heat keeps every heat. */
  lemma {:induction false} RepeatHeat(step: seq<real> -> seq<real>, s: seq<real>, k: nat)
    requires forall u :: |step(u)| == |u|
    requires forall u :: SameHeat(u, step(u))
    ensures SameHeat(s, Repeat(step, s, k))
  {
    if k > 0 {
      RepeatHeat(step, s, k - 1);
      var t := Repeat(step, s, k - 1);
      assert SameHeat(t, step(t));
    }
  }

  /** A buffer with the bodies of a packed particle list reads back as
      particles with those radii, masses and inverse masses, and no colour. */
  lemma {:induction false} UnpackBodies(ps: seq<Particle>, t: seq<real>)
    requires SameBodies(Pack(ps), t)
    ensures Whole(t) && |Unpack(t)| == |ps|
    ensures forall i :: 0 <= i < |ps| ==>
              Unpack(t)[i].color == "" && Unpack(t)[i].r == ps[i].r
              && Unpack(t)[i].m == ps[i].m && Unpack(t)[i].invM == ps[i].invM
  {
    forall i | 0 <= i < |ps|
      ensures Unpack(t)[i].color == "" && Unpack(t)[i].r == ps[i].r
              && Unpack(t)[i].m == ps[i].m && Unpack(t)[i].invM == ps[i].invM
    {
      UnpackAt(t, i);
      RecPack(ps, i);
    }
  }

  /** A buffer with the heats of a packed particle list reads back as
      particles with those heats. */
  lemma {:induction false} UnpackHeat(ps: seq<Particle>, t: seq<real>)
    requires SameHeat(Pack(ps), t)
    ensures Whole(t) && |Unpack(t)| == |ps|
    ensures forall i :: 0 <= i < |ps| ==> Unpack(t)[i].heat == ps[i].heat
  {
    forall i | 0 <= i < |ps|
      ensures Unpack(t)[i].heat == ps[i].heat
    {
      UnpackAt(t, i);
      RecPack(ps, i);
    }
  }

  /** The returned particles are the message's particles, one for one,
      with the same radius, mass and inverse mass and no colour. */
  lemma StepKeepsBodies(mf: MathFns, msg: Message, field: TurbField, wells: Option<seq<Well>>)
    requires SqrtLaw(mf)
    ensures var res := StepSpec(mf, msg, field, wells);
            forall i :: 0 <= i < |res| ==>
              res[i].color == "" && res[i].r == msg.particles[i].r
              && res[i].m == msg.particles[i].m && res[i].invM == msg.particles[i].invM
  {
    var ps := msg.particles;
    var s0 := Pack(ps);
    var n := |ps|;
    var maxRadius := MaxRadius(s0, n);
    var nl := BufferNeighbors(s0, n, maxRadius);
    var sub := SubstepCount(msg.substeps);
    var f := AdvanceFn(mf, msg, field, wells, msg.dt / sub as real);
    var on := CollisionsOn(msg.collisionsEnable, msg.settings.collisions.mode);
    var step := SubstepFn(f, WorkerPass(msg.settings), mf, on, nl, n);
    SubstepFnBodies(f, WorkerPass(msg.settings), mf, on, nl, n);
    RepeatBodies(step, s0, sub);
    UnpackBodies(ps, Repeat(step, s0, sub));
  }

  /** Outside heat colour mode a step returns every particle with the heat
      it brought. */
  lemma StepKeepsHeat(mf: MathFns, msg: Message, field: TurbField, wells: Option<seq<Well>>)
    requires SqrtLaw(mf) && msg.settings.particles.colorMode != "heat"
    ensures var res := StepSpec(mf, msg, field, wells);
            forall i :: 0 <= i < |res| ==> res[i].heat == msg.particles[i].heat
  {
    var ps := msg.particles;
    var s0 := Pack(ps);
    var n := |ps|;
    var maxRadius := MaxRadius(s0, n);
    var nl := BufferNeighbors(s0, n, maxRadius);
    var sub := SubstepCount(msg.substeps);
    var f := AdvanceFn(mf, msg, field, wells, msg.dt / sub as real);
    var on := CollisionsOn(msg.collisionsEnable, msg.settings.collisions.mode);
    var step := SubstepFn(f, WorkerPass(msg.settings), mf, on, nl, n);
    SubstepFnHeat(f, WorkerPass(msg.settings), mf, on, nl, n);
    RepeatHeat(step, s0, sub);
    UnpackHeat(ps, Repeat(step, s0, sub));
  }

  /** Once a step in `'wells'` mode with standing wells has filled the
      cache, every later such step uses the same wells, whatever its time,
      canvas size, seed or count. */
  lemma CachedWellsStay(mf: MathFns, cached: Option<seq<Well>>, m1: Message, m2: Message)
    requires m1.settings.forces.turbulenceMode == "wells" && !m1.settings.forces.wellsMove
    requires m2.settings.forces.turbulenceMode == "wells" && !m2.settings.forces.wellsMove
    ensures var w := WellsFor(mf, cached, m1);
            w.Some? && WellsFor(mf, CacheAfter(cached, m1, w), m2) == w
            && CacheAfter(CacheAfter(cached, m1, w), m2, w) == w
  {
  }

  /** The worker's state between messages. */
  class Worker {
    /** The standing wells computed by an earlier step, if any. */
    var cachedWells: Option<seq<Well>>
    const grid: FlatGrid

    constructor()
      ensures cachedWells == None && fresh(grid) && fresh(grid.table)
    {
      cachedWells := None;
      grid := new FlatGrid();
    }

    /** The `update` step: returns the particles `StepSpec` gives for the
        wells `WellsFor` picks, and leaves the cache as `CacheAfter` says. */
    method Step(mf: MathFns, msg: Message, field: TurbField) returns (res: seq<Particle>)
      requires SqrtLaw(mf)
      modifies this, grid, grid.table
      ensures res == StepSpec(mf, msg, field, WellsFor(mf, old(cachedWells), msg))
      ensures cachedWells == CacheAfter(old(cachedWells), msg, WellsFor(mf, old(cachedWells), msg))
    {
      var wells := SelectWells(mf, msg);
      res := Simulate(mf, msg, field, wells);
    }

    /** The step proper, once the wells are chosen: the particles copied
        into a buffer, the grid built when collisions are on, the substeps
        run, the buffer read back. */
    method Simulate(mf: MathFns, msg: Message, field: TurbField, wells: Option<seq<Well>>)
      returns (res: seq<Particle>)
      requires SqrtLaw(mf)
      modifies grid, grid.table
      ensures res == StepSpec(mf, msg, field, wells)
    {
      var particles := ParticlesToFloat32Array(msg.particles);
      var n := |msg.particles|;
      ghost var s0 := particles[..];
      PackWhole(msg.particles);
      var maxRadius := GetMaxRadius(particles);
      var sub := ToInt32(msg.substeps);
      if sub < 1 {
        sub := 1;
      }
      var h := msg.dt / sub as real;
      var on := CollisionsOn(msg.collisionsEnable, msg.settings.collisions.mode);
      PrepareGrid(particles, maxRadius, on);
      ghost var nl := BufferNeighbors(s0, n, maxRadius);
      var f := AdvanceFn(mf, msg, field, wells, h);
      RunSubsteps(particles, n, sub, f, WorkerPass(msg.settings), mf, on, maxRadius, nl);
      StepSpecIs(mf, msg, field, wells, s0, maxRadius, sub, on, nl, f);
      res := Float32ArrayToParticles(particles);
    }

    /** The wells this step uses: none outside `'wells'` mode, the cached
        ones when they stand still and were computed before, else freshly
        computed ones, which are cached when they stand still. */
    method SelectWells(mf: MathFns, msg: Message) returns (wells: Option<seq<Well>>)
      modifies this
      ensures wells == WellsFor(mf, old(cachedWells), msg)
      ensures cachedWells == CacheAfter(old(cachedWells), msg, wells)
    {
      var forces := msg.settings.forces;
      wells := None;
      if forces.turbulenceMode == "wells" {
        if !forces.wellsMove && cachedWells.Some? {
          wells := cachedWells;
        } else {
          var ws := ComputeWellsPositions(mf, msg.time, forces, msg.bw, msg.bh);
          wells := Some(ws);
          if !forces.wellsMove {
            cachedWells := wells;
          }
        }
      }
    }

    /** The grid over the buffer, built only when collisions are on. */
    method PrepareGrid(particles: array<real>, maxRadius: real, on: bool)
      requires Whole(particles[..])
      modifies grid, grid.table
      ensures on ==> grid.Valid()
      ensures on ==> AgreesWithGrid(BufferNeighbors(particles[..], Count(particles[..]), maxRadius),
                                    grid.table.buckets, grid.gridCell, maxRadius)
    {
      if on {
        grid.BuildGrid(particles, maxRadius);
        GridNeighborsAgree(grid.table.buckets, grid.gridCell, maxRadius);
      }
    }

    /** The substep loop on the buffer. */
    method RunSubsteps(particles: array<real>, n: int, sub: int, f: Particle -> Particle,
                       pp: PassParams, mf: MathFns, on: bool, maxRadius: real,
                       ghost nl: (seq<real>, int) -> seq<int>)
      requires SqrtLaw(mf) && pp.eps > 0.0 && 0 <= n && n * 8 <= particles.Length && 0 <= sub
      requires on ==> grid.Valid() && AgreesWithGrid(nl, grid.table.buckets, grid.gridCell, maxRadius)
      modifies particles
      ensures particles[..] == Repeat(SubstepFn(f, pp, mf, on, nl, n), old(particles[..]), sub)
    {
      ghost var s0 := particles[..];
      ghost var step := SubstepFn(f, pp, mf, on, nl, n);
      var k := 0;
      while k < sub
        invariant 0 <= k <= sub
        invariant particles[..] == Repeat(step, s0, k)
      {
        ghost var t := particles[..];
        SubstepInPlace(particles, n, f, pp, mf, on, maxRadius, nl);
        RepeatNext(step, s0, k, t, particles[..]);
        k := k + 1;
      }
    }

    /** One substep on the buffer: every particle advanced, then the
        collision pass when on. */
    method SubstepInPlace(particles: array<real>, n: int, f: Particle -> Particle,
                          pp: PassParams, mf: MathFns, on: bool, maxRadius: real,
                          ghost nl: (seq<real>, int) -> seq<int>)
      requires SqrtLaw(mf) && pp.eps > 0.0 && 0 <= n && n * 8 <= particles.Length
      requires on ==> grid.Valid() && AgreesWithGrid(nl, grid.table.buckets, grid.gridCell, maxRadius)
      modifies particles
      ensures particles[..] == SubstepFn(f, pp, mf, on, nl, n)(old(particles[..]))
    {
      ghost var t := particles[..];
      SubstepParts(f, pp, mf, on, nl, t, n);
      ApplyMotionHeat(particles, n, f);
      if on {
        HandleCollisions(grid, particles, n, maxRadius, pp, mf, nl);
      }
    }
  }
}
