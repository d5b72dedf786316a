/** The collision-pass parameters each copy of the pass derives from the
    settings. */
module PassSettings {
  import opened JsNumber
  import opened Types
  import opened ContactKernel
  import opened FlatGrid
  import opened FlatCollisions
  import opened CollisionLaws

  /** The contact parameters the settings give a pass: the restitution
      scaled in `'inelastic'` mode, the heat gain only in `'heat'` colour
      mode, and the copy's impulse clamp and friction epsilon. */
  function PassContact(settings: Settings, clampImpulse: bool, tanEps: real): ContactParams
  {
    ContactParams(settings.collisions.mode,
                  Restitution(settings.physics.restitution, settings.collisions.mode,
                              settings.collisions.inelasticity),
                  settings.collisions.softness, settings.physics.particleFriction,
                  settings.particles.colorMode == "heat", clampImpulse, tanEps)
  }

  /** The collision helper module's pass: the fixed normal `(1,0)` below a
      distance of 1e-3, the impulse clamped to [-100, 100], the friction
      fallback 1e-4, and the cap `collisionCap | 0`. */
  function HelperPass(settings: Settings): PassParams
  {
    PassParams(PassContact(settings, true, 0.0001), true, 0.001,
               ToInt32(settings.performance.collisionCap))
  }

  /** The worker's pass: the `|| 1e-4` distance fallback (a zero normal for
      coincident particles), no impulse clamp, the friction fallback 1e-6,
      and the same cap. */
  function WorkerPass(settings: Settings): PassParams
  {
    PassParams(PassContact(settings, false, 0.000001), false, 0.0001,
               ToInt32(settings.performance.collisionCap))
  }

  /** `handleCollisions(particles, numParticles, maxRadius, settings, h)`
      of the collision helper module: the flat-buffer pass with the
      helper's parameters over the grid the helper grid module built. */
  method HelperCollisions(grid: FlatGrid, particles: array<real>, numParticles: int, maxRadius: real,
                          settings: Settings, mf: MathFns, ghost nl: (seq<real>, int) -> seq<int>)
    requires SqrtLaw(mf) && grid.Valid()
    requires AgreesWithGrid(nl, grid.table.buckets, grid.gridCell, maxRadius)
    requires 0 <= numParticles && numParticles * 8 <= particles.Length
    modifies particles
    ensures particles[..] == Collide(HelperPass(settings), mf, nl, old(particles[..]), numParticles)
  {
    HandleCollisions(grid, particles, numParticles, maxRadius, HelperPass(settings), mf, nl);
  }

  /** The helper's pass keeps the position sums, every radius, mass and
      inverse mass, momentum when every inverse mass is the inverse of its
      mass, and heat within [0, 1.2]. */
  lemma HelperCollisionsKeep(settings: Settings, mf: MathFns, nl: (seq<real>, int) -> seq<int>,
                             s: seq<real>, n: int)
    requires SqrtLaw(mf) && 0 <= n && n * 8 <= |s|
    ensures Keeps(HelperPass(settings), s, Collide(HelperPass(settings), mf, nl, s, n))
  {
    CollideKeeps(HelperPass(settings), mf, nl, s, n);
  }
}
