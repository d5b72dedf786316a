/** `handleBoundaries` on the flat buffer: every particle goes through the
    configured wall policy, the mode string taken as stored (not mapped)
    and the container restitution fixed at 0. */
module FlatBoundaries {
  import opened JsNumber
  import opened Types
  import opened PhysicsUtils
  import opened BufferPass
  import opened WallKernel

  /** The wall parameters of this pass. */
  function PassWalls(settings: Settings, bw: real, bh: real): (w: Walls)
    ensures w.mode == settings.physics.boundaries && w.containerRest == 0.0
    ensures w.rest == settings.physics.restitution && w.wf == settings.physics.wallFriction
  {
    Walls(settings.physics.boundaries, bw, bh, settings.physics.restitution, 0.0,
          settings.physics.wallFriction, settings.physics.container, 0.0001)
  }

  method HandleBoundaries(mf: MathFns, particles: array<real>, numParticles: int,
                          settings: Settings, bw: real, bh: real)
    requires SqrtLaw(mf)
    requires 0 <= numParticles && numParticles * 8 <= particles.Length
    modifies particles
    ensures particles[..] == MapMotion(p => Boundary(mf, PassWalls(settings, bw, bh), p),
                                       old(particles[..]), numParticles)
  {
    var w := PassWalls(settings, bw, bh);
    ApplyMotion(particles, numParticles, p => Boundary(mf, w, p));
  }
}
