/** What the two main-thread copies of the physics step share over the
    particle records: the walls both `handleBoundaries` build (the mapped
    mode, and the restitution for the screen walls and the containers
    alike), the boundary policy as a function on one record, and what a
    boundary pass promises for every record of the array. */
module RecordSteps {
  import opened JsNumber
  import opened Types
  import opened Utils
  import opened WallKernel
  import opened SimState

  /** The walls of a main-thread `handleBoundaries`: the mode after
      `mapBoundaries`, `containerRest = rest`, and the copy's `|| eps`
      fallback for the distance to the circle's centre. */
  function RecordWalls(settings: Settings, bw: real, bh: real, circleEps: real): (w: Walls)
    ensures w.containerRest == w.rest == settings.physics.restitution
    ensures w.mode == MapBoundaries(settings.physics.boundaries)
    ensures w.bw == bw && w.bh == bh && w.wf == settings.physics.wallFriction
    ensures w.container == settings.physics.container && w.circleEps == circleEps
  {
    Walls(MapBoundaries(settings.physics.boundaries), bw, bh, settings.physics.restitution,
          settings.physics.restitution, settings.physics.wallFriction,
          settings.physics.container, circleEps)
  }

  /** The boundary policy of walls `w` as a function on one record. */
  function Bounded(mf: MathFns, w: Walls): Particle --> Particle
  {
    p requires SqrtLaw(mf) => Boundary(mf, w, p)
  }

  /** A boundary pass over records s: the array keeps its length and every
      record only moves, keeping its radius, mass, inverse mass, heat and
      colour. */
  lemma BoundedMovesOnly(mf: MathFns, w: Walls, s: seq<Particle>, k: int)
    requires SqrtLaw(mf) && 0 <= k < |s|
    ensures |MapAll(Bounded(mf, w), s)| == |s|
    ensures MovedOnly(s[k], MapAll(Bounded(mf, w), s)[k])
  {
    assert MapAll(Bounded(mf, w), s)[k] == Boundary(mf, w, s[k]);
  }

  /** With mode `'bounce'` or `'screen-bounce'`, every record whose
      diameter fits the canvas ends with its centre at least its radius
      away from every edge. */
  lemma BounceContains(mf: MathFns, w: Walls, s: seq<Particle>, k: int)
    requires SqrtLaw(mf) && 0 <= k < |s| && w.mode == "screen-bounce"
    ensures var q := MapAll(Bounded(mf, w), s)[k];
            (2.0 * s[k].r <= w.bw ==> s[k].r <= q.x <= w.bw - s[k].r)
            && (2.0 * s[k].r <= w.bh ==> s[k].r <= q.y <= w.bh - s[k].r)
  {
    assert MapAll(Bounded(mf, w), s)[k] == Boundary(mf, w, s[k]);
  }

  /** With mode `'container-square'` and the restitution as container
      restitution, a record beyond the left wall comes back onto it; if it
      was moving outward and its height is inside the square, its normal
      velocity is reflected and scaled by the restitution (not zeroed) and
      its tangential velocity scaled by `1 - wallFriction`. */
  lemma SquareReflects(mf: MathFns, settings: Settings, bw: real, bh: real, eps: real,
                       s: seq<Particle>, k: int)
    requires SqrtLaw(mf) && 0 <= k < |s| && settings.physics.boundaries == "container-square"
    ensures var w := RecordWalls(settings, bw, bh, eps);
            var q := MapAll(Bounded(mf, w), s)[k];
            s[k].x < CentreX(w) - SquareHalf(w) + s[k].r ==> q.x == CentreX(w) - SquareHalf(w) + s[k].r
    ensures var w := RecordWalls(settings, bw, bh, eps);
            var q := MapAll(Bounded(mf, w), s)[k];
            s[k].x < CentreX(w) - SquareHalf(w) + s[k].r && s[k].vx < 0.0
            && CentreY(w) - SquareHalf(w) + s[k].r <= s[k].y <= CentreY(w) + SquareHalf(w) - s[k].r ==>
              q.vx == -s[k].vx * settings.physics.restitution
              && q.vy == s[k].vy * (1.0 - settings.physics.wallFriction)
  {
    var w := RecordWalls(settings, bw, bh, eps);
    assert ModeOf(w.mode) == SquareMode;
    assert MapAll(Bounded(mf, w), s)[k] == Boundary(mf, w, s[k]);
    if s[k].x < CentreX(w) - SquareHalf(w) + s[k].r {
      SquareLeftWall(s[k], CentreX(w), CentreY(w), SquareHalf(w), w.containerRest, w.wf);
    }
  }

}
