/** `handleCollisions` on the flat buffer, as the collision helper module
    and the worker's step both write it: for each particle i in order, its
    neighbour list is taken from the grid and the current positions, and
    every later neighbour j > i that overlaps i is resolved at once in the
    buffer; after `cap + 1` resolved contacts the scan of i stops.  The two
    copies differ in the degenerate normal (`(1,0)` below 1e-3, or the
    `|| 1e-4` fallback), in the impulse clamp and in the friction
    epsilon, all carried by `PassParams`. */
module FlatCollisions {
  import opened JsNumber
  import opened Types
  import opened PhysicsUtils
  import opened SpatialHash
  import opened FlatGrid
  import opened ContactKernel

  /** What a pass fixes: the contact parameters, whether the degenerate
      normal is the fixed `(1,0)` (else the `|| eps` fallback), the
      normal epsilon and the per-particle contact cap. */
  datatype PassParams = PassParams(cp: ContactParams, fixedNormal: bool, eps: real, cap: int)

  /** The contact of particles i and j in buffer s. */
  function PairContact(pp: PassParams, mf: MathFns, s: seq<real>, i: int, j: int): Contact
    requires SqrtLaw(mf) && pp.eps > 0.0 && Holds(s, i) && Holds(s, j)
  {
    ContactNormal(if pp.fixedNormal then FixedUnitX else OrZero, mf,
                  s[j * 8 + X] - s[i * 8 + X], s[j * 8 + Y] - s[i * 8 + Y], pp.eps, 0.0, 0.0)
  }

  /** The buffer after the pair (i, j) is resolved: both particles'
      position, velocity and heat slots take the resolved values. */
  function ResolvePair(pp: PassParams, mf: MathFns, s: seq<real>, i: int, j: int): (t: seq<real>)
    requires SqrtLaw(mf) && pp.eps > 0.0 && Holds(s, i) && Holds(s, j) && i != j
    ensures |t| == |s|
  {
    var r := Resolve(pp.cp, mf, Rec(s, i), Rec(s, j), PairContact(pp, mf, s, i, j));
    WithMotionHeat(WithMotionHeat(s, i, r.0), j, r.1)
  }

  /** After the pair is resolved, particles i and j hold exactly the
      resolved records and every other particle is unchanged. */
  lemma ResolvePairRec(pp: PassParams, mf: MathFns, s: seq<real>, i: int, j: int, k: int)
    requires SqrtLaw(mf) && pp.eps > 0.0 && Holds(s, i) && Holds(s, j) && i != j && Holds(s, k)
    ensures var r := Resolve(pp.cp, mf, Rec(s, i), Rec(s, j), PairContact(pp, mf, s, i, j));
            var t := ResolvePair(pp, mf, s, i, j);
            (k == i ==> Rec(t, k) == r.0) && (k == j ==> Rec(t, k) == r.1)
            && (k != i && k != j ==> Rec(t, k) == Rec(s, k))
  {
    var r := Resolve(pp.cp, mf, Rec(s, i), Rec(s, j), PairContact(pp, mf, s, i, j));
    var u := WithMotionHeat(s, i, r.0);
    WithMotionHeatRec(s, i, r.0, k);
    WithMotionHeatRec(s, i, r.0, j);
    WithMotionHeatRec(u, j, r.1, k);
  }

  /** Whether the scan of particle i resolves its neighbour j in buffer s:
      j comes later, is in the buffer, and overlaps or touches i. */
  predicate Hit(s: seq<real>, i: int, j: int)
    requires Holds(s, i)
  {
    i < j && Holds(s, j) && Overlaps(Rec(s, i), Rec(s, j))
  }

  /** The scan of particle i over the neighbours `js`, with `handled`
      contacts already resolved: the buffer afterwards and the number of
      contacts resolved.  It stops after the contact that takes the count
      past `cap`, so a scan from 0 resolves at most `max(cap, 0) + 1`
      contacts; neighbours that come no later than i change nothing. */
  function Scan(pp: PassParams, mf: MathFns, s: seq<real>, i: int, js: seq<int>, handled: int)
    : (r: (seq<real>, int))
    requires SqrtLaw(mf) && pp.eps > 0.0 && Holds(s, i)
    ensures |r.0| == |s|
    ensures handled <= r.1 <= handled + |js|
    ensures handled <= pp.cap ==> r.1 <= pp.cap + 1
    ensures handled > pp.cap ==> r.1 <= handled + 1
    ensures (forall k :: 0 <= k < |js| ==> js[k] <= i) ==> r == (s, handled)
    decreases |js|
  {
    if js == [] then (s, handled)
    else if !Hit(s, i, js[0]) then Scan(pp, mf, s, i, js[1..], handled)
    else
      var t := ResolvePair(pp, mf, s, i, js[0]);
      if handled + 1 > pp.cap then (t, handled + 1)
      else Scan(pp, mf, t, i, js[1..], handled + 1)
  }

  /** The neighbour list of particle k that the grid `g` with cell size
      `cell` gives in buffer t (empty when k is not in the buffer). */
  function GridNeighbors(g: map<int, seq<int>>, cell: real, maxRadius: real): (seq<real>, int) -> seq<int>
  {
    (t: seq<real>, k: int) => if cell > 0.0 && Holds(t, k) then NeighborList(g, t, cell, maxRadius, k) else []
  }

  /** `nl` gives, for every particle of every buffer, the neighbour list
      the grid `g` with cell size `cell` gives. */
  ghost predicate AgreesWithGrid(nl: (seq<real>, int) -> seq<int>, g: map<int, seq<int>>, cell: real,
                                 maxRadius: real)
  {
    forall t: seq<real>, k: int {:trigger NeighborList(g, t, cell, maxRadius, k)} ::
      cell > 0.0 && Holds(t, k) ==> nl(t, k) == NeighborList(g, t, cell, maxRadius, k)
  }

  /** The grid's own neighbour function agrees with the grid. */
  lemma GridNeighborsAgree(g: map<int, seq<int>>, cell: real, maxRadius: real)
    ensures AgreesWithGrid(GridNeighbors(g, cell, maxRadius), g, cell, maxRadius)
  {
  }

  /** The scan of particle k in buffer t against the neighbour list `nl`
      gives there; a buffer without particle k is left as it is. */
  function ScanFn(pp: PassParams, mf: MathFns, nl: (seq<real>, int) -> seq<int>): (scan: (seq<real>, int) -> seq<real>)
    requires SqrtLaw(mf) && pp.eps > 0.0
    ensures forall t, k :: |scan(t, k)| == |t|
  {
    ScanLengths(pp, mf, nl);
    (t: seq<real>, k: int) => if Holds(t, k) then Scan(pp, mf, t, k, nl(t, k), 0).0 else t
  }

  /** A scan keeps the buffer's length. */
  lemma ScanLengths(pp: PassParams, mf: MathFns, nl: (seq<real>, int) -> seq<int>)
    requires SqrtLaw(mf) && pp.eps > 0.0
    ensures forall t, k :: Holds(t, k) ==> |Scan(pp, mf, t, k, nl(t, k), 0).0| == |t|
  {
  }

  /** Particles 0 .. k-1 of buffer s taken in turn by `scan`. */
  function Sweep(scan: (seq<real>, int) -> seq<real>, s: seq<real>, k: nat): (t: seq<real>)
    requires forall t, k :: |scan(t, k)| == |t|
    ensures |t| == |s|
  {
    if k == 0 then s else scan(Sweep(scan, s, k - 1), k - 1)
  }

  /** The buffer after particles 0 .. k-1 have been scanned, each against
      the neighbour list `nl` gives in the buffer as it then is. */
  function Collide(pp: PassParams, mf: MathFns, nl: (seq<real>, int) -> seq<int>,
                   s: seq<real>, k: int): (t: seq<real>)
    requires SqrtLaw(mf) && pp.eps > 0.0 && 0 <= k && k * 8 <= |s|
    ensures |t| == |s|
  {
    Sweep(ScanFn(pp, mf, nl), s, k)
  }

  /** One more particle scanned, as the loop takes it. */
  lemma CollideStep(pp: PassParams, mf: MathFns, nl: (seq<real>, int) -> seq<int>,
                    s: seq<real>, k: int, t: seq<real>)
    requires SqrtLaw(mf) && pp.eps > 0.0 && 0 <= k && k * 8 + 8 <= |s|
    requires t == Collide(pp, mf, nl, s, k)
    ensures Holds(t, k)
    ensures Collide(pp, mf, nl, s, k + 1) == Scan(pp, mf, t, k, nl(t, k), 0).0
  {
  }

  /** One step of a neighbour scan, as the loop takes it. */
  lemma {:induction false} ScanStep(pp: PassParams, mf: MathFns, s: seq<real>, i: int, js: seq<int>, idx: int, handled: int)
    requires SqrtLaw(mf) && pp.eps > 0.0 && Holds(s, i) && 0 <= idx < |js|
    ensures Scan(pp, mf, s, i, js[idx..], handled)
            == if !Hit(s, i, js[idx]) then Scan(pp, mf, s, i, js[idx + 1..], handled)
               else if handled + 1 > pp.cap then (ResolvePair(pp, mf, s, i, js[idx]), handled + 1)
               else Scan(pp, mf, ResolvePair(pp, mf, s, i, js[idx]), i, js[idx + 1..], handled + 1)
  {
    assert js[idx..][0] == js[idx];
    assert js[idx..][1..] == js[idx + 1..];
  }

  /** Resolves the contact of particles i and j in place. */
  method ResolveInPlace(particles: array<real>, i: int, j: int, pp: PassParams, mf: MathFns)
    requires SqrtLaw(mf) && pp.eps > 0.0 && Holds(particles[..], i) && Holds(particles[..], j) && i != j
    modifies particles
    ensures particles[..] == ResolvePair(pp, mf, old(particles[..]), i, j)
  {
    var c := PairContact(pp, mf, particles[..], i, j);
    var r := Resolve(pp.cp, mf, Rec(particles[..], i), Rec(particles[..], j), c);
    StoreMotionHeat(particles, i, r.0);
    StoreMotionHeat(particles, j, r.1);
  }

  /** The inner loop of `handleCollisions`: particle i against each of its
      neighbours in turn, with the contact counter and the early exit. */
  method ScanNeighbors(particles: array<real>, i: int, neigh: seq<int>, pp: PassParams, mf: MathFns)
    requires SqrtLaw(mf) && pp.eps > 0.0 && Holds(particles[..], i)
    modifies particles
    ensures particles[..] == Scan(pp, mf, old(particles[..]), i, neigh, 0).0
  {
    ghost var final := Scan(pp, mf, particles[..], i, neigh, 0);
    var handled := 0;
    var idx := 0;
    while idx < |neigh|
      invariant 0 <= idx <= |neigh|
      invariant |particles[..]| == particles.Length && Holds(particles[..], i)
      invariant Scan(pp, mf, particles[..], i, neigh[idx..], handled) == final
    {
      ScanStep(pp, mf, particles[..], i, neigh, idx, handled);
      var j := neigh[idx];
      if j <= i || j * 8 + 8 > particles.Length {
        idx := idx + 1;
        continue;
      }
      if Overlaps(Rec(particles[..], i), Rec(particles[..], j)) {
        ResolveInPlace(particles, i, j, pp, mf);
        handled := handled + 1;
        if handled > pp.cap {
          break;
        }
      }
      idx := idx + 1;
    }
    assert particles[..] == final.0 by {
      if idx == |neigh| { assert neigh[idx..] == []; }
    }
  }

  /** One turn of the outer loop: particle i's neighbour list is taken
      from the grid in the current buffer, then scanned. */
  method ScanParticle(grid: FlatGrid, particles: array<real>, i: int, maxRadius: real,
                      pp: PassParams, mf: MathFns, ghost nl: (seq<real>, int) -> seq<int>)
    requires SqrtLaw(mf) && pp.eps > 0.0 && grid.Valid() && Holds(particles[..], i)
    requires AgreesWithGrid(nl, grid.table.buckets, grid.gridCell, maxRadius)
    modifies particles
    ensures particles[..] == Scan(pp, mf, old(particles[..]), i, nl(old(particles[..]), i), 0).0
  {
    var neigh := grid.Neighbors(i, particles, maxRadius);
    ScanNeighbors(particles, i, neigh, pp, mf);
  }

  /** `handleCollisions`: every particle in order is scanned against the
      neighbour list the grid gives at the moment its turn comes. */
  method HandleCollisions(grid: FlatGrid, particles: array<real>, numParticles: int,
                          maxRadius: real, pp: PassParams, mf: MathFns,
                          ghost nl: (seq<real>, int) -> seq<int>)
    requires SqrtLaw(mf) && pp.eps > 0.0 && grid.Valid()
    requires AgreesWithGrid(nl, grid.table.buckets, grid.gridCell, maxRadius)
    requires 0 <= numParticles && numParticles * 8 <= particles.Length
    modifies particles
    ensures particles[..] == Collide(pp, mf, nl, old(particles[..]), numParticles)
  {
    ghost var s0 := particles[..];
    var i := 0;
    while i < numParticles
      invariant 0 <= i <= numParticles
      invariant particles[..] == Collide(pp, mf, nl, s0, i)
    {
      CollideNext(grid, particles, s0, i, maxRadius, pp, mf, nl);
      i := i + 1;
    }
  }

  /** The turn of particle i: the buffer goes from the state after i
      particles were scanned to the state after i + 1. */
  method CollideNext(grid: FlatGrid, particles: array<real>, ghost s0: seq<real>, i: int,
                     maxRadius: real, pp: PassParams, mf: MathFns,
                     ghost nl: (seq<real>, int) -> seq<int>)
    requires SqrtLaw(mf) && pp.eps > 0.0 && grid.Valid()
    requires AgreesWithGrid(nl, grid.table.buckets, grid.gridCell, maxRadius)
    requires 0 <= i && i * 8 + 8 <= |s0| && particles[..] == Collide(pp, mf, nl, s0, i)
    modifies particles
    ensures particles[..] == Collide(pp, mf, nl, s0, i + 1)
  {
    ghost var t := particles[..];
    CollideStep(pp, mf, nl, s0, i, t);
    ScanParticle(grid, particles, i, maxRadius, pp, mf, nl);
  }
}
