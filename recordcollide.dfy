/** `handleCollisions` over the particle records, as both main-thread
    copies write it: for each particle i in order, `neighbors(i)` is taken
    from the state's map at i's current cell, and every later neighbour
    j > i that overlaps i is resolved at once in the records; after
    `cap + 1` resolved contacts the scan of i stops.  The copies differ in
    the near-coincidence threshold and the normal used below it (the fixed
    `(1,0)`, or a random unit vector made from two `Math.random()` draws),
    in the impulse clamp and in the friction epsilon. */
module RecordCollisions {
  import opened JsNumber
  import opened Types
  import opened ContactKernel
  import opened SimState
  import opened RecordGrid

  /** What a pass fixes: the contact parameters, the normal policy below
      the threshold `eps`, and the per-particle contact cap. */
  datatype RecordPass = RecordPass(cp: ContactParams, policy: NormalPolicy, eps: real, cap: int)

  /** Whether resolving p against q calls `Math.random()`: only the random
      policy does, twice, and only when the centres are closer than `eps`. */
  predicate Draws(rp: RecordPass, mf: MathFns, p: Particle, q: Particle)
  {
    rp.policy == RandomUnit && Hypot(mf, q.x - p.x, q.y - p.y) < rp.eps
  }

  /** The contact of p and q; a random normal takes the draws `draw(k)`
      and `draw(k + 1)`. */
  function PairContact(rp: RecordPass, mf: MathFns, draw: nat -> real, k: nat, p: Particle, q: Particle): Contact
    requires SqrtLaw(mf) && rp.eps > 0.0
  {
    if Draws(rp, mf, p, q) then ContactNormal(rp.policy, mf, q.x - p.x, q.y - p.y, rp.eps, draw(k), draw(k + 1))
    else ContactNormal(rp.policy, mf, q.x - p.x, q.y - p.y, rp.eps, 0.0, 0.0)
  }

  /** The records after the pair (i, j) is resolved, with the draw counter
      after it. */
  function ResolvePair(rp: RecordPass, mf: MathFns, draw: nat -> real, k: nat,
                       s: seq<Particle>, i: int, j: int): (r: (seq<Particle>, nat))
    requires SqrtLaw(mf) && rp.eps > 0.0 && 0 <= i < |s| && 0 <= j < |s| && i != j
    ensures |r.0| == |s|
    ensures r.1 == if Draws(rp, mf, s[i], s[j]) then k + 2 else k
  {
    var res := Resolve(rp.cp, mf, s[i], s[j], PairContact(rp, mf, draw, k, s[i], s[j]));
    (s[i := res.0][j := res.1], if Draws(rp, mf, s[i], s[j]) then k + 2 else k)
  }

  /** Whether the scan of particle i resolves its neighbour j: j comes
      later, is a particle, and overlaps or touches i. */
  predicate Hit(s: seq<Particle>, i: int, j: int)
    requires 0 <= i < |s|
  {
    i < j < |s| && Overlaps(s[i], s[j])
  }

  /** The scan of particle i over the neighbours `js`, with `handled`
      contacts resolved and `k` draws taken so far: the records, the
      contact count and the draw counter afterwards.  It stops after the
      contact that takes the count past `cap`; only the random policy
      draws. */
  function Scan(rp: RecordPass, mf: MathFns, draw: nat -> real, s: seq<Particle>, i: int,
                js: seq<int>, handled: int, k: nat): (r: (seq<Particle>, int, nat))
    requires SqrtLaw(mf) && rp.eps > 0.0 && 0 <= i < |s|
    ensures |r.0| == |s|
    ensures handled <= r.1 <= handled + |js|
    ensures handled <= rp.cap ==> r.1 <= rp.cap + 1
    ensures k <= r.2 && (rp.policy != RandomUnit ==> r.2 == k)
    ensures (forall m :: 0 <= m < |js| ==> js[m] <= i) ==> r == (s, handled, k)
    decreases |js|
  {
    if js == [] then (s, handled, k)
    else if !Hit(s, i, js[0]) then Scan(rp, mf, draw, s, i, js[1..], handled, k)
    else
      var t := ResolvePair(rp, mf, draw, k, s, i, js[0]);
      if handled + 1 > rp.cap then (t.0, handled + 1, t.1)
      else Scan(rp, mf, draw, t.0, i, js[1..], handled + 1, t.1)
  }

  /** A neighbour function: the neighbour list of particle i in records t. */
  type NeighborFn = (seq<Particle>, int) -> seq<int>

  /** The records and draw counter after particles 0 .. n-1 have been
      scanned, each against the list `nl` gives in the records as they are
      when its turn comes. */
  function Collide(rp: RecordPass, mf: MathFns, draw: nat -> real, nl: NeighborFn,
                   s: seq<Particle>, n: nat, k: nat): (r: (seq<Particle>, nat))
    requires SqrtLaw(mf) && rp.eps > 0.0 && n <= |s|
    ensures |r.0| == |s| && k <= r.1
    ensures rp.policy != RandomUnit ==> r.1 == k
  {
    if n == 0 then (s, k)
    else
      var prev := Collide(rp, mf, draw, nl, s, n - 1, k);
      var sc := Scan(rp, mf, draw, prev.0, n - 1, nl(prev.0, n - 1), 0, prev.1);
      (sc.0, sc.2)
  }

  /** The neighbour lists of the state's grid: map g with cell size `cell`. */
  function GridNeighbors(g: map<int, seq<int>>, cell: real): NeighborFn
  {
    (t: seq<Particle>, i: int) => if cell > 0.0 && 0 <= i < |t| then NeighborsOf(g, t, cell, i) else []
  }

  /** `nl` gives, for every particle of every record array, the list the
      map g with cell size `cell` gives. */
  ghost predicate AgreesWithGrid(nl: NeighborFn, g: map<int, seq<int>>, cell: real)
  {
    forall t: seq<Particle>, i: int {:trigger NeighborsOf(g, t, cell, i)} ::
      cell > 0.0 && 0 <= i < |t| ==> nl(t, i) == NeighborsOf(g, t, cell, i)
  }

  lemma GridNeighborsAgree(g: map<int, seq<int>>, cell: real)
    ensures AgreesWithGrid(GridNeighbors(g, cell), g, cell)
  {
  }

  /** One step of a neighbour scan, as the loop takes it. */
  lemma {:induction false} ScanStep(rp: RecordPass, mf: MathFns, draw: nat -> real, s: seq<Particle>, i: int,
                                    js: seq<int>, idx: int, handled: int, k: nat)
    requires SqrtLaw(mf) && rp.eps > 0.0 && 0 <= i < |s| && 0 <= idx < |js|
    ensures Scan(rp, mf, draw, s, i, js[idx..], handled, k)
            == if !Hit(s, i, js[idx]) then Scan(rp, mf, draw, s, i, js[idx + 1..], handled, k)
               else
                 var t := ResolvePair(rp, mf, draw, k, s, i, js[idx]);
                 if handled + 1 > rp.cap then (t.0, handled + 1, t.1)
                 else Scan(rp, mf, draw, t.0, i, js[idx + 1..], handled + 1, t.1)
  {
    assert js[idx..][0] == js[idx];
    assert js[idx..][1..] == js[idx + 1..];
  }

  /** Resolves the contact of particles i and j in place, drawing the two
      random numbers first when the random normal is needed. */
  method ResolveInPlace(w: World, rng: RandomSource, i: int, j: int, rp: RecordPass, mf: MathFns)
    requires SqrtLaw(mf) && rp.eps > 0.0 && UnitStream(rng.draw)
    requires 0 <= i < |w.particles| && 0 <= j < |w.particles| && i != j
    modifies w`particles, rng
    ensures (w.particles, rng.next) == ResolvePair(rp, mf, rng.draw, old(rng.next), old(w.particles), i, j)
  {
    var p, q := w.particles[i], w.particles[j];
    ghost var k := rng.next;
    var c: Contact;
    if Draws(rp, mf, p, q) {
      var u1 := rng.Random();
      var u2 := rng.Random();
      c := ContactNormal(rp.policy, mf, q.x - p.x, q.y - p.y, rp.eps, u1, u2);
    } else {
      c := ContactNormal(rp.policy, mf, q.x - p.x, q.y - p.y, rp.eps, 0.0, 0.0);
    }
    assert c == PairContact(rp, mf, rng.draw, k, p, q);
    var r := Resolve(rp.cp, mf, p, q, c);
    w.particles := w.particles[i := r.0][j := r.1];
  }

  /** The inner loop: particle i against each of its neighbours in turn,
      with the contact counter and the early exit. */
  method ScanNeighbors(w: World, rng: RandomSource, i: int, neigh: seq<int>, rp: RecordPass, mf: MathFns)
    requires SqrtLaw(mf) && rp.eps > 0.0 && UnitStream(rng.draw) && 0 <= i < |w.particles|
    modifies w`particles, rng
    ensures var r := Scan(rp, mf, rng.draw, old(w.particles), i, neigh, 0, old(rng.next));
            w.particles == r.0 && rng.next == r.2
  {
    ghost var final := Scan(rp, mf, rng.draw, w.particles, i, neigh, 0, rng.next);
    var handled := 0;
    var idx := 0;
    while idx < |neigh|
      invariant 0 <= idx <= |neigh| && 0 <= i < |w.particles|
      invariant Scan(rp, mf, rng.draw, w.particles, i, neigh[idx..], handled, rng.next) == final
    {
      ScanStep(rp, mf, rng.draw, w.particles, i, neigh, idx, handled, rng.next);
      var j := neigh[idx];
      if j <= i || j >= |w.particles| {
        idx := idx + 1;
        continue;
      }
      if Overlaps(w.particles[i], w.particles[j]) {
        ResolveInPlace(w, rng, i, j, rp, mf);
        handled := handled + 1;
        if handled > rp.cap {
          break;
        }
      }
      idx := idx + 1;
    }
    assert w.particles == final.0 && rng.next == final.2 by {
      if idx == |neigh| { assert neigh[idx..] == []; }
    }
  }

  /** The turn of particle i: its neighbour list is read from the grid at
      its current position, then scanned. */
  method CollideNext(w: World, rng: RandomSource, ghost s0: seq<Particle>, ghost k0: nat, i: int,
                     rp: RecordPass, mf: MathFns, ghost nl: NeighborFn)
    requires SqrtLaw(mf) && rp.eps > 0.0 && UnitStream(rng.draw) && w.Valid()
    requires AgreesWithGrid(nl, w.grid.buckets, w.gridCell)
    requires 0 <= i < |s0| && (w.particles, rng.next) == Collide(rp, mf, rng.draw, nl, s0, i, k0)
    modifies w`particles, rng
    ensures (w.particles, rng.next) == Collide(rp, mf, rng.draw, nl, s0, i + 1, k0)
  {
    var neigh := Neighbors(w, i);
    assert neigh == nl(w.particles, i);
    ScanNeighbors(w, rng, i, neigh, rp, mf);
  }

  /** `handleCollisions`: every particle in order is scanned against the
      neighbour list the grid gives at the moment its turn comes. */
  method HandleCollisions(w: World, rng: RandomSource, rp: RecordPass, mf: MathFns, ghost nl: NeighborFn)
    requires SqrtLaw(mf) && rp.eps > 0.0 && UnitStream(rng.draw) && w.Valid()
    requires AgreesWithGrid(nl, w.grid.buckets, w.gridCell)
    modifies w`particles, rng
    ensures (w.particles, rng.next) == Collide(rp, mf, rng.draw, nl, old(w.particles), |old(w.particles)|, old(rng.next))
  {
    ghost var s0 := w.particles;
    ghost var k0 := rng.next;
    var i := 0;
    while i < |w.particles|
      invariant |w.particles| == |s0| && 0 <= i <= |s0|
      invariant (w.particles, rng.next) == Collide(rp, mf, rng.draw, nl, s0, i, k0)
    {
      CollideNext(w, rng, s0, k0, i, rp, mf, nl);
      i := i + 1;
    }
  }
}
