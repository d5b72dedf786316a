/** What a collision pass keeps, summed over every particle of the
    buffer: each resolved pair keeps its position sum, so the whole pass
    keeps the sum of positions; radii, masses and inverse masses are never
    written; momentum is kept in `'soft'` mode, and in the other modes when
    every particle's inverse mass is the inverse of its mass; heat stays in
    [0, 1.2] once it starts there. */
module CollisionLaws {
  import opened JsNumber
  import opened Types
  import opened PhysicsUtils
  import opened ContactKernel
  import opened FlatCollisions

  /** The sum of `f` over particles 0 .. n-1 of buffer s. */
  function Total(f: Particle -> real, s: seq<real>, n: int): real
    requires 0 <= n && n * 8 <= |s|
  {
    if n == 0 then 0.0 else Total(f, s, n - 1) + f(Rec(s, n - 1))
  }

  function PosX(p: Particle): real { p.x }
  function PosY(p: Particle): real { p.y }
  function MomX(p: Particle): real { p.m * p.vx }
  function MomY(p: Particle): real { p.m * p.vy }

  /** The particles the buffer holds, all of them. */
  function All(s: seq<real>): (n: int)
    ensures 0 <= n && n * 8 <= |s|
    ensures forall k :: Holds(s, k) ==> k < n
  {
    |s| / 8
  }

  /** Buffer t equals s except, possibly, at particles i and j. */
  ghost predicate OnlyPair(s: seq<real>, t: seq<real>, i: int, j: int)
  {
    |t| == |s| && forall k :: Holds(s, k) && k != i && k != j ==> Rec(t, k) == Rec(s, k)
  }

  /** Every particle's inverse mass is the inverse of its mass. */
  ghost predicate MassConsistent(s: seq<real>)
  {
    forall k :: Holds(s, k) ==> Rec(s, k).m * Rec(s, k).invM == 1.0
  }

  /** Every particle's heat lies in [0, 1.2]. */
  ghost predicate HeatBounded(s: seq<real>)
  {
    forall k :: Holds(s, k) ==> 0.0 <= Rec(s, k).heat <= HEAT_MAX
  }

  /** No particle's radius, mass or inverse mass differs between s and t. */
  ghost predicate SameBodies(s: seq<real>, t: seq<real>)
  {
    |t| == |s| && forall k :: Holds(s, k) ==>
      Rec(t, k).r == Rec(s, k).r && Rec(t, k).m == Rec(s, k).m && Rec(t, k).invM == Rec(s, k).invM
  }

  /** No particle's heat differs between s and t. */
  ghost predicate SameHeat(s: seq<real>, t: seq<real>)
  {
    |t| == |s| && forall k :: Holds(s, k) ==> Rec(t, k).heat == Rec(s, k).heat
  }

  /** What a pass with parameters pp keeps between buffers s and t. */
  ghost predicate Keeps(pp: PassParams, s: seq<real>, t: seq<real>)
  {
    SameBodies(s, t)
    && Total(PosX, t, All(s)) == Total(PosX, s, All(s))
    && Total(PosY, t, All(s)) == Total(PosY, s, All(s))
    && (pp.cp.mode == "soft" || MassConsistent(s) ==>
          Total(MomX, t, All(s)) == Total(MomX, s, All(s))
          && Total(MomY, t, All(s)) == Total(MomY, s, All(s)))
    && (HeatBounded(s) ==> HeatBounded(t))
  }

  /** Changing particles i and j only changes a total by their own change. */
  lemma {:induction false} TotalPair(f: Particle -> real, s: seq<real>, t: seq<real>, i: int, j: int, n: int)
    requires Holds(s, i) && Holds(s, j) && i != j && OnlyPair(s, t, i, j)
    requires 0 <= n && n * 8 <= |s|
    ensures Total(f, t, n) == Total(f, s, n)
                              + (if i < n then f(Rec(t, i)) - f(Rec(s, i)) else 0.0)
                              + (if j < n then f(Rec(t, j)) - f(Rec(s, j)) else 0.0)
  {
    if n > 0 {
      TotalPair(f, s, t, i, j, n - 1);
    }
  }

  /** A pair change that keeps the pair's sum of f keeps the total. */
  lemma {:induction false} PairTotal(f: Particle -> real, s: seq<real>, t: seq<real>, i: int, j: int)
    requires Holds(s, i) && Holds(s, j) && i != j && OnlyPair(s, t, i, j)
    requires f(Rec(t, i)) + f(Rec(t, j)) == f(Rec(s, i)) + f(Rec(s, j))
    ensures Total(f, t, All(s)) == Total(f, s, All(s))
  {
    TotalPair(f, s, t, i, j, All(s));
  }

  /** A resolved pair changes only particles i and j, which then hold the
      two resolved records. */
  lemma ResolvePairShape(pp: PassParams, mf: MathFns, s: seq<real>, i: int, j: int)
    requires SqrtLaw(mf) && pp.eps > 0.0 && Holds(s, i) && Holds(s, j) && i != j
    ensures var r := Resolve(pp.cp, mf, Rec(s, i), Rec(s, j), PairContact(pp, mf, s, i, j));
            var t := ResolvePair(pp, mf, s, i, j);
            OnlyPair(s, t, i, j) && Rec(t, i) == r.0 && Rec(t, j) == r.1
  {
    var r := Resolve(pp.cp, mf, Rec(s, i), Rec(s, j), PairContact(pp, mf, s, i, j));
    var t := ResolvePair(pp, mf, s, i, j);
    forall k | Holds(s, k)
      ensures k == i ==> Rec(t, k) == r.0
      ensures k == j ==> Rec(t, k) == r.1
      ensures k != i && k != j ==> Rec(t, k) == Rec(s, k)
    {
      ResolvePairRec(pp, mf, s, i, j, k);
    }
  }

  /** A pair change that keeps both particles' bodies and heat bounds keeps
      them for the whole buffer. */
  lemma PairBodies(s: seq<real>, t: seq<real>, i: int, j: int)
    requires Holds(s, i) && Holds(s, j) && i != j && OnlyPair(s, t, i, j)
    requires Kept(Rec(s, i), Rec(s, j), (Rec(t, i), Rec(t, j)))
    requires 0.0 <= Rec(s, i).heat <= HEAT_MAX && 0.0 <= Rec(s, j).heat <= HEAT_MAX ==>
               0.0 <= Rec(t, i).heat <= HEAT_MAX && 0.0 <= Rec(t, j).heat <= HEAT_MAX
    ensures SameBodies(s, t)
    ensures HeatBounded(s) ==> HeatBounded(t)
  {
    forall k | Holds(s, k)
      ensures Rec(t, k).r == Rec(s, k).r && Rec(t, k).m == Rec(s, k).m && Rec(t, k).invM == Rec(s, k).invM
    {
    }
    if HeatBounded(s) {
      forall k | Holds(t, k)
        ensures 0.0 <= Rec(t, k).heat <= HEAT_MAX
      {
        assert Holds(s, k);
      }
    }
  }

  /** One resolved pair keeps everything `Keeps` names. */
  lemma ResolvePairKeeps(pp: PassParams, mf: MathFns, s: seq<real>, i: int, j: int)
    requires SqrtLaw(mf) && pp.eps > 0.0 && Holds(s, i) && Holds(s, j) && i != j
    ensures Keeps(pp, s, ResolvePair(pp, mf, s, i, j))
  {
    var t := ResolvePair(pp, mf, s, i, j);
    ResolvePairShape(pp, mf, s, i, j);
    PairBodies(s, t, i, j);
    PairTotal(PosX, s, t, i, j);
    PairTotal(PosY, s, t, i, j);
    if pp.cp.mode == "soft" {
      PairMomentum(s, t, i, j);
    } else if MassConsistent(s) {
      MassAt(s, i);
      MassAt(s, j);
      PairMomentum(s, t, i, j);
    }
  }

  /** A consistent buffer's particle k has inverse mass 1/m. */
  lemma MassAt(s: seq<real>, k: int)
    requires MassConsistent(s) && Holds(s, k)
    ensures Rec(s, k).m * Rec(s, k).invM == 1.0
  {
  }

  /** A pair change that keeps the pair's momentum keeps both momentum totals. */
  lemma PairMomentum(s: seq<real>, t: seq<real>, i: int, j: int)
    requires Holds(s, i) && Holds(s, j) && i != j && OnlyPair(s, t, i, j)
    requires MomentumX(Rec(t, i), Rec(t, j)) == MomentumX(Rec(s, i), Rec(s, j))
    requires MomentumY(Rec(t, i), Rec(t, j)) == MomentumY(Rec(s, i), Rec(s, j))
    ensures Total(MomX, t, All(s)) == Total(MomX, s, All(s))
    ensures Total(MomY, t, All(s)) == Total(MomY, s, All(s))
  {
    PairTotal(MomX, s, t, i, j);
    PairTotal(MomY, s, t, i, j);
  }

  /** Keeping the bodies composes. */
  lemma SameBodiesTrans(s: seq<real>, t: seq<real>, u: seq<real>)
    requires SameBodies(s, t) && SameBodies(t, u)
    ensures SameBodies(s, u)
  {
    forall k | Holds(s, k)
      ensures Rec(u, k).r == Rec(s, k).r && Rec(u, k).m == Rec(s, k).m && Rec(u, k).invM == Rec(s, k).invM
    {
      assert Holds(t, k);
    }
  }

  /** Consistent masses stay consistent while the bodies are kept. */
  lemma MassConsistentKept(s: seq<real>, t: seq<real>)
    requires SameBodies(s, t) && MassConsistent(s)
    ensures MassConsistent(t)
  {
    forall k | Holds(t, k)
      ensures Rec(t, k).m * Rec(t, k).invM == 1.0
    {
      assert Holds(s, k);
    }
  }

  /** `Keeps` composes: two passes in a row keep what each keeps. */
  lemma KeepsTrans(pp: PassParams, s: seq<real>, t: seq<real>, u: seq<real>)
    requires Keeps(pp, s, t) && Keeps(pp, t, u)
    ensures Keeps(pp, s, u)
  {
    SameBodiesTrans(s, t, u);
    assert All(t) == All(s);
    if MassConsistent(s) {
      MassConsistentKept(s, t);
    }
  }

  /** `Keeps` holds of a buffer and itself. */
  lemma KeepsRefl(pp: PassParams, s: seq<real>)
    ensures Keeps(pp, s, s)
  {
  }

  /** Whatever property of the buffer every resolved pair preserves, a
      neighbour scan preserves. */
  lemma {:induction false} ScanPreserves(pp: PassParams, mf: MathFns, inv: seq<real> -> bool,
                                         s: seq<real>, i: int, js: seq<int>, handled: int)
    requires SqrtLaw(mf) && pp.eps > 0.0 && Holds(s, i) && inv(s)
    requires forall t, a, b :: Holds(t, a) && Holds(t, b) && a != b && inv(t) ==> inv(ResolvePair(pp, mf, t, a, b))
    ensures inv(Scan(pp, mf, s, i, js, handled).0)
    decreases |js|
  {
    if js != [] {
      if !Hit(s, i, js[0]) {
        ScanPreserves(pp, mf, inv, s, i, js[1..], handled);
      } else if handled + 1 <= pp.cap {
        ScanPreserves(pp, mf, inv, ResolvePair(pp, mf, s, i, js[0]), i, js[1..], handled + 1);
      }
    }
  }

  /** Whatever property of the buffer every resolved pair preserves, the
      whole collision pass preserves. */
  lemma {:induction false} CollidePreserves(pp: PassParams, mf: MathFns, nl: (seq<real>, int) -> seq<int>,
                                            inv: seq<real> -> bool, s: seq<real>, k: int)
    requires SqrtLaw(mf) && pp.eps > 0.0 && 0 <= k && k * 8 <= |s| && inv(s)
    requires forall t, a, b :: Holds(t, a) && Holds(t, b) && a != b && inv(t) ==> inv(ResolvePair(pp, mf, t, a, b))
    ensures inv(Collide(pp, mf, nl, s, k))
  {
    if k > 0 {
      CollidePreserves(pp, mf, nl, inv, s, k - 1);
      CollideStepPreserves(pp, mf, nl, inv, s, k - 1);
    } else {
      CollideZero(pp, mf, nl, s);
    }
  }

  /** No particle scanned leaves the buffer as it was. */
  lemma {:induction false} CollideZero(pp: PassParams, mf: MathFns, nl: (seq<real>, int) -> seq<int>, s: seq<real>)
    requires SqrtLaw(mf) && pp.eps > 0.0
    ensures Collide(pp, mf, nl, s, 0) == s
  {
  }

  /** Scanning one more particle keeps a property every resolved pair keeps. */
  lemma CollideStepPreserves(pp: PassParams, mf: MathFns, nl: (seq<real>, int) -> seq<int>,
                             inv: seq<real> -> bool, s: seq<real>, k: int)
    requires SqrtLaw(mf) && pp.eps > 0.0 && 0 <= k && k * 8 + 8 <= |s| && inv(Collide(pp, mf, nl, s, k))
    requires forall t, a, b :: Holds(t, a) && Holds(t, b) && a != b && inv(t) ==> inv(ResolvePair(pp, mf, t, a, b))
    ensures inv(Collide(pp, mf, nl, s, k + 1))
  {
    var t := Collide(pp, mf, nl, s, k);
    CollideStep(pp, mf, nl, s, k, t);
    ScanPreserves(pp, mf, inv, t, k, nl(t, k), 0);
  }

  /** The whole collision pass keeps the position sums, every radius, mass
      and inverse mass, the momentum sums when the masses are consistent
      (or in `'soft'` mode), and heat within [0, 1.2]. */
  lemma {:induction false} CollideKeeps(pp: PassParams, mf: MathFns, nl: (seq<real>, int) -> seq<int>, s: seq<real>, k: int)
    requires SqrtLaw(mf) && pp.eps > 0.0 && 0 <= k && k * 8 <= |s|
    ensures Keeps(pp, s, Collide(pp, mf, nl, s, k))
  {
    var inv := (t: seq<real>) => Keeps(pp, s, t);
    forall t, a, b | Holds(t, a) && Holds(t, b) && a != b && inv(t)
      ensures inv(ResolvePair(pp, mf, t, a, b))
    {
      ResolvePairKeeps(pp, mf, t, a, b);
      KeepsTrans(pp, s, t, ResolvePair(pp, mf, t, a, b));
    }
    KeepsRefl(pp, s);
    CollidePreserves(pp, mf, nl, inv, s, k);
  }

  /** Without heat gain a resolved pair keeps every heat. */
  lemma ResolvePairKeepsHeat(pp: PassParams, mf: MathFns, s: seq<real>, i: int, j: int)
    requires SqrtLaw(mf) && pp.eps > 0.0 && Holds(s, i) && Holds(s, j) && i != j
    requires !pp.cp.heatMode
    ensures SameHeat(s, ResolvePair(pp, mf, s, i, j))
  {
    var t := ResolvePair(pp, mf, s, i, j);
    forall k | Holds(s, k)
      ensures Rec(t, k).heat == Rec(s, k).heat
    {
      ResolvePairRec(pp, mf, s, i, j, k);
    }
  }

  /** Without heat gain the whole collision pass keeps every heat. */
  lemma {:induction false} CollideKeepsHeat(pp: PassParams, mf: MathFns, nl: (seq<real>, int) -> seq<int>, s: seq<real>, k: int)
    requires SqrtLaw(mf) && pp.eps > 0.0 && 0 <= k && k * 8 <= |s| && !pp.cp.heatMode
    ensures SameHeat(s, Collide(pp, mf, nl, s, k))
  {
    var inv := (t: seq<real>) => SameHeat(s, t);
    forall t, a, b | Holds(t, a) && Holds(t, b) && a != b && inv(t)
      ensures inv(ResolvePair(pp, mf, t, a, b))
    {
      ResolvePairKeepsHeat(pp, mf, t, a, b);
    }
    CollidePreserves(pp, mf, nl, inv, s, k);
  }
}
