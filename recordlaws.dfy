/** What a record-array collision pass keeps, summed over every particle:
    the sums of positions; every radius, mass, inverse mass and colour;
    momentum in `'soft'` mode, and in the other modes when every inverse
    mass is the inverse of its mass; heat within [0, 1.2] once it starts
    there.  Whatever draws the random normal takes, all of this holds. */
module RecordLaws {
  import opened JsNumber
  import opened Types
  import opened ContactKernel
  import opened RecordCollisions

  /** The sum of `f` over the first n records. */
  function Total(f: Particle -> real, s: seq<Particle>, n: int): real
    requires 0 <= n <= |s|
  {
    if n == 0 then 0.0 else Total(f, s, n - 1) + f(s[n - 1])
  }

  function PosX(p: Particle): real { p.x }
  function PosY(p: Particle): real { p.y }
  function MomX(p: Particle): real { p.m * p.vx }
  function MomY(p: Particle): real { p.m * p.vy }

  /** Records t equal s except, possibly, at i and j. */
  ghost predicate OnlyPair(s: seq<Particle>, t: seq<Particle>, i: int, j: int)
  {
    |t| == |s| && forall k :: 0 <= k < |s| && k != i && k != j ==> t[k] == s[k]
  }

  /** Every particle's inverse mass is the inverse of its mass. */
  ghost predicate MassConsistent(s: seq<Particle>)
  {
    forall k :: 0 <= k < |s| ==> s[k].m * s[k].invM == 1.0
  }

  /** Every particle's heat lies in [0, 1.2]. */
  ghost predicate HeatBounded(s: seq<Particle>)
  {
    forall k :: 0 <= k < |s| ==> 0.0 <= s[k].heat <= HEAT_MAX
  }

  /** No particle's radius, mass, inverse mass or colour differs. */
  ghost predicate SameBodies(s: seq<Particle>, t: seq<Particle>)
  {
    |t| == |s| && forall k :: 0 <= k < |s| ==>
      t[k].r == s[k].r && t[k].m == s[k].m && t[k].invM == s[k].invM && t[k].color == s[k].color
  }

  /** What a pass with parameters rp keeps between records s and t. */
  ghost predicate Keeps(rp: RecordPass, s: seq<Particle>, t: seq<Particle>)
  {
    SameBodies(s, t)
    && Total(PosX, t, |s|) == Total(PosX, s, |s|)
    && Total(PosY, t, |s|) == Total(PosY, s, |s|)
    && (rp.cp.mode == "soft" || MassConsistent(s) ==>
          Total(MomX, t, |s|) == Total(MomX, s, |s|) && Total(MomY, t, |s|) == Total(MomY, s, |s|))
    && (HeatBounded(s) ==> HeatBounded(t))
  }

  /** Changing records i and j changes a total by their own change only. */
  lemma {:induction false} TotalPair(f: Particle -> real, s: seq<Particle>, t: seq<Particle>, i: int, j: int, n: int)
    requires 0 <= i < |s| && 0 <= j < |s| && i != j && OnlyPair(s, t, i, j) && 0 <= n <= |s|
    ensures Total(f, t, n) == Total(f, s, n)
                              + (if i < n then f(t[i]) - f(s[i]) else 0.0)
                              + (if j < n then f(t[j]) - f(s[j]) else 0.0)
  {
    if n > 0 {
      TotalPair(f, s, t, i, j, n - 1);
    }
  }

  /** A pair change that keeps the pair's sum of f keeps the total. */
  lemma PairTotal(f: Particle -> real, s: seq<Particle>, t: seq<Particle>, i: int, j: int)
    requires 0 <= i < |s| && 0 <= j < |s| && i != j && OnlyPair(s, t, i, j)
    requires f(t[i]) + f(t[j]) == f(s[i]) + f(s[j])
    ensures Total(f, t, |s|) == Total(f, s, |s|)
  {
    TotalPair(f, s, t, i, j, |s|);
  }

  /** One resolved pair keeps everything `Keeps` names. */
  lemma ResolvePairKeeps(rp: RecordPass, mf: MathFns, draw: nat -> real, k: nat, s: seq<Particle>, i: int, j: int)
    requires SqrtLaw(mf) && rp.eps > 0.0 && 0 <= i < |s| && 0 <= j < |s| && i != j
    ensures Keeps(rp, s, ResolvePair(rp, mf, draw, k, s, i, j).0)
  {
    var t := ResolvePair(rp, mf, draw, k, s, i, j).0;
    var r := Resolve(rp.cp, mf, s[i], s[j], PairContact(rp, mf, draw, k, s[i], s[j]));
    assert t[i] == r.0 && t[j] == r.1;
    assert OnlyPair(s, t, i, j);
    PairTotal(PosX, s, t, i, j);
    PairTotal(PosY, s, t, i, j);
    if rp.cp.mode == "soft" || MassConsistent(s) {
      assert rp.cp.mode == "soft" || (s[i].m * s[i].invM == 1.0 && s[j].m * s[j].invM == 1.0);
      PairTotal(MomX, s, t, i, j);
      PairTotal(MomY, s, t, i, j);
    }
    if HeatBounded(s) {
      assert 0.0 <= s[i].heat <= HEAT_MAX && 0.0 <= s[j].heat <= HEAT_MAX;
      forall m | 0 <= m < |t|
        ensures 0.0 <= t[m].heat <= HEAT_MAX
      {
        if m != i && m != j { assert t[m] == s[m]; }
      }
    }
  }

  lemma SameBodiesTrans(s: seq<Particle>, t: seq<Particle>, u: seq<Particle>)
    requires SameBodies(s, t) && SameBodies(t, u)
    ensures SameBodies(s, u)
  {
  }

  lemma MassConsistentKept(s: seq<Particle>, t: seq<Particle>)
    requires SameBodies(s, t) && MassConsistent(s)
    ensures MassConsistent(t)
  {
    forall k | 0 <= k < |t|
      ensures t[k].m * t[k].invM == 1.0
    {
      assert t[k].m == s[k].m && t[k].invM == s[k].invM;
    }
  }

  /** `Keeps` composes: two passes in a row keep what each keeps. */
  lemma KeepsTrans(rp: RecordPass, s: seq<Particle>, t: seq<Particle>, u: seq<Particle>)
    requires Keeps(rp, s, t) && Keeps(rp, t, u)
    ensures Keeps(rp, s, u)
  {
    SameBodiesTrans(s, t, u);
    if MassConsistent(s) {
      MassConsistentKept(s, t);
    }
  }

  /** Whatever property of the records every resolved pair preserves, with
      whatever draws, a neighbour scan preserves. */
  lemma {:induction false} ScanPreserves(rp: RecordPass, mf: MathFns, draw: nat -> real, inv: seq<Particle> -> bool,
                                         s: seq<Particle>, i: int, js: seq<int>, handled: int, k: nat)
    requires SqrtLaw(mf) && rp.eps > 0.0 && 0 <= i < |s| && inv(s)
    requires forall t, a, b, c: nat :: 0 <= a < |t| && 0 <= b < |t| && a != b && inv(t) ==>
               inv(ResolvePair(rp, mf, draw, c, t, a, b).0)
    ensures inv(Scan(rp, mf, draw, s, i, js, handled, k).0)
    decreases |js|
  {
    if js != [] {
      if !Hit(s, i, js[0]) {
        ScanPreserves(rp, mf, draw, inv, s, i, js[1..], handled, k);
      } else if handled + 1 <= rp.cap {
        var t := ResolvePair(rp, mf, draw, k, s, i, js[0]);
        ScanPreserves(rp, mf, draw, inv, t.0, i, js[1..], handled + 1, t.1);
      }
    }
  }

  /** Whatever property every resolved pair preserves, the whole pass
      preserves. */
  lemma {:induction false} CollidePreserves(rp: RecordPass, mf: MathFns, draw: nat -> real, nl: NeighborFn,
                                            inv: seq<Particle> -> bool, s: seq<Particle>, n: nat, k: nat)
    requires SqrtLaw(mf) && rp.eps > 0.0 && n <= |s| && inv(s)
    requires forall t, a, b, c: nat :: 0 <= a < |t| && 0 <= b < |t| && a != b && inv(t) ==>
               inv(ResolvePair(rp, mf, draw, c, t, a, b).0)
    ensures inv(Collide(rp, mf, draw, nl, s, n, k).0)
  {
    if n > 0 {
      CollidePreserves(rp, mf, draw, nl, inv, s, n - 1, k);
      var prev := Collide(rp, mf, draw, nl, s, n - 1, k);
      ScanPreserves(rp, mf, draw, inv, prev.0, n - 1, nl(prev.0, n - 1), 0, prev.1);
    }
  }

  /** The whole record collision pass keeps the position sums, every
      radius, mass, inverse mass and colour, the momentum sums when the
      masses are consistent (or in `'soft'` mode), and heat within
      [0, 1.2]. */
  lemma CollideKeeps(rp: RecordPass, mf: MathFns, draw: nat -> real, nl: NeighborFn, s: seq<Particle>, k: nat)
    requires SqrtLaw(mf) && rp.eps > 0.0
    ensures Keeps(rp, s, Collide(rp, mf, draw, nl, s, |s|, k).0)
  {
    var inv := (t: seq<Particle>) => Keeps(rp, s, t);
    forall t, a, b, c: nat | 0 <= a < |t| && 0 <= b < |t| && a != b && inv(t)
      ensures inv(ResolvePair(rp, mf, draw, c, t, a, b).0)
    {
      ResolvePairKeeps(rp, mf, draw, c, t, a, b);
      KeepsTrans(rp, s, t, ResolvePair(rp, mf, draw, c, t, a, b).0);
    }
    CollidePreserves(rp, mf, draw, nl, inv, s, |s|, k);
  }

  /** A pass whose normal policy is not the random one never looks at the
      draws: a scan gives the same result whatever the stream. */
  lemma {:induction false} ScanDrawFree(rp: RecordPass, mf: MathFns, d1: nat -> real, d2: nat -> real,
                                        s: seq<Particle>, i: int, js: seq<int>, handled: int, k: nat)
    requires SqrtLaw(mf) && rp.eps > 0.0 && rp.policy != RandomUnit && 0 <= i < |s|
    ensures Scan(rp, mf, d1, s, i, js, handled, k) == Scan(rp, mf, d2, s, i, js, handled, k)
    decreases |js|
  {
    if js != [] {
      if !Hit(s, i, js[0]) {
        ScanDrawFree(rp, mf, d1, d2, s, i, js[1..], handled, k);
      } else {
        assert ResolvePair(rp, mf, d1, k, s, i, js[0]) == ResolvePair(rp, mf, d2, k, s, i, js[0]);
        var t := ResolvePair(rp, mf, d1, k, s, i, js[0]);
        ScanDrawFree(rp, mf, d1, d2, t.0, i, js[1..], handled + 1, t.1);
      }
    }
  }

  /** A pass whose normal policy is not the random one gives the same
      records whatever the stream of draws. */
  lemma {:induction false} CollideDrawFree(rp: RecordPass, mf: MathFns, d1: nat -> real, d2: nat -> real,
                                           nl: NeighborFn, s: seq<Particle>, n: nat, k: nat)
    requires SqrtLaw(mf) && rp.eps > 0.0 && rp.policy != RandomUnit && n <= |s|
    ensures Collide(rp, mf, d1, nl, s, n, k) == Collide(rp, mf, d2, nl, s, n, k)
  {
    if n > 0 {
      CollideDrawFree(rp, mf, d1, d2, nl, s, n - 1, k);
      var prev := Collide(rp, mf, d1, nl, s, n - 1, k);
      ScanDrawFree(rp, mf, d1, d2, prev.0, n - 1, nl(prev.0, n - 1), 0, prev.1);
    }
  }
}
