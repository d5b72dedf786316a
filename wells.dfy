/** `computeWellsPositions`: the gravity wells laid out by a generator
    seeded from the settings.  Well i takes the generator's calls 2i and
    2i+1 as its relative position inside the middle 70% of the canvas, may
    orbit around it over time, and spins with sign +1 at even and -1 at odd
    indices.  The same function appears four times in the source, three times
    with the canvas size as arguments and once reading it from the global
    state; all four are this model. */
module Wells {
  import opened JsNumber
  import opened Types
  import opened Utils

  /** `Math.max(1, Math.min(8, Math.round(count)))`. */
  function WellsCount(count: real): (n: int)
    ensures 1 <= n <= 8
    ensures 1 <= Round(count) <= 8 ==> n == Round(count)
    ensures Round(count) < 1 ==> n == 1
    ensures Round(count) > 8 ==> n == 8
  {
    Max(1.0, Min(8.0, Round(count) as real)).Floor
  }

  /** What the k-th call (from 0) of a generator seeded with `seed`
      returns. */
  function Draw(seed: real, k: nat): (u: real)
    ensures 0.0 <= u < 1.0
  {
    LcgOutputInUnit(LcgState(seed, k + 1));
    LcgOutput(LcgState(seed, k + 1))
  }

  /** A generator in the state of 2i calls returns draws 2i and 2i+1
      next. */
  lemma {:induction false} DrawPair(seed: real, i: nat, s: int)
    requires s == LcgState(seed, 2 * i)
    ensures LcgStep(LcgStep(s)) == LcgState(seed, 2 * (i + 1))
    ensures LcgOutput(LcgStep(s)) == Draw(seed, 2 * i)
    ensures LcgOutput(LcgStep(LcgStep(s))) == Draw(seed, 2 * i + 1)
  {
    assert 2 * (i + 1) == 2 * i + 1 + 1;
  }

  /** The spin sign of well i. */
  function WellSign(i: int): (s: int)
    ensures i % 2 == 0 ==> s == 1
    ensures i % 2 != 0 ==> s == -1
  {
    if i % 2 == 0 then 1 else -1
  }

  /** The coordinate a relative draw `u` gives on an axis of extent `b`. */
  function Place(u: real, b: real): real
  {
    (0.15 + 0.7 * u) * b
  }

  /** How far a moving well i has orbited from its place at time t. */
  function OrbitX(mf: MathFns, t: real, i: int, bw: real, bh: real): real
  {
    mf.sin(t * 0.6 + i as real * 1.7) * 0.12 * Min(bw, bh)
  }

  function OrbitY(mf: MathFns, t: real, i: int, bw: real, bh: real): real
  {
    mf.cos(t * 0.5 + i as real * 1.7 * 1.3) * 0.10 * Min(bw, bh)
  }

  /** Well i for the draws `u`, `v`: placed by them, then, when the wells
      move, shifted along a sine/cosine orbit whose phase depends on i and
      whose reach is a fraction of the shorter canvas side. */
  function WellAt(mf: MathFns, t: real, f: ForceSettings, bw: real, bh: real,
                  u: real, v: real, i: nat): (w: Well)
    ensures !f.wellsMove ==> w.x == Place(u, bw) && w.y == Place(v, bh)
    ensures w.sign == WellSign(i)
  {
    var x := Place(u, bw);
    var y := Place(v, bh);
    if f.wellsMove then
      Well(x + OrbitX(mf, t, i, bw, bh), y + OrbitY(mf, t, i, bw, bh), WellSign(i))
    else
      Well(x, y, WellSign(i))
  }

  /** Well i of a layout: the one its two draws give. */
  function WellOf(mf: MathFns, t: real, f: ForceSettings, bw: real, bh: real, i: nat): Well
  {
    WellAt(mf, t, f, bw, bh, Draw(f.wellsSeed, 2 * i), Draw(f.wellsSeed, 2 * i + 1), i)
  }

  /** The first k wells of a layout. */
  function WellList(mf: MathFns, t: real, f: ForceSettings, bw: real, bh: real, k: nat): (ws: seq<Well>)
    ensures |ws| == k
  {
    if k == 0 then [] else WellList(mf, t, f, bw, bh, k - 1) + [WellOf(mf, t, f, bw, bh, k - 1)]
  }

  /** The wells `computeWellsPositions` returns. */
  function WellsSpec(mf: MathFns, t: real, f: ForceSettings, bw: real, bh: real): (ws: seq<Well>)
    ensures |ws| == WellsCount(f.wellsCount)
  {
    WellList(mf, t, f, bw, bh, WellsCount(f.wellsCount))
  }

  lemma {:induction false} WellListAt(mf: MathFns, t: real, f: ForceSettings, bw: real, bh: real,
                                      k: nat, i: nat)
    requires i < k
    ensures WellList(mf, t, f, bw, bh, k)[i] == WellOf(mf, t, f, bw, bh, i)
  {
    if i < k - 1 {
      WellListAt(mf, t, f, bw, bh, k - 1, i);
    }
  }

  /** Appending the well built from the next two draws extends the
      layout by one. */
  lemma WellStep(mf: MathFns, t: real, f: ForceSettings, bw: real, bh: real, i: nat,
                 u: real, v: real, x: real, y: real, prev: seq<Well>)
    requires prev == WellList(mf, t, f, bw, bh, i)
    requires u == Draw(f.wellsSeed, 2 * i) && v == Draw(f.wellsSeed, 2 * i + 1)
    requires x == if f.wellsMove then Place(u, bw) + OrbitX(mf, t, i, bw, bh) else Place(u, bw)
    requires y == if f.wellsMove then Place(v, bh) + OrbitY(mf, t, i, bw, bh) else Place(v, bh)
    ensures prev + [Well(x, y, WellSign(i))] == WellList(mf, t, f, bw, bh, i + 1)
  {
  }

  /** The generator loop: two calls per well, the well appended to the
      result. */
  method ComputeWellsPositions(mf: MathFns, t: real, f: ForceSettings, bw: real, bh: real)
    returns (res: seq<Well>)
    ensures res == WellsSpec(mf, t, f, bw, bh)
  {
    var rng := new Lcg(f.wellsSeed);
    var n := WellsCount(f.wellsCount);
    res := [];
    var i := 0;
    while i < n
      invariant 0 <= i <= n
      invariant rng.s == LcgState(f.wellsSeed, 2 * i)
      invariant res == WellList(mf, t, f, bw, bh, i)
    {
      DrawPair(f.wellsSeed, i, rng.s);
      var u := rng.Next();
      var v := rng.Next();
      var x, y := Place(u, bw), Place(v, bh);
      if f.wellsMove {
        x := x + OrbitX(mf, t, i, bw, bh);
        y := y + OrbitY(mf, t, i, bw, bh);
      }
      WellStep(mf, t, f, bw, bh, i, u, v, x, y, res);
      res := res + [Well(x, y, WellSign(i))];
      i := i + 1;
    }
  }

  /** The canvas extent the global-state variant reads: the canvas size
      over the device pixel ratio, or 0 when there is no canvas. */
  function CanvasExtent(hasCanvas: bool, size: real, dpr: real): (b: real)
    ensures !hasCanvas ==> b == 0.0
    ensures hasCanvas && dpr != 0.0 ==> b * dpr == size
  {
    Div(if hasCanvas then Or(size, 0.0) else 0.0, dpr)
  }

  /** The global-state variant: the canvas size is taken from the state. */
  method ComputeWellsFromState(mf: MathFns, t: real, f: ForceSettings, hasCanvas: bool,
                               width: real, height: real, dpr: real)
    returns (res: seq<Well>)
    ensures res == WellsSpec(mf, t, f, CanvasExtent(hasCanvas, width, dpr),
                             CanvasExtent(hasCanvas, height, dpr))
  {
    var bw := CanvasExtent(hasCanvas, width, dpr);
    var bh := CanvasExtent(hasCanvas, height, dpr);
    res := ComputeWellsPositions(mf, t, f, bw, bh);
  }

  // ---------------------------------------------------------------------
  // Properties of a layout
  // ---------------------------------------------------------------------

  /** Signs alternate from +1 at index 0. */
  lemma WellsSigns(mf: MathFns, t: real, f: ForceSettings, bw: real, bh: real, i: nat)
    requires i < WellsCount(f.wellsCount)
    ensures WellsSpec(mf, t, f, bw, bh)[i].sign == (if i % 2 == 0 then 1 else -1)
    ensures i + 1 < WellsCount(f.wellsCount) ==>
              WellsSpec(mf, t, f, bw, bh)[i + 1].sign == -WellsSpec(mf, t, f, bw, bh)[i].sign
  {
    var n := WellsCount(f.wellsCount);
    WellListAt(mf, t, f, bw, bh, n, i);
    if i + 1 < n {
      WellListAt(mf, t, f, bw, bh, n, i + 1);
      SignFlips(i);
    }
  }

  lemma SignFlips(i: nat)
    ensures WellSign(i + 1) == -WellSign(i)
  {
    if i % 2 == 0 {
      assert (i + 1) % 2 == 1;
    } else {
      assert (i + 1) % 2 == 0;
    }
  }

  /** A draw in [0, 1) lands in the middle 70% of a positive extent. */
  lemma PlaceInMiddle(u: real, b: real)
    requires 0.0 <= u < 1.0 && b > 0.0
    ensures 0.15 * b <= Place(u, b) < 0.85 * b
  {
    assert Place(u, b) == 0.15 * b + 0.7 * (u * b);
    MulPositive(1.0 - u, b);
    assert u * b < b by { assert b - u * b == (1.0 - u) * b; }
    if u > 0.0 {
      MulPositive(u, b);
    }
  }

  /** Static wells lie in [0.15 BW, 0.85 BW) x [0.15 BH, 0.85 BH). */
  lemma StaticWellsInMiddle(mf: MathFns, t: real, f: ForceSettings, bw: real, bh: real, i: nat)
    requires !f.wellsMove && bw > 0.0 && bh > 0.0
    requires i < WellsCount(f.wellsCount)
    ensures var w := WellsSpec(mf, t, f, bw, bh)[i];
            0.15 * bw <= w.x < 0.85 * bw && 0.15 * bh <= w.y < 0.85 * bh
  {
    WellListAt(mf, t, f, bw, bh, WellsCount(f.wellsCount), i);
    PlaceInMiddle(Draw(f.wellsSeed, 2 * i), bw);
    PlaceInMiddle(Draw(f.wellsSeed, 2 * i + 1), bh);
  }

  /** Static wells do not depend on the time. */
  lemma {:induction false} StaticWellsTimeless(mf: MathFns, t1: real, t2: real, f: ForceSettings,
                                               bw: real, bh: real, k: nat)
    requires !f.wellsMove
    ensures WellList(mf, t1, f, bw, bh, k) == WellList(mf, t2, f, bw, bh, k)
  {
    if k > 0 {
      StaticWellsTimeless(mf, t1, t2, f, bw, bh, k - 1);
    }
  }

  /** On a zero-sized canvas every well, moving or not, is at (0, 0). */
  lemma ZeroCanvasWellsAtOrigin(mf: MathFns, t: real, f: ForceSettings, i: nat)
    requires i < WellsCount(f.wellsCount)
    ensures WellsSpec(mf, t, f, 0.0, 0.0)[i].x == 0.0
    ensures WellsSpec(mf, t, f, 0.0, 0.0)[i].y == 0.0
  {
    WellListAt(mf, t, f, 0.0, 0.0, WellsCount(f.wellsCount), i);
  }

  /** Without a canvas the global-state variant puts every well at the
      origin. */
  lemma NoCanvasWellsAtOrigin(mf: MathFns, t: real, f: ForceSettings, width: real, height: real,
                              dpr: real, i: nat)
    requires i < WellsCount(f.wellsCount)
    ensures var ws := WellsSpec(mf, t, f, CanvasExtent(false, width, dpr),
                                CanvasExtent(false, height, dpr));
            ws[i].x == 0.0 && ws[i].y == 0.0
  {
    ZeroCanvasWellsAtOrigin(mf, t, f, i);
  }

  /** The wells consume the generator's first 2n values, two per well. */
  lemma {:induction false} WellDraws(seed: real, n: nat, i: nat)
    requires i < n
    ensures Draw(seed, 2 * i) == LcgOutputs(seed, 2 * n)[2 * i]
    ensures Draw(seed, 2 * i + 1) == LcgOutputs(seed, 2 * n)[2 * i + 1]
  {
    LcgOutputsAt(seed, 2 * n, 2 * i);
    LcgOutputsAt(seed, 2 * n, 2 * i + 1);
  }
}
