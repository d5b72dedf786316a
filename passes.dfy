/** A pass over the first n particles of a flat buffer that replaces each
    particle's motion slots (and, for some passes, its heat slot) by a
    per-particle rule applied to what the particle held before the pass.
    The boundary and integration passes are of this kind: no particle's new
    state depends on another's. */
module BufferPass {
  import opened Types
  import opened PhysicsUtils

  /** Every particle below n rewritten by `f` in X, Y, VX and VY. */
  function MapMotion(f: Particle -> Particle, s: seq<real>, n: int): (t: seq<real>)
    requires 0 <= n && n * 8 <= |s|
    ensures |t| == |s|
  {
    if n == 0 then s
    else WithMotion(MapMotion(f, s, n - 1), n - 1, f(Rec(s, n - 1)))
  }

  /** Every particle below n rewritten by `f` in X, Y, VX, VY and HEAT. */
  function MapMotionHeat(f: Particle -> Particle, s: seq<real>, n: int): (t: seq<real>)
    requires 0 <= n && n * 8 <= |s|
    ensures |t| == |s|
  {
    if n == 0 then s
    else WithMotionHeat(MapMotionHeat(f, s, n - 1), n - 1, f(Rec(s, n - 1)))
  }

  /** After the pass, particle k below n holds `f`'s position and velocity
      with its radius, masses and heat as before. */
  lemma {:induction false} MapMotionRec(f: Particle -> Particle, s: seq<real>, n: int, k: int)
    requires 0 <= k < n && n * 8 <= |s|
    ensures Holds(s, k)
    ensures var q := f(Rec(s, k));
            Rec(MapMotion(f, s, n), k) == Rec(s, k).(x := q.x, y := q.y, vx := q.vx, vy := q.vy)
  {
    var prev := MapMotion(f, s, n - 1);
    if k == n - 1 {
      MapMotionTail(f, s, n - 1, k);
    } else {
      MapMotionRec(f, s, n - 1, k);
    }
    WithMotionRec(prev, n - 1, f(Rec(s, n - 1)), k);
  }

  /** The same for a pass that also writes the heat slot. */
  lemma {:induction false} MapMotionHeatRec(f: Particle -> Particle, s: seq<real>, n: int, k: int)
    requires 0 <= k < n && n * 8 <= |s|
    ensures Holds(s, k)
    ensures var q := f(Rec(s, k));
            Rec(MapMotionHeat(f, s, n), k)
            == Rec(s, k).(x := q.x, y := q.y, vx := q.vx, vy := q.vy, heat := q.heat)
  {
    var prev := MapMotionHeat(f, s, n - 1);
    if k == n - 1 {
      MapMotionHeatTail(f, s, n - 1, k);
    } else {
      MapMotionHeatRec(f, s, n - 1, k);
    }
    WithMotionHeatRec(prev, n - 1, f(Rec(s, n - 1)), k);
  }

  /** Particles from n on are untouched by a pass over the first n. */
  lemma {:induction false} MapMotionTail(f: Particle -> Particle, s: seq<real>, n: int, k: int)
    requires 0 <= n <= k && n * 8 <= |s| && Holds(s, k)
    ensures Rec(MapMotion(f, s, n), k) == Rec(s, k)
  {
    if n > 0 {
      MapMotionTail(f, s, n - 1, k);
      WithMotionRec(MapMotion(f, s, n - 1), n - 1, f(Rec(s, n - 1)), k);
    }
  }

  lemma {:induction false} MapMotionHeatTail(f: Particle -> Particle, s: seq<real>, n: int, k: int)
    requires 0 <= n <= k && n * 8 <= |s| && Holds(s, k)
    ensures Rec(MapMotionHeat(f, s, n), k) == Rec(s, k)
  {
    if n > 0 {
      MapMotionHeatTail(f, s, n - 1, k);
      WithMotionHeatRec(MapMotionHeat(f, s, n - 1), n - 1, f(Rec(s, n - 1)), k);
    }
  }

  /** Writing back particle i, read from the buffer after i steps,
      takes the pass one step further. */
  lemma MapMotionStep(f: Particle -> Particle, s: seq<real>, i: int, cur: seq<real>, next: seq<real>)
    requires 0 <= i && i * 8 + 8 <= |s| && cur == MapMotion(f, s, i)
    requires next == WithMotion(cur, i, f(Rec(cur, i)))
    ensures next == MapMotion(f, s, i + 1)
  {
    MapMotionTail(f, s, i, i);
  }

  lemma MapMotionHeatStep(f: Particle -> Particle, s: seq<real>, i: int, cur: seq<real>, next: seq<real>)
    requires 0 <= i && i * 8 + 8 <= |s| && cur == MapMotionHeat(f, s, i)
    requires next == WithMotionHeat(cur, i, f(Rec(cur, i)))
    ensures next == MapMotionHeat(f, s, i + 1)
  {
    MapMotionHeatTail(f, s, i, i);
  }

  /** The loop shared by the per-particle passes: particle i is read,
      sent through `f` and its motion slots written back, for i from 0 up
      to n. */
  method ApplyMotion(a: array<real>, n: int, f: Particle -> Particle)
    requires 0 <= n && n * 8 <= a.Length
    modifies a
    ensures a[..] == MapMotion(f, old(a[..]), n)
  {
    ghost var s := a[..];
    var i := 0;
    while i < n
      invariant 0 <= i <= n
      invariant a[..] == MapMotion(f, s, i)
    {
      ghost var cur := a[..];
      var p := Rec(a[..], i);
      StoreMotion(a, i, f(p));
      MapMotionStep(f, s, i, cur, a[..]);
      i := i + 1;
    }
  }

  /** The same loop for passes that also write the heat slot. */
  method ApplyMotionHeat(a: array<real>, n: int, f: Particle -> Particle)
    requires 0 <= n && n * 8 <= a.Length
    modifies a
    ensures a[..] == MapMotionHeat(f, old(a[..]), n)
  {
    ghost var s := a[..];
    var i := 0;
    while i < n
      invariant 0 <= i <= n
      invariant a[..] == MapMotionHeat(f, s, i)
    {
      ghost var cur := a[..];
      var p := Rec(a[..], i);
      StoreMotionHeat(a, i, f(p));
      MapMotionHeatStep(f, s, i, cur, a[..]);
      i := i + 1;
    }
  }

  /** Reads particle i from the buffer. */
  method Load(a: array<real>, i: int) returns (p: Particle)
    requires Holds(a[..], i)
    ensures p == Rec(a[..], i)
  {
    var base := i * 8;
    p := Particle(a[base + X], a[base + Y], a[base + VX], a[base + VY],
                  a[base + R], a[base + M], a[base + INV_M], a[base + HEAT], "");
  }
}
