/** The per-particle boundary policies shared by every copy of
    `handleBoundaries`: the bouncing screen walls, wrap-around, the circular
    and square containers, and the loose teleport used for any other mode.
    Each policy touches only the position and velocity of the particle. */
module WallKernel {
  import opened JsNumber
  import opened Types

  /** What one boundary pass fixes: the (possibly mapped) mode string, the
      canvas size in CSS pixels, the screen-wall restitution, the container
      restitution (0 in one copy, the restitution in the others), the wall
      friction, the container settings, and the copy's fallback for a zero
      distance to the circle centre. */
  datatype Walls = Walls(mode: string, bw: real, bh: real, rest: real, containerRest: real,
                         wf: real, container: Container, circleEps: real)

  /** A particle that differs from `p` at most in position and velocity. */
  predicate MovedOnly(p: Particle, r: Particle)
  {
    r == p.(x := r.x, y := r.y, vx := r.vx, vy := r.vy)
  }

  /** One pair of walls on the x axis at `lo` and `hi`: a particle beyond a
      wall is put back on it, and if it was moving outward its normal
      velocity is reflected and scaled by `e` and its tangential velocity
      scaled by `1 - wf`. */
  function WallX(p: Particle, lo: real, hi: real, e: real, wf: real): (r: Particle)
    ensures MovedOnly(p, r) && r.y == p.y
    ensures lo <= hi ==> lo <= r.x <= hi
    ensures lo <= p.x <= hi ==> r == p
    ensures p.x < lo && p.vx < 0.0 ==> r.vx == -p.vx * e && r.vy == p.vy * (1.0 - wf)
    ensures !(p.x < lo) && p.x > hi && p.vx > 0.0 ==> r.vx == -p.vx * e && r.vy == p.vy * (1.0 - wf)
    ensures (r.vx, r.vy) != (p.vx, p.vy) ==> (p.x < lo && p.vx < 0.0) || (p.x > hi && p.vx > 0.0)
  {
    if p.x < lo then
      var q := p.(x := lo);
      if p.vx < 0.0 then q.(vx := -p.vx * e, vy := p.vy * (1.0 - wf)) else q
    else if p.x > hi then
      var q := p.(x := hi);
      if p.vx > 0.0 then q.(vx := -p.vx * e, vy := p.vy * (1.0 - wf)) else q
    else p
  }

  /** The same pair of walls on the y axis; the tangential velocity is
      then `vx`. */
  function WallY(p: Particle, lo: real, hi: real, e: real, wf: real): (r: Particle)
    ensures MovedOnly(p, r) && r.x == p.x
    ensures lo <= hi ==> lo <= r.y <= hi
    ensures lo <= p.y <= hi ==> r == p
    ensures p.y < lo && p.vy < 0.0 ==> r.vy == -p.vy * e && r.vx == p.vx * (1.0 - wf)
    ensures !(p.y < lo) && p.y > hi && p.vy > 0.0 ==> r.vy == -p.vy * e && r.vx == p.vx * (1.0 - wf)
    ensures (r.vx, r.vy) != (p.vx, p.vy) ==> (p.y < lo && p.vy < 0.0) || (p.y > hi && p.vy > 0.0)
  {
    if p.y < lo then
      var q := p.(y := lo);
      if p.vy < 0.0 then q.(vy := -p.vy * e, vx := p.vx * (1.0 - wf)) else q
    else if p.y > hi then
      var q := p.(y := hi);
      if p.vy > 0.0 then q.(vy := -p.vy * e, vx := p.vx * (1.0 - wf)) else q
    else p
  }

  /** With a non-negative restitution, a particle that hit a wall while
      moving outward leaves it not moving outward. */
  lemma WallXTurnsInward(p: Particle, lo: real, hi: real, e: real, wf: real)
    requires e >= 0.0
    ensures var r := WallX(p, lo, hi, e, wf);
            (p.x < lo ==> r.vx >= 0.0) && (!(p.x < lo) && p.x > hi ==> r.vx <= 0.0)
  {
    if p.vx < 0.0 { NonNegMul(-p.vx, e); }
    if p.vx > 0.0 { NonNegMul(p.vx, e); }
  }

  lemma NonNegMul(a: real, b: real)
    requires a >= 0.0 && b >= 0.0
    ensures a * b >= 0.0
  {
    if a > 0.0 && b > 0.0 { MulPositive(a, b); }
  }

  /** `'screen-bounce'`: the x walls at `r` and `BW - r`, then the y walls
      at `r` and `BH - r`, the y step seeing the velocity the x step left. */
  function ScreenBounce(p: Particle, bw: real, bh: real, rest: real, wf: real): (r: Particle)
    ensures MovedOnly(p, r)
    ensures 2.0 * p.r <= bw ==> p.r <= r.x <= bw - p.r
    ensures 2.0 * p.r <= bh ==> p.r <= r.y <= bh - p.r
    ensures p.r <= p.x <= bw - p.r && p.r <= p.y <= bh - p.r ==> r == p
  {
    WallY(WallX(p, p.r, bw - p.r, rest, wf), p.r, bh - p.r, rest, wf)
  }

  /** `'screen-wrap'`: leaving by one side beyond the radius re-enters on
      the other; the velocity is kept. */
  function ScreenWrap(p: Particle, bw: real, bh: real): (r: Particle)
    ensures r == p.(x := r.x, y := r.y)
    ensures -p.r <= bw + p.r ==> -p.r <= r.x <= bw + p.r
    ensures -p.r <= bh + p.r ==> -p.r <= r.y <= bh + p.r
    ensures p.x < -p.r ==> r.x == bw + p.r
    ensures !(p.x < -p.r) && p.x > bw + p.r ==> r.x == -p.r
    ensures p.y < -p.r ==> r.y == bh + p.r
    ensures !(p.y < -p.r) && p.y > bh + p.r ==> r.y == -p.r
    ensures -p.r <= p.x <= bw + p.r && -p.r <= p.y <= bh + p.r ==> r == p
  {
    var x1 := if p.x < -p.r then bw + p.r else p.x;
    var x2 := if x1 > bw + p.r then -p.r else x1;
    var y1 := if p.y < -p.r then bh + p.r else p.y;
    var y2 := if y1 > bh + p.r then -p.r else y1;
    p.(x := x2, y := y2)
  }

  /** The loose fallback for any other mode: beyond `[-BW, 2*BW]` the
      particle jumps to the opposite end; the velocity is kept. */
  function Teleport(p: Particle, bw: real, bh: real): (r: Particle)
    ensures r == p.(x := r.x, y := r.y)
    ensures bw >= 0.0 ==> -bw <= r.x <= bw * 2.0
    ensures bh >= 0.0 ==> -bh <= r.y <= bh * 2.0
    ensures -bw <= p.x <= bw * 2.0 && -bh <= p.y <= bh * 2.0 ==> r == p
  {
    var x1 := if p.x < -bw then bw * 2.0 else p.x;
    var x2 := if x1 > bw * 2.0 then -bw else x1;
    var y1 := if p.y < -bh then bh * 2.0 else p.y;
    var y2 := if y1 > bh * 2.0 then -bh else y1;
    p.(x := x2, y := y2)
  }

  /** `'container-square'`: the x and y walls of a square of half-size
      `half` around `(cx, cy)`, shrunk by the radius. */
  function Square(p: Particle, cx: real, cy: real, half: real, e: real, wf: real): (r: Particle)
    ensures MovedOnly(p, r)
    ensures half >= p.r ==> cx - half + p.r <= r.x <= cx + half - p.r
    ensures half >= p.r ==> cy - half + p.r <= r.y <= cy + half - p.r
  {
    WallY(WallX(p, cx - half + p.r, cx + half - p.r, e, wf), cy - half + p.r, cy + half - p.r, e, wf)
  }

  /** A particle beyond the left wall of the square is put back on it; if
      it was moving outward and its height is inside the square, its
      normal velocity is reflected and scaled by `e` and its tangential
      velocity scaled by `1 - wf`. */
  lemma SquareLeftWall(p: Particle, cx: real, cy: real, half: real, e: real, wf: real)
    requires p.x < cx - half + p.r
    ensures Square(p, cx, cy, half, e, wf).x == cx - half + p.r
    ensures p.vx < 0.0 && cy - half + p.r <= p.y <= cy + half - p.r ==>
              Square(p, cx, cy, half, e, wf).vx == -p.vx * e
              && Square(p, cx, cy, half, e, wf).vy == p.vy * (1.0 - wf)
  {
    var q := WallX(p, cx - half + p.r, cx + half - p.r, e, wf);
    assert q.r == p.r && q.y == p.y && q.x == cx - half + p.r;
    assert Square(p, cx, cy, half, e, wf) == WallY(q, cy - half + p.r, cy + half - p.r, e, wf);
  }

  /** With a container restitution of 0, hitting a square wall while
      moving outward stops the normal motion. */
  lemma SquareStopsAtWall(p: Particle, cx: real, cy: real, half: real, wf: real)
    ensures var q := WallX(p, cx - half + p.r, cx + half - p.r, 0.0, wf);
            (p.x < cx - half + p.r && p.vx < 0.0 ==> q.vx == 0.0)
            && (!(p.x < cx - half + p.r) && p.x > cx + half - p.r && p.vx > 0.0 ==> q.vx == 0.0)
    ensures var q := WallY(p, cy - half + p.r, cy + half - p.r, 0.0, wf);
            (p.y < cy - half + p.r && p.vy < 0.0 ==> q.vy == 0.0)
            && (!(p.y < cy - half + p.r) && p.y > cy + half - p.r && p.vy > 0.0 ==> q.vy == 0.0)
  {
  }

  /** Subtracting `k` times `b` from `a` subtracts `k` times `b`'s
      component along `c` from `a`'s. */
  lemma ShiftDot(ax: real, ay: real, k: real, ux: real, uy: real, cx: real, cy: real)
    ensures Dot(ax - k * ux, ay - k * uy, cx, cy) == Dot(ax, ay, cx, cy) - k * Dot(ux, uy, cx, cy)
  {
  }

  /** The reflection step at the circular wall: the normal component of
      the velocity is removed `1 + e` times, so against a unit normal the
      normal speed becomes `-e` times what it was and the tangential speed
      is kept. */
  function Reflect(vx: real, vy: real, nx: real, ny: real, e: real): (v: Vec)
    ensures Norm2(nx, ny) == 1.0 ==>
              Dot(v.x, v.y, nx, ny) == -e * Dot(vx, vy, nx, ny)
              && Dot(v.x, v.y, -ny, nx) == Dot(vx, vy, -ny, nx)
  {
    var k := (1.0 + e) * Dot(vx, vy, nx, ny);
    ShiftDot(vx, vy, k, nx, ny, nx, ny);
    ShiftDot(vx, vy, k, nx, ny, -ny, nx);
    assert Dot(nx, ny, -ny, nx) == 0.0;
    Vec(vx - k * nx, vy - k * ny)
  }

  /** The friction step at the circular wall: the tangential component is
      scaled by `1 - wf` and, against a unit normal, the normal speed is
      kept. */
  function Damp(vx: real, vy: real, nx: real, ny: real, wf: real): (v: Vec)
    ensures Norm2(nx, ny) == 1.0 ==>
              Dot(v.x, v.y, nx, ny) == Dot(vx, vy, nx, ny)
              && Dot(v.x, v.y, -ny, nx) == (1.0 - wf) * Dot(vx, vy, -ny, nx)
  {
    var k := Dot(vx, vy, -ny, nx) * wf;
    ShiftDot(vx, vy, k, -ny, nx, nx, ny);
    ShiftDot(vx, vy, k, -ny, nx, -ny, nx);
    assert Dot(-ny, nx, nx, ny) == 0.0;
    assert Dot(-ny, nx, -ny, nx) == Norm2(nx, ny);
    Vec(vx - k * -ny, vy - k * nx)
  }

  /** Both steps: the normal speed becomes `-e` times and the tangential
      speed `1 - wf` times what they were. */
  function ReflectDamp(vx: real, vy: real, nx: real, ny: real, e: real, wf: real): (v: Vec)
    ensures Norm2(nx, ny) == 1.0 ==>
              Dot(v.x, v.y, nx, ny) == -e * Dot(vx, vy, nx, ny)
              && Dot(v.x, v.y, -ny, nx) == (1.0 - wf) * Dot(vx, vy, -ny, nx)
  {
    var v1 := Reflect(vx, vy, nx, ny, e);
    Damp(v1.x, v1.y, nx, ny, wf)
  }

  /** `r` lies exactly `allow` from `(cx, cy)`, and against the unit
      normal `(nx, ny)` its normal speed is `-e` times and its tangential
      speed `1 - wf` times those of `p`. */
  predicate OnRim(p: Particle, r: Particle, cx: real, cy: real, nx: real, ny: real,
                  allow: real, e: real, wf: real)
  {
    Norm2(r.x - cx, r.y - cy) == allow * allow
    && Dot(r.vx, r.vy, nx, ny) == -e * Dot(p.vx, p.vy, nx, ny)
    && Dot(r.vx, r.vy, -ny, nx) == (1.0 - wf) * Dot(p.vx, p.vy, -ny, nx)
  }

  /** Putting a particle that lies at offset `(dx, dy)` from the centre
      `(cx, cy)` back at distance `allow` along that offset scaled by `d`,
      and sending its velocity through `ReflectDamp`.  When `d` is the
      length of the offset, the particle ends exactly `allow` from the
      centre and the normal and tangential speeds are scaled by `-e` and
      `1 - wf`. */
  function Rim(p: Particle, cx: real, cy: real, dx: real, dy: real, d: real, allow: real,
               e: real, wf: real): (r: Particle)
    requires d > 0.0
    ensures MovedOnly(p, r)
    ensures d * d == Norm2(dx, dy) ==> OnRim(p, r, cx, cy, dx / d, dy / d, allow, e, wf)
  {
    var nx, ny := dx / d, dy / d;
    var v := ReflectDamp(p.vx, p.vy, nx, ny, e, wf);
    if d * d == Norm2(dx, dy) then
      UnitDirection(dx, dy, d);
      ScaledNorm(nx, ny, allow);
      assert (cx + nx * allow) - cx == nx * allow && (cy + ny * allow) - cy == ny * allow;
      p.(x := cx + nx * allow, y := cy + ny * allow, vx := v.x, vy := v.y)
    else p.(x := cx + nx * allow, y := cy + ny * allow, vx := v.x, vy := v.y)
  }

  /** The distance from the centre as the circular wall measures it: the
      length of the offset, or `eps` when that is 0. */
  function CircleDist(mf: MathFns, dx: real, dy: real, eps: real): (d: real)
    requires SqrtLaw(mf)
    ensures Norm2(dx, dy) > 0.0 ==> d == Hypot(mf, dx, dy) && d > 0.0 && d * d == Norm2(dx, dy)
    ensures dx == 0.0 && dy == 0.0 ==> d == eps
  {
    HypotFacts(mf, dx, dy);
    Or(Hypot(mf, dx, dy), eps)
  }

  /** `'container-circle'`: a particle farther than `allow = max(2, R - r)`
      from the centre, measured by `CircleDist`, is put back on the rim by
      `Rim`. */
  function Circle(mf: MathFns, p: Particle, cx: real, cy: real, bigR: real,
                  e: real, wf: real, eps: real): (r: Particle)
    requires SqrtLaw(mf)
    ensures MovedOnly(p, r)
    ensures !(CircleDist(mf, p.x - cx, p.y - cy, eps) > Max(2.0, bigR - p.r)) ==> r == p
    ensures eps <= 2.0 && p.x == cx && p.y == cy ==> r == p
    ensures var dx, dy := p.x - cx, p.y - cy;
            var d := CircleDist(mf, dx, dy, eps);
            var allow := Max(2.0, bigR - p.r);
            Norm2(dx, dy) > 0.0 && d > allow ==> OnRim(p, r, cx, cy, dx / d, dy / d, allow, e, wf)
  {
    var dx, dy := p.x - cx, p.y - cy;
    var dist := CircleDist(mf, dx, dy, eps);
    var allow := Max(2.0, bigR - p.r);
    if dist > allow then Rim(p, cx, cy, dx, dy, dist, allow, e, wf) else p
  }

  /** `(dx, dy)/d` has unit length when `d` is the length of `(dx, dy)`. */
  lemma UnitDirection(dx: real, dy: real, d: real)
    requires d > 0.0 && d * d == Norm2(dx, dy)
    ensures Norm2(dx / d, dy / d) == 1.0
  {
    var u, v := dx / d, dy / d;
    QuotientTimes(dx, d);
    QuotientTimes(dy, d);
    assert (u * u) * (d * d) == (u * d) * (u * d);
    assert (v * v) * (d * d) == (v * d) * (v * d);
    assert ((u * u + v * v - 1.0) * d) * d == 0.0;
    ZeroProduct((u * u + v * v - 1.0) * d, d);
    ZeroProduct(u * u + v * v - 1.0, d);
  }

  /** A unit vector scaled by `k` has squared length `k*k`. */
  lemma ScaledNorm(nx: real, ny: real, k: real)
    requires Norm2(nx, ny) == 1.0
    ensures Norm2(nx * k, ny * k) == k * k
  {
    assert Norm2(nx * k, ny * k) == (nx * nx + ny * ny) * (k * k);
  }

  /** The boundary modes the pass distinguishes. */
  datatype WallMode = BounceMode | WrapMode | CircleMode | SquareMode | OtherMode

  /** The mode string as the pass reads it: the four names it knows, and
      anything else. */
  function ModeOf(s: string): (m: WallMode)
    ensures m == BounceMode <==> s == "screen-bounce"
    ensures m == WrapMode <==> s == "screen-wrap"
    ensures m == CircleMode <==> s == "container-circle"
    ensures m == SquareMode <==> s == "container-square"
  {
    if s == "screen-bounce" then BounceMode
    else if s == "screen-wrap" then WrapMode
    else if s == "container-circle" then CircleMode
    else if s == "container-square" then SquareMode
    else OtherMode
  }

  /** The container scaled to the canvas: centre `(cx*BW, cy*BH)`, and
      radius or half-size times `min(BW, BH)/2`. */
  function CentreX(w: Walls): real
  {
    w.container.cx * w.bw
  }

  function CentreY(w: Walls): real
  {
    w.container.cy * w.bh
  }

  function CircleRadius(w: Walls): real
  {
    w.container.radiusN * (Min(w.bw, w.bh) / 2.0)
  }

  function SquareHalf(w: Walls): real
  {
    w.container.sizeN * (Min(w.bw, w.bh) / 2.0)
  }

  /** One particle through the pass's policy.  The mode string is taken as
      given: a copy that first maps `'bounce'` and `'wrap'` passes the
      mapped string.  The container is scaled to the canvas: centre
      `(cx*BW, cy*BH)`, radius or half-size times `min(BW, BH)/2`. */
  function Boundary(mf: MathFns, w: Walls, p: Particle): (r: Particle)
    requires SqrtLaw(mf)
    ensures MovedOnly(p, r)
    ensures ModeOf(w.mode) == BounceMode ==> r == ScreenBounce(p, w.bw, w.bh, w.rest, w.wf)
    ensures ModeOf(w.mode) == WrapMode ==> r == ScreenWrap(p, w.bw, w.bh)
    ensures ModeOf(w.mode) == CircleMode ==>
              r == Circle(mf, p, CentreX(w), CentreY(w), CircleRadius(w), w.containerRest, w.wf, w.circleEps)
    ensures ModeOf(w.mode) == SquareMode ==>
              r == Square(p, CentreX(w), CentreY(w), SquareHalf(w), w.containerRest, w.wf)
    ensures ModeOf(w.mode) == OtherMode ==> r == Teleport(p, w.bw, w.bh)
  {
    match ModeOf(w.mode)
    case BounceMode => ScreenBounce(p, w.bw, w.bh, w.rest, w.wf)
    case WrapMode => ScreenWrap(p, w.bw, w.bh)
    case CircleMode =>
      Circle(mf, p, CentreX(w), CentreY(w), CircleRadius(w), w.containerRest, w.wf, w.circleEps)
    case SquareMode =>
      Square(p, CentreX(w), CentreY(w), SquareHalf(w), w.containerRest, w.wf)
    case OtherMode => Teleport(p, w.bw, w.bh)
  }
}
