/** Resolution of one overlapping particle pair, shared by every copy of
    `handleCollisions`: the contact normal (with the copy's policy for
    near-coincident pairs), the equal-and-opposite positional correction,
    the soft damping step, and the normal-plus-friction impulse with the
    heat gain. */
module ContactKernel {
  import opened JsNumber
  import opened Types

  /** How a copy picks the normal when the two centres (nearly) coincide:
      the fixed `(1,0)`, a normalised random vector, or the `|| eps`
      fallback that leaves a zero normal for an exact coincidence. */
  datatype NormalPolicy = FixedUnitX | RandomUnit | OrZero

  /** A contact: the unit normal from the first particle to the second and
      the distance used for the overlap. */
  datatype Contact = Contact(nx: real, ny: real, d: real)

  /** What the collision settings fix for a whole pass. */
  datatype ContactParams = ContactParams(
    mode: string, rest: real, softness: real, friction: real,
    heatMode: bool, clampImpulse: bool, tanEps: real)

  /** Largest normal impulse magnitude where the impulse is clamped. */
  const IMPULSE_LIMIT: real := 100.0
  /** Largest heat a collision leaves. */
  const HEAT_MAX: real := 1.2

  /** The restitution a pass uses: the physics restitution, scaled by
      `1 - inelasticity` in `'inelastic'` mode. */
  function Restitution(restitution: real, mode: string, inelasticity: real): (e: real)
    ensures mode != "inelastic" ==> e == restitution
    ensures mode == "inelastic" && inelasticity == 1.0 ==> e == 0.0
  {
    restitution * (if mode == "inelastic" then 1.0 - inelasticity else 1.0)
  }

  /** Whether two particles overlap or touch: squared distance at most the
      squared sum of radii. */
  predicate Overlaps(p: Particle, q: Particle)
  {
    Norm2(q.x - p.x, q.y - p.y) <= (p.r + q.r) * (p.r + q.r)
  }

  /** `(dx, dy)/d` has unit length when `d` is the length of `(dx, dy)`. */
  lemma UnitDirection(dx: real, dy: real, d: real)
    requires d > 0.0 && d * d == Norm2(dx, dy)
    ensures Norm2(dx / d, dy / d) == 1.0
  {
    QuotientTimes(dx, d);
    QuotientTimes(dy, d);
    UnitScaled(dx / d, dy / d, d, dx, dy);
  }

  /** `(u, v)` has unit length when `d > 0` scales it to `(dx, dy)` of
      length `d`. */
  lemma UnitScaled(u: real, v: real, d: real, dx: real, dy: real)
    requires d > 0.0 && u * d == dx && v * d == dy && d * d == dx * dx + dy * dy
    ensures u * u + v * v == 1.0
  {
    assert (u * u) * (d * d) == (u * d) * (u * d);
    assert (v * v) * (d * d) == (v * d) * (v * d);
    assert ((u * u + v * v - 1.0) * d) * d == 0.0;
    ZeroProduct((u * u + v * v - 1.0) * d, d);
    ZeroProduct(u * u + v * v - 1.0, d);
  }

  /** The contact normal for centres `(dx, dy)` apart; `eps` is the copy's
      near-coincidence threshold and `u1`, `u2` are the two `Math.random()`
      draws the random policy consumes.  Away from coincidence every policy
      takes the direction of `(dx, dy)` and its length. */
  function ContactNormal(policy: NormalPolicy, mf: MathFns, dx: real, dy: real,
                         eps: real, u1: real, u2: real): (c: Contact)
    requires SqrtLaw(mf) && eps > 0.0
    ensures c.d > 0.0
    ensures policy != OrZero ==> c.d >= eps
    ensures Hypot(mf, dx, dy) >= eps ==>
              c.d == Hypot(mf, dx, dy) && c.nx * c.d == dx && c.ny * c.d == dy
    ensures policy == FixedUnitX && Hypot(mf, dx, dy) < eps ==> c == Contact(1.0, 0.0, eps)
    ensures policy == OrZero && dx == 0.0 && dy == 0.0 ==> c == Contact(0.0, 0.0, eps)
    ensures policy == FixedUnitX ==> Norm2(c.nx, c.ny) == 1.0
    ensures policy == OrZero && Norm2(dx, dy) > 0.0 ==> Norm2(c.nx, c.ny) == 1.0
    ensures policy == RandomUnit && Norm2(u1 * 2.0 - 1.0, u2 * 2.0 - 1.0) > 0.0 ==> Norm2(c.nx, c.ny) == 1.0
  {
    if policy == OrZero then OrZeroNormal(mf, dx, dy, eps)
    else ThresholdNormal(policy == FixedUnitX, mf, dx, dy, eps, u1, u2)
  }

  /** The `|| eps` policy: the length falls back to `eps` only when the
      centres coincide, and the direction is then `(0, 0)`. */
  function OrZeroNormal(mf: MathFns, dx: real, dy: real, eps: real): (c: Contact)
    requires SqrtLaw(mf) && eps > 0.0
    ensures c.d > 0.0
    ensures Hypot(mf, dx, dy) > 0.0 ==>
              c.d == Hypot(mf, dx, dy) && c.nx * c.d == dx && c.ny * c.d == dy
    ensures dx == 0.0 && dy == 0.0 ==> c == Contact(0.0, 0.0, eps)
    ensures Norm2(dx, dy) > 0.0 ==> Norm2(c.nx, c.ny) == 1.0
  {
    var h := Hypot(mf, dx, dy);
    HypotFacts(mf, dx, dy);
    var d := Or(h, eps);
    if Norm2(dx, dy) > 0.0 then
      UnitDirection(dx, dy, d);
      QuotientTimes(dx, d);
      QuotientTimes(dy, d);
      Contact(dx / d, dy / d, d)
    else Contact(dx / d, dy / d, d)
  }

  /** The threshold policies: below `eps` the normal is `(1, 0)` or a
      random unit vector, and the length is `eps`. */
  function ThresholdNormal(fixed: bool, mf: MathFns, dx: real, dy: real,
                           eps: real, u1: real, u2: real): (c: Contact)
    requires SqrtLaw(mf) && eps > 0.0
    ensures c.d >= eps
    ensures Hypot(mf, dx, dy) >= eps ==>
              c.d == Hypot(mf, dx, dy) && c.nx * c.d == dx && c.ny * c.d == dy
    ensures fixed && Hypot(mf, dx, dy) < eps ==> c == Contact(1.0, 0.0, eps)
    ensures Hypot(mf, dx, dy) >= eps || fixed || Norm2(u1 * 2.0 - 1.0, u2 * 2.0 - 1.0) > 0.0 ==>
              Norm2(c.nx, c.ny) == 1.0
  {
    var h := Hypot(mf, dx, dy);
    HypotFacts(mf, dx, dy);
    if h >= eps then
      UnitDirection(dx, dy, h);
      QuotientTimes(dx, h);
      QuotientTimes(dy, h);
      Contact(dx / h, dy / h, h)
    else if fixed then
      Contact(1.0, 0.0, eps)
    else
      RandomNormal(mf, u1, u2, eps)
  }

  /** The random normal: two draws mapped to [-1, 1) and normalised, with
      the `|| 1e-4` fallback for their length. */
  function RandomNormal(mf: MathFns, u1: real, u2: real, eps: real): (c: Contact)
    requires SqrtLaw(mf)
    ensures c.d == eps
    ensures Norm2(u1 * 2.0 - 1.0, u2 * 2.0 - 1.0) > 0.0 ==> Norm2(c.nx, c.ny) == 1.0
  {
    var a, b := u1 * 2.0 - 1.0, u2 * 2.0 - 1.0;
    HypotFacts(mf, a, b);
    var l := Or(Hypot(mf, a, b), 0.0001);
    if Norm2(a, b) > 0.0 then
      UnitDirection(a, b, l);
      Contact(a / l, b / l, eps)
    else Contact(a / l, b / l, eps)
  }

  /** Moves the first particle by `-amount` and the second by `+amount`
      along the normal. */
  function Separate(p: Particle, q: Particle, c: Contact, amount: real): (r: (Particle, Particle))
    ensures r.0.x + r.1.x == p.x + q.x && r.0.y + r.1.y == p.y + q.y
    ensures r.0 == p.(x := r.0.x, y := r.0.y) && r.1 == q.(x := r.1.x, y := r.1.y)
    ensures (r.1.x - r.0.x) - (q.x - p.x) == 2.0 * (c.nx * amount)
    ensures (r.1.y - r.0.y) - (q.y - p.y) == 2.0 * (c.ny * amount)
    ensures MomentumX(r.0, r.1) == MomentumX(p, q) && MomentumY(r.0, r.1) == MomentumY(p, q)
  {
    (p.(x := p.x - c.nx * amount, y := p.y - c.ny * amount),
     q.(x := q.x + c.nx * amount, y := q.y + c.ny * amount))
  }

  /** The velocity of the second particle relative to the first, along
      `(ux, uy)`. */
  function RelSpeed(p: Particle, q: Particle, ux: real, uy: real): real
  {
    Dot(q.vx - p.vx, q.vy - p.vy, ux, uy)
  }

  /** Mass-weighted momentum of a pair, per axis. */
  function MomentumX(p: Particle, q: Particle): real
  {
    p.m * p.vx + q.m * q.vx
  }

  function MomentumY(p: Particle, q: Particle): real
  {
    p.m * p.vy + q.m * q.vy
  }

  /** The soft velocity step: both particles are nudged along the normal
      by `(1+rest)/2` of the normal speed, split in inverse proportion to
      the masses.  It conserves momentum, and with a unit normal and a
      non-zero total mass it leaves `(1-rest)/2` of the normal speed. */
  function SoftVelocities(p: Particle, q: Particle, c: Contact, rest: real): (r: (Particle, Particle))
    ensures r.0 == p.(vx := r.0.vx, vy := r.0.vy) && r.1 == q.(vx := r.1.vx, vy := r.1.vy)
    ensures MomentumX(r.0, r.1) == MomentumX(p, q) && MomentumY(r.0, r.1) == MomentumY(p, q)
    ensures Norm2(c.nx, c.ny) == 1.0 && p.m + q.m != 0.0 ==>
              RelSpeed(r.0, r.1, c.nx, c.ny) == RelSpeed(p, q, c.nx, c.ny) * (1.0 - rest) / 2.0
  {
    var vn := RelSpeed(p, q, c.nx, c.ny);
    var damp := (1.0 + rest) * 0.5 * vn;
    var inv := Div(1.0, p.m + q.m);
    var kx, ky := c.nx * damp * inv, c.ny * damp * inv;
    var r := (p.(vx := p.vx + kx * q.m, vy := p.vy + ky * q.m),
              q.(vx := q.vx - kx * p.m, vy := q.vy - ky * p.m));
    SoftMomentum(p, q, r.0, r.1, kx, ky);
    assert p.m + q.m != 0.0 ==> inv * (p.m + q.m) == 1.0;
    if Norm2(c.nx, c.ny) == 1.0 && p.m + q.m != 0.0 then
      SoftNormalSpeed(p.vx, p.vy, q.vx, q.vy, c.nx, c.ny, p.m, q.m, rest, inv);
      r
    else r
  }

  /** Moving the first velocity by `k` times the second mass and the
      second by `-k` times the first mass keeps the momentum. */
  lemma SoftMomentum(p: Particle, q: Particle, a: Particle, b: Particle, kx: real, ky: real)
    requires a.m == p.m && b.m == q.m
    requires a.vx == p.vx + kx * q.m && b.vx == q.vx - kx * p.m
    requires a.vy == p.vy + ky * q.m && b.vy == q.vy - ky * p.m
    ensures MomentumX(a, b) == MomentumX(p, q) && MomentumY(a, b) == MomentumY(p, q)
  {
    assert p.m * (kx * q.m) == q.m * (kx * p.m);
    assert p.m * (ky * q.m) == q.m * (ky * p.m);
  }

  /** The soft step's effect on the normal speed, on scalars: moving the
      first velocity by `k*mq` and the second by `-k*mp` per axis, with
      `k = n*damp*inv`, `inv = 1/(mp+mq)` and a unit `n`, subtracts `damp`
      from the normal speed. */
  lemma SoftNormalSpeed(pvx: real, pvy: real, qvx: real, qvy: real, nx: real, ny: real,
                        mp: real, mq: real, rest: real, inv: real)
    requires Norm2(nx, ny) == 1.0 && inv * (mp + mq) == 1.0
    ensures var vn := Dot(qvx - pvx, qvy - pvy, nx, ny);
            var damp := (1.0 + rest) * 0.5 * vn;
            Dot((qvx - nx * damp * inv * mp) - (pvx + nx * damp * inv * mq),
                (qvy - ny * damp * inv * mp) - (pvy + ny * damp * inv * mq), nx, ny)
            == vn * (1.0 - rest) / 2.0
  {
    var vn := Dot(qvx - pvx, qvy - pvy, nx, ny);
    var damp := (1.0 + rest) * 0.5 * vn;
    var k := damp * inv;
    assert Dot((qvx - nx * damp * inv * mp) - (pvx + nx * damp * inv * mq),
               (qvy - ny * damp * inv * mp) - (pvy + ny * damp * inv * mq), nx, ny)
           == vn - k * (mp + mq) * (nx * nx + ny * ny);
    assert k * (mp + mq) == damp;
  }

  /** The normal impulse: `-(1+rest)*vn` over the sum of inverse masses,
      cut to [-100, 100] in the copies that clamp it. */
  function NormalImpulse(cp: ContactParams, p: Particle, q: Particle, vn: real): (j: real)
    ensures cp.clampImpulse ==> -IMPULSE_LIMIT <= j <= IMPULSE_LIMIT
    ensures !cp.clampImpulse && p.m > 0.0 && q.m > 0.0 && p.m * p.invM == 1.0 && q.m * q.invM == 1.0 ==>
              j * (p.invM + q.invM) == -(1.0 + cp.rest) * vn
  {
    var raw := Div(-(1.0 + cp.rest) * vn, Div(1.0, p.m) + Div(1.0, q.m));
    if cp.clampImpulse then Max(-IMPULSE_LIMIT, Min(IMPULSE_LIMIT, raw))
    else if p.m > 0.0 && q.m > 0.0 && p.m * p.invM == 1.0 && q.m * q.invM == 1.0 then
      InverseOfMass(p.m, p.invM);
      InverseOfMass(q.m, q.invM);
      raw
    else raw
  }

  lemma InverseOfMass(m: real, invM: real)
    requires m > 0.0 && m * invM == 1.0
    ensures invM > 0.0 && Div(1.0, m) == invM
  {
    if invM < 0.0 {
      MulPositive(m, -invM);
    }
    assert Div(1.0, m) * m == invM * m;
    CancelFactor(Div(1.0, m), invM, m);
  }

  /** The unit tangent: the relative velocity `(rvx, rvy)` minus its
      normal part `vn`, normalised with the copy's `|| eps` fallback. */
  function Tangent(mf: MathFns, rvx: real, rvy: real, vn: real, c: Contact, tanEps: real): (t: Vec)
    ensures Norm2(c.nx, c.ny) == 1.0 && vn == Dot(rvx, rvy, c.nx, c.ny) ==> Dot(t.x, t.y, c.nx, c.ny) == 0.0
  {
    var tvx, tvy := rvx - vn * c.nx, rvy - vn * c.ny;
    var tlen := Or(Hypot(mf, tvx, tvy), tanEps);
    if tlen == 0.0 then Zero
    else
      OrthogonalTangent(rvx, rvy, vn, c.nx, c.ny, tlen);
      Vec(tvx / tlen, tvy / tlen)
  }

  lemma OrthogonalTangent(rvx: real, rvy: real, vn: real, nx: real, ny: real, tlen: real)
    requires tlen != 0.0
    ensures Norm2(nx, ny) == 1.0 && vn == Dot(rvx, rvy, nx, ny) ==>
              Dot((rvx - vn * nx) / tlen, (rvy - vn * ny) / tlen, nx, ny) == 0.0
  {
    if Norm2(nx, ny) == 1.0 && vn == Dot(rvx, rvy, nx, ny) {
      var tx, ty := (rvx - vn * nx) / tlen, (rvy - vn * ny) / tlen;
      QuotientTimes(rvx - vn * nx, tlen);
      QuotientTimes(rvy - vn * ny, tlen);
      assert (rvx - vn * nx) * nx + (rvy - vn * ny) * ny == vn - vn * (nx * nx + ny * ny);
      assert (tx * nx + ty * ny) * tlen == (tx * tlen) * nx + (ty * tlen) * ny;
      ZeroProduct(tx * nx + ty * ny, tlen);
    }
  }

  /** A heat value raised by `loss` and kept in [0, 1.2]. */
  function HeatUp(heat: real, loss: real): (h: real)
    ensures 0.0 <= h <= HEAT_MAX
    ensures 0.0 <= heat + loss <= HEAT_MAX ==> h == heat + loss
  {
    Max(0.0, Min(HEAT_MAX, heat + loss))
  }

  /** Applies the impulse `k` along the direction `(ux, uy)`: subtracted
      from the first particle and added to the second, each scaled by its
      inverse mass.  With `invM = 1/m` for both it conserves momentum. */
  function Kick(p: Particle, q: Particle, ux: real, uy: real, k: real): (r: (Particle, Particle))
    ensures r.0 == p.(vx := r.0.vx, vy := r.0.vy) && r.1 == q.(vx := r.1.vx, vy := r.1.vy)
    ensures p.m * p.invM == 1.0 && q.m * q.invM == 1.0 ==>
              MomentumX(r.0, r.1) == MomentumX(p, q) && MomentumY(r.0, r.1) == MomentumY(p, q)
  {
    var ix, iy := ux * k, uy * k;
    KickMomentum(p.m, p.invM, q.m, q.invM, p.vx, q.vx, ix);
    KickMomentum(p.m, p.invM, q.m, q.invM, p.vy, q.vy, iy);
    (p.(vx := p.vx - ix * p.invM, vy := p.vy - iy * p.invM),
     q.(vx := q.vx + ix * q.invM, vy := q.vy + iy * q.invM))
  }

  lemma KickMomentum(mp: real, ip: real, mq: real, iq: real, vp: real, vq: real, i: real)
    ensures mp * ip == 1.0 && mq * iq == 1.0 ==>
              mp * (vp - i * ip) + mq * (vq + i * iq) == mp * vp + mq * vq
  {
    if mp * ip == 1.0 && mq * iq == 1.0 {
      assert mp * (i * ip) == i * (mp * ip);
      assert mq * (i * iq) == i * (mq * iq);
    }
  }

  /** A kick along `(ux, uy)` changes the relative speed along any
      direction `(wx, wy)` by the impulse times the summed inverse masses
      times the cosine term `u . w`. */
  lemma KickEffect(p: Particle, q: Particle, ux: real, uy: real, k: real, wx: real, wy: real)
    ensures RelSpeed(Kick(p, q, ux, uy, k).0, Kick(p, q, ux, uy, k).1, wx, wy)
            == RelSpeed(p, q, wx, wy) + k * (p.invM + q.invM) * (ux * wx + uy * wy)
  {
  }

  /** The elastic/inelastic velocity change: the normal impulse, then the
      friction impulse along the tangent. */
  function TwoKicks(p: Particle, q: Particle, c: Contact, jimp: real, t: Vec, friction: real): (r: (Particle, Particle))
    ensures r.0 == p.(vx := r.0.vx, vy := r.0.vy) && r.1 == q.(vx := r.1.vx, vy := r.1.vy)
    ensures p.m * p.invM == 1.0 && q.m * q.invM == 1.0 ==>
              MomentumX(r.0, r.1) == MomentumX(p, q) && MomentumY(r.0, r.1) == MomentumY(p, q)
  {
    var n1 := Kick(p, q, c.nx, c.ny, jimp);
    Kick(n1.0, n1.1, t.x, t.y, -friction * jimp)
  }

  /** With a unit normal and a tangent orthogonal to it, only the normal
      impulse changes the normal speed, by `jimp` times the summed inverse
      masses. */
  lemma TwoKicksNormalSpeed(p: Particle, q: Particle, c: Contact, jimp: real, t: Vec, friction: real)
    requires Norm2(c.nx, c.ny) == 1.0 && Dot(t.x, t.y, c.nx, c.ny) == 0.0
    ensures RelSpeed(TwoKicks(p, q, c, jimp, t, friction).0, TwoKicks(p, q, c, jimp, t, friction).1, c.nx, c.ny)
            == RelSpeed(p, q, c.nx, c.ny) + jimp * (p.invM + q.invM)
  {
    var n1 := Kick(p, q, c.nx, c.ny, jimp);
    KickEffect(p, q, c.nx, c.ny, jimp, c.nx, c.ny);
    KickEffect(n1.0, n1.1, t.x, t.y, -friction * jimp, c.nx, c.ny);
  }

  /** The collision heat in the `'heat'` colour mode: both particles gain
      `loss`, each kept in [0, 1.2]; only the heat changes. */
  function Heat(heatMode: bool, r: (Particle, Particle), loss: real): (h: (Particle, Particle))
    ensures h.0 == r.0.(heat := h.0.heat) && h.1 == r.1.(heat := h.1.heat)
    ensures !heatMode ==> h == r
    ensures heatMode ==> 0.0 <= h.0.heat <= HEAT_MAX && 0.0 <= h.1.heat <= HEAT_MAX
  {
    if heatMode then (r.0.(heat := HeatUp(r.0.heat, loss)), r.1.(heat := HeatUp(r.1.heat, loss)))
    else r
  }

  /** With the unclamped impulse and positive masses whose inverse masses
      are exact, the normal impulse reverses the normal speed and scales it
      by the restitution. */
  lemma Restitutes(vn: real, jimp: real, invSum: real, rest: real, after: real)
    requires jimp * invSum == -(1.0 + rest) * vn
    requires after == vn + jimp * invSum
    ensures after == -rest * vn
  {
  }

  /** The impulse step of the elastic and inelastic modes.  Nothing changes
      unless the pair approaches (`vn < 0`). */
  function Impulse(cp: ContactParams, mf: MathFns, p: Particle, q: Particle, c: Contact): (r: (Particle, Particle))
    requires SqrtLaw(mf)
    ensures RelSpeed(p, q, c.nx, c.ny) >= 0.0 ==> r == (p, q)
    ensures RelSpeed(p, q, c.nx, c.ny) < 0.0 ==> r == Approach(cp, mf, p, q, c)
    ensures r.0 == p.(vx := r.0.vx, vy := r.0.vy, heat := r.0.heat)
    ensures r.1 == q.(vx := r.1.vx, vy := r.1.vy, heat := r.1.heat)
    ensures p.m * p.invM == 1.0 && q.m * q.invM == 1.0 ==>
              MomentumX(r.0, r.1) == MomentumX(p, q) && MomentumY(r.0, r.1) == MomentumY(p, q)
    ensures !cp.heatMode ==> r.0.heat == p.heat && r.1.heat == q.heat
    ensures 0.0 <= p.heat <= HEAT_MAX && 0.0 <= q.heat <= HEAT_MAX ==>
              0.0 <= r.0.heat <= HEAT_MAX && 0.0 <= r.1.heat <= HEAT_MAX
  {
    if !(RelSpeed(p, q, c.nx, c.ny) < 0.0) then (p, q) else Approach(cp, mf, p, q, c)
  }

  /** The velocity and heat change of an approaching pair: the impulses,
      then the collision heat from the normal speed lost. */
  function Approach(cp: ContactParams, mf: MathFns, p: Particle, q: Particle, c: Contact): (r: (Particle, Particle))
    requires SqrtLaw(mf)
    ensures r.0 == p.(vx := r.0.vx, vy := r.0.vy, heat := r.0.heat)
    ensures r.1 == q.(vx := r.1.vx, vy := r.1.vy, heat := r.1.heat)
    ensures p.m * p.invM == 1.0 && q.m * q.invM == 1.0 ==>
              MomentumX(r.0, r.1) == MomentumX(p, q) && MomentumY(r.0, r.1) == MomentumY(p, q)
    ensures !cp.heatMode ==> r.0.heat == p.heat && r.1.heat == q.heat
    ensures cp.heatMode ==> 0.0 <= r.0.heat <= HEAT_MAX && 0.0 <= r.1.heat <= HEAT_MAX
  {
    var k := Kicked(cp, mf, p, q, c);
    var r := Heat(cp.heatMode, k, (1.0 - cp.rest) * Abs(RelSpeed(p, q, c.nx, c.ny)) * 0.02);
    HeatKeepsMotion(k, r, c.nx, c.ny);
    r
  }

  /** Changing only the heat changes neither momentum nor relative speed. */
  lemma HeatKeepsMotion(k: (Particle, Particle), r: (Particle, Particle), nx: real, ny: real)
    requires r.0 == k.0.(heat := r.0.heat) && r.1 == k.1.(heat := r.1.heat)
    ensures MomentumX(r.0, r.1) == MomentumX(k.0, k.1) && MomentumY(r.0, r.1) == MomentumY(k.0, k.1)
    ensures RelSpeed(r.0, r.1, nx, ny) == RelSpeed(k.0, k.1, nx, ny)
  {
  }

  /** The normal impulse along the contact normal followed by the friction
      impulse along the tangent.  With `invM = 1/m` for both they conserve
      momentum. */
  function Kicked(cp: ContactParams, mf: MathFns, p: Particle, q: Particle, c: Contact): (r: (Particle, Particle))
    requires SqrtLaw(mf)
    ensures r.0 == p.(vx := r.0.vx, vy := r.0.vy) && r.1 == q.(vx := r.1.vx, vy := r.1.vy)
    ensures p.m * p.invM == 1.0 && q.m * q.invM == 1.0 ==>
              MomentumX(r.0, r.1) == MomentumX(p, q) && MomentumY(r.0, r.1) == MomentumY(p, q)
  {
    var vn := RelSpeed(p, q, c.nx, c.ny);
    var jimp := NormalImpulse(cp, p, q, vn);
    var t := Tangent(mf, q.vx - p.vx, q.vy - p.vy, vn, c, cp.tanEps);
    TwoKicks(p, q, c, jimp, t, cp.friction)
  }

  /** With a unit normal, the friction impulse leaves the normal speed
      alone: it changes by the normal impulse times the summed inverse
      masses only. */
  lemma KickedNormalSpeed(cp: ContactParams, mf: MathFns, p: Particle, q: Particle, c: Contact)
    requires SqrtLaw(mf) && Norm2(c.nx, c.ny) == 1.0
    ensures var r := Kicked(cp, mf, p, q, c);
            var vn := RelSpeed(p, q, c.nx, c.ny);
            RelSpeed(r.0, r.1, c.nx, c.ny) == vn + NormalImpulse(cp, p, q, vn) * (p.invM + q.invM)
  {
    var vn := RelSpeed(p, q, c.nx, c.ny);
    var t := Tangent(mf, q.vx - p.vx, q.vy - p.vy, vn, c, cp.tanEps);
    TwoKicksNormalSpeed(p, q, c, NormalImpulse(cp, p, q, vn), t, cp.friction);
  }

  /** With positive masses, `invM = 1/m`, a unit normal and no impulse
      clamp, the normal speed after the impulses is `-rest` times the
      normal speed before: the restitution law. */
  lemma KickedRestitutes(cp: ContactParams, mf: MathFns, p: Particle, q: Particle, c: Contact)
    requires SqrtLaw(mf)
    requires p.m > 0.0 && q.m > 0.0 && p.m * p.invM == 1.0 && q.m * q.invM == 1.0
    requires Norm2(c.nx, c.ny) == 1.0 && !cp.clampImpulse
    ensures var r := Kicked(cp, mf, p, q, c);
            RelSpeed(r.0, r.1, c.nx, c.ny) == -cp.rest * RelSpeed(p, q, c.nx, c.ny)
  {
    var vn := RelSpeed(p, q, c.nx, c.ny);
    var r := Kicked(cp, mf, p, q, c);
    KickedNormalSpeed(cp, mf, p, q, c);
    Restitutes(vn, NormalImpulse(cp, p, q, vn), p.invM + q.invM, cp.rest, RelSpeed(r.0, r.1, c.nx, c.ny));
  }

  /** The restitution law carries over to the approach step, whose heat
      update leaves the velocities alone. */
  lemma ApproachRestitutes(cp: ContactParams, mf: MathFns, p: Particle, q: Particle, c: Contact)
    requires SqrtLaw(mf)
    requires p.m > 0.0 && q.m > 0.0 && p.m * p.invM == 1.0 && q.m * q.invM == 1.0
    requires Norm2(c.nx, c.ny) == 1.0 && !cp.clampImpulse
    ensures var r := Approach(cp, mf, p, q, c);
            RelSpeed(r.0, r.1, c.nx, c.ny) == -cp.rest * RelSpeed(p, q, c.nx, c.ny)
  {
    var k := Kicked(cp, mf, p, q, c);
    KickedRestitutes(cp, mf, p, q, c);
    HeatKeepsMotion(k, Approach(cp, mf, p, q, c), c.nx, c.ny);
  }


  /** One pair's resolution once it is known to overlap: the soft
      correction-and-damping step in `'soft'` mode, the half-overlap
      correction and the impulse step otherwise. */
  function Resolve(cp: ContactParams, mf: MathFns, p: Particle, q: Particle, c: Contact): (r: (Particle, Particle))
    requires SqrtLaw(mf)
    ensures Kept(p, q, r)
    ensures r.0.x + r.1.x == p.x + q.x && r.0.y + r.1.y == p.y + q.y
    ensures cp.mode == "soft" || (p.m * p.invM == 1.0 && q.m * q.invM == 1.0) ==>
              MomentumX(r.0, r.1) == MomentumX(p, q) && MomentumY(r.0, r.1) == MomentumY(p, q)
    ensures cp.mode == "soft" || !cp.heatMode ==> r.0.heat == p.heat && r.1.heat == q.heat
    ensures 0.0 <= p.heat <= HEAT_MAX && 0.0 <= q.heat <= HEAT_MAX ==>
              0.0 <= r.0.heat <= HEAT_MAX && 0.0 <= r.1.heat <= HEAT_MAX
  {
    if cp.mode == "soft" then SoftResolve(cp, p, q, c) else HardResolve(cp, mf, p, q, c)
  }

  /** Radius, mass, inverse mass and colour of both particles are kept. */
  predicate Kept(p: Particle, q: Particle, r: (Particle, Particle))
  {
    r.0.r == p.r && r.0.m == p.m && r.0.invM == p.invM && r.0.color == p.color
    && r.1.r == q.r && r.1.m == q.m && r.1.invM == q.invM && r.1.color == q.color
  }

  /** The soft mode: the correction scaled by the softness, then the
      damping of the normal velocity; heat is untouched. */
  function SoftResolve(cp: ContactParams, p: Particle, q: Particle, c: Contact): (r: (Particle, Particle))
    ensures Kept(p, q, r)
    ensures r.0.x + r.1.x == p.x + q.x && r.0.y + r.1.y == p.y + q.y
    ensures MomentumX(r.0, r.1) == MomentumX(p, q) && MomentumY(r.0, r.1) == MomentumY(p, q)
    ensures r.0.heat == p.heat && r.1.heat == q.heat
  {
    var s := Separate(p, q, c, (p.r + q.r - c.d) * 0.5 * cp.softness);
    SoftVelocities(s.0, s.1, c, cp.rest)
  }

  /** The elastic and inelastic modes: half the overlap as correction,
      then the impulse step. */
  function HardResolve(cp: ContactParams, mf: MathFns, p: Particle, q: Particle, c: Contact): (r: (Particle, Particle))
    requires SqrtLaw(mf)
    ensures Kept(p, q, r)
    ensures r.0.x + r.1.x == p.x + q.x && r.0.y + r.1.y == p.y + q.y
    ensures (r.1.x - r.0.x) - (q.x - p.x) == 2.0 * (c.nx * ((p.r + q.r - c.d) * 0.5))
    ensures (r.1.y - r.0.y) - (q.y - p.y) == 2.0 * (c.ny * ((p.r + q.r - c.d) * 0.5))
    ensures p.m * p.invM == 1.0 && q.m * q.invM == 1.0 ==>
              MomentumX(r.0, r.1) == MomentumX(p, q) && MomentumY(r.0, r.1) == MomentumY(p, q)
    ensures !cp.heatMode ==> r.0.heat == p.heat && r.1.heat == q.heat
    ensures 0.0 <= p.heat <= HEAT_MAX && 0.0 <= q.heat <= HEAT_MAX ==>
              0.0 <= r.0.heat <= HEAT_MAX && 0.0 <= r.1.heat <= HEAT_MAX
  {
    var s := Separate(p, q, c, (p.r + q.r - c.d) * 0.5);
    assert s.0.m * s.0.invM == p.m * p.invM && s.1.m * s.1.invM == q.m * q.invM;
    var r := Impulse(cp, mf, s.0, s.1, c);
    assert r.0.x == s.0.x && r.0.y == s.0.y && r.1.x == s.1.x && r.1.y == s.1.y;
    assert Kept(p, q, r);
    r
  }

  /** In the impulse modes the correction moves the centres apart along a
      unit normal by exactly the overlap. */
  lemma CorrectionSeparates(cp: ContactParams, mf: MathFns, p: Particle, q: Particle, c: Contact)
    requires SqrtLaw(mf) && cp.mode != "soft"
    requires Norm2(c.nx, c.ny) == 1.0
    ensures var r := Resolve(cp, mf, p, q, c);
            Dot(r.1.x - r.0.x, r.1.y - r.0.y, c.nx, c.ny)
            == Dot(q.x - p.x, q.y - p.y, c.nx, c.ny) + (p.r + q.r - c.d)
  {
    var r := HardResolve(cp, mf, p, q, c);
    assert Resolve(cp, mf, p, q, c) == r;
    ShiftAlongUnit(q.x - p.x, q.y - p.y, r.1.x - r.0.x, r.1.y - r.0.y, c.nx, c.ny, p.r + q.r - c.d);
  }

  /** Shifting a vector by `o` times `(nx, ny)` on each axis adds `o` to
      its component along the unit vector `(nx, ny)`. */
  lemma ShiftAlongUnit(ax: real, ay: real, ex: real, ey: real, nx: real, ny: real, o: real)
    requires Norm2(nx, ny) == 1.0
    requires ex - ax == 2.0 * (nx * (o * 0.5)) && ey - ay == 2.0 * (ny * (o * 0.5))
    ensures Dot(ex, ey, nx, ny) == Dot(ax, ay, nx, ny) + o
  {
    assert ex == ax + o * nx && ey == ay + o * ny;
    assert Dot(ex, ey, nx, ny) == Dot(ax, ay, nx, ny) + o * (nx * nx + ny * ny);
  }
}
