/** The flat particle buffer: 8 slots per particle in the order
    X, Y, VX, VY, R, M, INV_M, HEAT.  Conversion from and to particle
    records, the running maximum radius, and the slot-level reads and
    writes the physics passes use. */
module PhysicsUtils {
  import opened JsNumber
  import opened Types

  /** Field k of a particle, in slot order. */
  function Slot(p: Particle, k: int): real
  {
    if k == X then p.x
    else if k == Y then p.y
    else if k == VX then p.vx
    else if k == VY then p.vy
    else if k == R then p.r
    else if k == M then p.m
    else if k == INV_M then p.invM
    else p.heat
  }

  /** The eight slots of one particle, in slot order. */
  function Fields(p: Particle): (f: seq<real>)
    ensures |f| == 8
    ensures forall k :: 0 <= k < 8 ==> f[k] == Slot(p, k)
  {
    [p.x, p.y, p.vx, p.vy, p.r, p.m, p.invM, p.heat]
  }

  /** The buffer image of a particle list. */
  function Pack(ps: seq<Particle>): (s: seq<real>)
    ensures |s| == |ps| * 8
  {
    if |ps| == 0 then [] else Pack(ps[..|ps| - 1]) + Fields(ps[|ps| - 1])
  }

  /** Slot i*8+k of the image holds field k of particle i. */
  lemma {:induction false} PackAt(ps: seq<Particle>, i: int, k: int)
    requires 0 <= i < |ps| && 0 <= k < 8
    ensures Pack(ps)[i * 8 + k] == Slot(ps[i], k)
  {
    var n := |ps| - 1;
    if i < n {
      PackAt(ps[..n], i, k);
      assert ps[..n][i] == ps[i];
    }
  }

  /** Whether a buffer holds a whole number of particles, and whether it
      holds particle i. */
  predicate Whole(s: seq<real>)
  {
    |s| % 8 == 0
  }

  predicate Holds(s: seq<real>, i: int)
  {
    0 <= i && i * 8 + 8 <= |s|
  }

  function Count(s: seq<real>): int
  {
    |s| / 8
  }

  lemma CountHolds(s: seq<real>, i: int)
    requires Whole(s) && 0 <= i < Count(s)
    ensures Holds(s, i)
  {
  }

  /** The particle stored at index i; a buffer carries no colour. */
  function Rec(s: seq<real>, i: int): Particle
    requires Holds(s, i)
  {
    var b := i * 8;
    Particle(s[b + X], s[b + Y], s[b + VX], s[b + VY],
             s[b + R], s[b + M], s[b + INV_M], s[b + HEAT], "")
  }

  function Unpack(s: seq<real>): (ps: seq<Particle>)
    requires Whole(s)
    ensures |ps| == Count(s)
  {
    seq(Count(s), i requires 0 <= i < Count(s) => (CountHolds(s, i); Rec(s, i)))
  }

  /** 8n slots hold exactly n whole particles. */
  lemma Slots(n: int)
    requires 0 <= n
    ensures (n * 8) % 8 == 0 && (n * 8) / 8 == n
  {
  }

  /** The image of a particle list is a whole buffer of that many particles. */
  lemma {:induction false} PackWhole(ps: seq<Particle>)
    ensures Whole(Pack(ps)) && Count(Pack(ps)) == |ps|
  {
    Slots(|ps|);
  }

  /** Entry i of the read-back list is the particle stored at index i. */
  lemma UnpackAt(s: seq<real>, i: int)
    requires Whole(s) && 0 <= i < Count(s)
    ensures Holds(s, i) && Unpack(s)[i] == Rec(s, i)
  {
    CountHolds(s, i);
  }

  /** The particle stored at index i of a list's image is the list's
      particle i without its colour. */
  lemma {:induction false} RecPack(ps: seq<Particle>, i: int)
    requires 0 <= i < |ps|
    ensures Holds(Pack(ps), i) && Rec(Pack(ps), i) == ps[i].(color := "")
  {
    PackAt(ps, i, X); PackAt(ps, i, Y); PackAt(ps, i, VX); PackAt(ps, i, VY);
    PackAt(ps, i, R); PackAt(ps, i, M); PackAt(ps, i, INV_M); PackAt(ps, i, HEAT);
  }

  /** A particle list read back from its own image keeps every numeric
      field and loses only its colour. */
  lemma {:induction false} UnpackPack(ps: seq<Particle>)
    ensures Whole(Pack(ps)) && |Unpack(Pack(ps))| == |ps|
    ensures forall i :: 0 <= i < |ps| ==> Unpack(Pack(ps))[i] == ps[i].(color := "")
  {
    var s := Pack(ps);
    assert Whole(s);
    forall i | 0 <= i < |ps|
      ensures Unpack(s)[i] == ps[i].(color := "")
    {
      PackAt(ps, i, X); PackAt(ps, i, Y); PackAt(ps, i, VX); PackAt(ps, i, VY);
      PackAt(ps, i, R); PackAt(ps, i, M); PackAt(ps, i, INV_M); PackAt(ps, i, HEAT);
    }
  }

  /** A whole buffer written out from its own particles is the same buffer. */
  lemma PackUnpack(s: seq<real>)
    requires Whole(s)
    ensures Pack(Unpack(s)) == s
  {
    PackUnpackPrefix(s, Count(s));
    assert Unpack(s)[..Count(s)] == Unpack(s);
    assert s[..Count(s) * 8] == s;
  }

  lemma {:induction false} PackUnpackPrefix(s: seq<real>, n: int)
    requires Whole(s) && 0 <= n <= Count(s)
    ensures Pack(Unpack(s)[..n]) == s[..n * 8]
  {
    if n > 0 {
      var ps := Unpack(s)[..n];
      PackUnpackPrefix(s, n - 1);
      assert ps[..n - 1] == Unpack(s)[..n - 1];
      UnpackAt(s, n - 1);
      FieldsRec(s, n - 1);
      assert s[..n * 8] == s[..(n - 1) * 8] + s[(n - 1) * 8 .. n * 8];
    }
  }

  /** The fields of the particle stored at index i are its eight slots. */
  lemma FieldsRec(s: seq<real>, i: int)
    requires Holds(s, i)
    ensures Fields(Rec(s, i)) == s[i * 8 .. i * 8 + 8]
  {
    var b := i * 8;
    assert s[b .. b + 8] == [s[b], s[b + 1], s[b + 2], s[b + 3], s[b + 4], s[b + 5], s[b + 6], s[b + 7]];
  }

  /** The buffer with particle i's eight slots replaced by `p`'s fields. */
  function WithParticle(s: seq<real>, i: int, p: Particle): (t: seq<real>)
    requires 0 <= i && i * 8 + 8 <= |s|
    ensures |t| == |s|
  {
    var b := i * 8;
    s[b + X := p.x][b + Y := p.y][b + VX := p.vx][b + VY := p.vy]
     [b + R := p.r][b + M := p.m][b + INV_M := p.invM][b + HEAT := p.heat]
  }

  /** Writes all eight slots of particle i, in slot order. */
  method StoreParticle(a: array<real>, i: int, p: Particle)
    requires 0 <= i && i * 8 + 8 <= a.Length
    modifies a
    ensures a[..] == WithParticle(old(a[..]), i, p)
  {
    var base := i * 8;
    a[base + X] := p.x;
    a[base + Y] := p.y;
    a[base + VX] := p.vx;
    a[base + VY] := p.vy;
    a[base + R] := p.r;
    a[base + M] := p.m;
    a[base + INV_M] := p.invM;
    a[base + HEAT] := p.heat;
  }

  /** Storing particle i after an image of the first i particles gives an
      image of the first i + 1. */
  lemma PackGrows(ps: seq<Particle>, i: int, cur: seq<real>)
    requires 0 <= i < |ps| && i * 8 + 8 <= |cur|
    requires cur[..i * 8] == Pack(ps[..i])
    ensures WithParticle(cur, i, ps[i])[..i * 8 + 8] == Pack(ps[..i + 1])
  {
    var t := WithParticle(cur, i, ps[i]);
    assert ps[..i + 1][..i] == ps[..i];
    assert t[..i * 8] == cur[..i * 8];
    assert t[i * 8 .. i * 8 + 8] == Fields(ps[i]);
    assert t[..i * 8 + 8] == t[..i * 8] + t[i * 8 .. i * 8 + 8];
  }

  /** `particlesToFloat32Array`. */
  method ParticlesToFloat32Array(particles: seq<Particle>) returns (buf: array<real>)
    ensures fresh(buf)
    ensures buf[..] == Pack(particles)
  {
    var numParticles := |particles|;
    buf := new real[numParticles * 8](_ => 0.0);
    var i := 0;
    while i < numParticles
      invariant 0 <= i <= numParticles
      invariant buf.Length == numParticles * 8
      invariant buf[..i * 8] == Pack(particles[..i])
    {
      PackGrows(particles, i, buf[..]);
      StoreParticle(buf, i, particles[i]);
      i := i + 1;
    }
    assert particles[..numParticles] == particles;
    assert buf[..numParticles * 8] == buf[..];
  }

  /** `float32ArrayToParticles`. */
  method Float32ArrayToParticles(buf: array<real>) returns (particles: seq<Particle>)
    requires Whole(buf[..])
    ensures particles == Unpack(buf[..])
  {
    var numParticles := buf.Length / 8;
    particles := [];
    var i := 0;
    while i < numParticles
      invariant 0 <= i <= numParticles
      invariant particles == Unpack(buf[..])[..i]
    {
      var base := i * 8;
      particles := particles + [Particle(buf[base + X], buf[base + Y],
                                         buf[base + VX], buf[base + VY],
                                         buf[base + R], buf[base + M],
                                         buf[base + INV_M], buf[base + HEAT], "")];
      i := i + 1;
    }
  }

  function RadiusAt(s: seq<real>, i: int): real
    requires Holds(s, i)
  {
    s[i * 8 + R]
  }

  /** The running maximum of the first n radii, starting from 0. */
  function MaxRadius(s: seq<real>, n: int): (mr: real)
    requires 0 <= n && n * 8 <= |s|
    ensures mr >= 0.0
    ensures forall i :: 0 <= i < n ==> mr >= RadiusAt(s, i)
    ensures n == 0 ==> mr == 0.0
    ensures mr == 0.0 || exists i :: 0 <= i < n && mr == RadiusAt(s, i)
  {
    if n == 0 then 0.0 else Max(MaxRadius(s, n - 1), RadiusAt(s, n - 1))
  }

  /** `getMaxRadius`. */
  method GetMaxRadius(particles: array<real>) returns (maxRadius: real)
    requires Whole(particles[..])
    ensures maxRadius == MaxRadius(particles[..], Count(particles[..]))
  {
    maxRadius := 0.0;
    var numParticles := particles.Length / 8;
    var i := 0;
    while i < numParticles
      invariant 0 <= i <= numParticles
      invariant maxRadius == MaxRadius(particles[..], i)
    {
      maxRadius := Max(maxRadius, particles[i * 8 + R]);
      i := i + 1;
    }
  }

  /** The buffer after the motion slots of particle i are overwritten. */
  function WithMotion(s: seq<real>, i: int, p: Particle): (t: seq<real>)
    requires Holds(s, i)
    ensures |t| == |s|
  {
    var b := i * 8;
    s[b + X := p.x][b + Y := p.y][b + VX := p.vx][b + VY := p.vy]
  }

  /** The buffer after the motion and heat slots of particle i are overwritten. */
  function WithMotionHeat(s: seq<real>, i: int, p: Particle): (t: seq<real>)
    requires Holds(s, i)
    ensures |t| == |s|
  {
    WithMotion(s, i, p)[i * 8 + HEAT := p.heat]
  }

  /** Writing particle i's motion slots changes its position and velocity,
      keeps its other fields and leaves every other particle alone. */
  lemma WithMotionRec(s: seq<real>, i: int, p: Particle, k: int)
    requires Holds(s, i) && Holds(s, k)
    ensures k == i ==> Rec(WithMotion(s, i, p), k) == Rec(s, i).(x := p.x, y := p.y, vx := p.vx, vy := p.vy)
    ensures k != i ==> Rec(WithMotion(s, i, p), k) == Rec(s, k)
  {
  }

  lemma WithMotionHeatRec(s: seq<real>, i: int, p: Particle, k: int)
    requires Holds(s, i) && Holds(s, k)
    ensures k == i ==> Rec(WithMotionHeat(s, i, p), k)
                       == Rec(s, i).(x := p.x, y := p.y, vx := p.vx, vy := p.vy, heat := p.heat)
    ensures k != i ==> Rec(WithMotionHeat(s, i, p), k) == Rec(s, k)
  {
  }

  /** Writes the X, Y, VX and VY slots of particle i. */
  method StoreMotion(a: array<real>, i: int, p: Particle)
    requires Holds(a[..], i)
    modifies a
    ensures a[..] == WithMotion(old(a[..]), i, p)
  {
    var b := i * 8;
    a[b + X] := p.x;
    a[b + Y] := p.y;
    a[b + VX] := p.vx;
    a[b + VY] := p.vy;
  }

  /** Writes the X, Y, VX, VY and HEAT slots of particle i. */
  method StoreMotionHeat(a: array<real>, i: int, p: Particle)
    requires Holds(a[..], i)
    modifies a
    ensures a[..] == WithMotionHeat(old(a[..]), i, p)
  {
    StoreMotion(a, i, p);
    a[i * 8 + HEAT] := p.heat;
  }
}
