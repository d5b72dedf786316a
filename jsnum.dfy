/** JavaScript number semantics used by the simulation, restated over the
    reals: truncating integer conversions (`|0`, `>>>0`), `Math.round`,
    `Math.ceil`, `Math.max`/`Math.min`, the numeric `||` fallback, and the
    32-bit pattern behind `<<` and `^`.  Transcendental functions are not
    defined here: they enter the model as function-typed parameters whose
    only assumed law is the one for the square root (`SqrtLaw`). */
module JsNumber {

  const TWO31: int := 0x8000_0000
  const TWO32: int := 0x1_0000_0000

  /** Truncation toward zero (the integer part of a finite number). */
  function Trunc(x: real): (r: int)
    ensures x >= 0.0 ==> 0 <= r && r as real <= x < r as real + 1.0
    ensures x < 0.0 ==> r <= 0 && r as real - 1.0 < x <= r as real
  {
    if x >= 0.0 then x.Floor else -((-x).Floor)
  }

  /** An integer-valued number truncates to itself. */
  lemma TruncInt(n: int)
    ensures Trunc(n as real) == n
  {
  }

  /** `Math.floor`. */
  function Floor(x: real): (r: int)
    ensures r as real <= x < r as real + 1.0
  {
    x.Floor
  }

  /** `Math.ceil`. */
  function Ceil(x: real): (r: int)
    ensures r as real - 1.0 < x <= r as real
  {
    -((-x).Floor)
  }

  /** `Math.round`: the nearest integer, halves rounded up. */
  function Round(x: real): (r: int)
    ensures r as real - 0.5 <= x < r as real + 0.5
  {
    (x + 0.5).Floor
  }

  /** `x >>> 0` for a finite x. */
  function ToUint32(x: real): (r: int)
    ensures 0 <= r < TWO32
    ensures (r - Trunc(x)) % TWO32 == 0
  {
    Trunc(x) % TWO32
  }

  /** `x | 0` for a finite x. */
  function ToInt32(x: real): (r: int)
    ensures -TWO31 <= r < TWO31
    ensures (r - Trunc(x)) % TWO32 == 0
    ensures -(TWO31 as real) < x < TWO31 as real ==> r == Trunc(x)
  {
    var u := ToUint32(x);
    if u >= TWO31 then u - TWO32 else u
  }

  /** `Math.max(a, b)` for numbers that are not NaN. */
  function Max(a: real, b: real): (r: real)
    ensures r >= a && r >= b && (r == a || r == b)
  {
    if a >= b then a else b
  }

  /** `Math.min(a, b)` for numbers that are not NaN. */
  function Min(a: real, b: real): (r: real)
    ensures r <= a && r <= b && (r == a || r == b)
  {
    if a <= b then a else b
  }

  /** `Math.abs(x)`. */
  function Abs(x: real): (r: real)
    ensures r >= 0.0 && (r == x || r == -x)
  {
    if x >= 0.0 then x else -x
  }

  /** `a / b` where the source lets `b` be zero.  JavaScript then yields an
      infinity or NaN, which this model does not represent; it yields 0
      instead, and every property stated about a quotient assumes a
      non-zero divisor. */
  function Div(a: real, b: real): (r: real)
    ensures b != 0.0 ==> r * b == a
  {
    if b == 0.0 then 0.0 else a / b
  }

  /** `a || b` on numbers: `a` unless it is zero. */
  function Or(a: real, b: real): (r: real)
    ensures a != 0.0 ==> r == a
    ensures a == 0.0 ==> r == b
  {
    if a != 0.0 then a else b
  }

  /** The library functions a step may call, passed in by the caller. */
  datatype MathFns = MathFns(sqrt: real -> real, sin: real -> real, cos: real -> real)

  /** The one law assumed of `Math.sqrt`. */
  ghost predicate SqrtLaw(m: MathFns)
  {
    forall x :: 0.0 <= x ==> 0.0 <= m.sqrt(x) && m.sqrt(x) * m.sqrt(x) == x
  }

  /** The scalar product of `(ax, ay)` and `(ux, uy)`. */
  function Dot(ax: real, ay: real, ux: real, uy: real): real
  {
    ax * ux + ay * uy
  }

  /** The squared length of `(a, b)`.  Square roots are always taken of a
      named term like this one: the solver reasons poorly about a library
      function applied to a product. */
  function Norm2(a: real, b: real): real
  {
    a * a + b * b
  }

  /** `Math.hypot(a, b)`. */
  function Hypot(m: MathFns, a: real, b: real): real
  {
    m.sqrt(Norm2(a, b))
  }

  /** Products of positive reals are positive. */
  lemma MulPositive(a: real, b: real)
    requires a > 0.0 && b > 0.0
    ensures a * b > 0.0
  {
  }

  lemma PositiveSquare(a: real)
    ensures a > 0.0 ==> a * a > 0.0
  {
    if a > 0.0 { MulPositive(a, a); }
  }

  /** A square is non-negative, and positive unless its base is zero. */
  lemma SquareSign(a: real)
    ensures a * a >= 0.0
    ensures a != 0.0 ==> a * a > 0.0
  {
    PositiveSquare(a);
    PositiveSquare(-a);
    assert (-a) * (-a) == a * a;
  }

  lemma SumOfSquaresSign(a: real, b: real)
    ensures a * a + b * b >= 0.0
    ensures a != 0.0 || b != 0.0 ==> a * a + b * b > 0.0
  {
    SquareSign(a);
    SquareSign(b);
  }

  /** The squared length is non-negative. */
  lemma Norm2Sign(a: real, b: real)
    ensures Norm2(a, b) >= 0.0
  {
    SquareSign(a);
    SquareSign(b);
  }

  /** Under the law, a hypotenuse is non-negative and squares back. */
  lemma HypotFacts(m: MathFns, a: real, b: real)
    requires SqrtLaw(m)
    ensures Hypot(m, a, b) >= 0.0
    ensures Hypot(m, a, b) * Hypot(m, a, b) == a * a + b * b
    ensures Norm2(a, b) > 0.0 <==> Hypot(m, a, b) > 0.0
    ensures a == 0.0 && b == 0.0 ==> Hypot(m, a, b) == 0.0
  {
    Norm2Sign(a, b);
    SqrtSign(m, Norm2(a, b));
  }

  /** The square root of a non-negative number is positive exactly when
      the number is. */
  lemma SqrtSign(m: MathFns, x: real)
    requires SqrtLaw(m) && x >= 0.0
    ensures m.sqrt(x) >= 0.0
    ensures x > 0.0 <==> m.sqrt(x) > 0.0
  {
    var h := m.sqrt(x);
    assert h * h == x;
    if x > 0.0 {
      assert h == 0.0 ==> h * h == 0.0;
    } else {
      SquareInjective(h, 0.0);
    }
  }

  /** Squaring is strictly increasing on the non-negative reals. */
  lemma SquareStrictlyIncreasing(a: real, b: real)
    requires 0.0 <= a < b
    ensures a * a < b * b
  {
    assert (b - a) * (b + a) == b * b - a * a;
    MulPositive(b - a, b + a);
  }

  /** Non-negative reals with equal squares are equal. */
  lemma SquareInjective(t: real, s: real)
    requires t >= 0.0 && s >= 0.0 && t * t == s * s
    ensures t == s
  {
    if t > s {
      SquareStrictlyIncreasing(s, t);
      assert false;
    }
    if t < s {
      SquareStrictlyIncreasing(t, s);
      assert false;
    }
  }

  /** A product is zero only when a factor is. */
  lemma ZeroProduct(a: real, k: real)
    requires k != 0.0 && a * k == 0.0
    ensures a == 0.0
  {
    if a > 0.0 && k > 0.0 { MulPositive(a, k); }
    if a > 0.0 && k < 0.0 { MulPositive(a, -k); }
    if a < 0.0 && k > 0.0 { MulPositive(-a, k); }
    if a < 0.0 && k < 0.0 { MulPositive(-a, -k); }
  }

  /** A non-zero factor cancels. */
  lemma CancelFactor(a: real, b: real, k: real)
    requires k != 0.0 && a * k == b * k
    ensures a == b
  {
    assert (a - b) * k == a * k - b * k;
    ZeroProduct(a - b, k);
  }

  /** Squaring both sides of `u * d == x`. */
  lemma SquareScale(u: real, d: real, x: real)
    requires u * d == x
    ensures (u * u) * (d * d) == x * x
  {
    assert (u * u) * (d * d) == (u * d) * (u * d);
  }

  /** The inverse of a number at least `lo > 0` is positive and at most
      the inverse of `lo`. */
  lemma InverseBelow(d: real, lo: real)
    requires 0.0 < lo <= d
    ensures 0.0 < 1.0 / d <= 1.0 / lo
  {
  }

  /** A quotient times its divisor gives back the dividend. */
  lemma QuotientTimes(a: real, d: real)
    requires d != 0.0
    ensures (a / d) * d == a
  {
  }
}
