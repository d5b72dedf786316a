/** The helpers of `src/utils/utils.ts` that the simulation core uses:
    `clamp`, `lerp`, `rand`, `randInt`, the `LCG` generator,
    `mapBoundaries` and `hexWithAlpha`. */
module Utils {
  import opened JsNumber

  // ---------------------------------------------------------------------
  // Numeric helpers
  // ---------------------------------------------------------------------

  /** `clamp(x, a, b)`: `a` below the range, `b` above it, `x` otherwise. */
  function Clamp(x: real, a: real, b: real): (r: real)
    ensures a <= b ==> a <= r <= b
    ensures a <= x <= b ==> r == x
    ensures x < a ==> r == a
    ensures a <= x && x > b ==> r == b
  {
    if x < a then a else if x > b then b else x
  }

  /** `lerp(a, b, t)`: the affine blend of `a` and `b`. */
  function Lerp(a: real, b: real, t: real): (r: real)
    ensures t == 0.0 ==> r == a
    ensures t == 1.0 ==> r == b
  {
    a + (b - a) * t
  }

  /** A blend with weight in [0, 1] lies between its two ends. */
  lemma LerpBetween(a: real, b: real, t: real)
    requires 0.0 <= t <= 1.0
    ensures Min(a, b) <= Lerp(a, b, t) <= Max(a, b)
  {
    var d := b - a;
    var r := Lerp(a, b, t);
    assert r == a + d * t;
    if d >= 0.0 {
      ScaledPart(d, t);
      assert a <= r <= b;
      assert Min(a, b) == a && Max(a, b) == b;
    } else {
      ScaledPart(-d, t);
      NegatedPart(d, t);
      assert b <= r <= a;
      assert Min(a, b) == b && Max(a, b) == a;
    }
  }

  lemma NegatedPart(d: real, t: real)
    ensures (-d) * t == -(d * t)
  {
  }

  /** A part of a non-negative length is between 0 and the length. */
  lemma ScaledPart(d: real, t: real)
    requires d >= 0.0 && 0.0 <= t <= 1.0
    ensures 0.0 <= d * t <= d
  {
    assert d * t <= d * 1.0 by {
      assert d * 1.0 - d * t == d * (1.0 - t);
      NonNegTimes(d, 1.0 - t);
    }
    NonNegTimes(d, t);
  }

  lemma NonNegTimes(a: real, b: real)
    requires a >= 0.0 && b >= 0.0
    ensures a * b >= 0.0
  {
    if a > 0.0 && b > 0.0 {
      MulPositive(a, b);
    }
  }

  /** `rand(a, b)` with the `Math.random()` draw `u` passed in. */
  function Rand(a: real, b: real, u: real): (r: real)
    requires 0.0 <= u < 1.0
    ensures a < b ==> a <= r < b
    ensures a == b ==> r == a
  {
    var r := a + u * (b - a);
    RandBounds(a, b, u, r);
    r
  }

  lemma RandBounds(a: real, b: real, u: real, r: real)
    requires 0.0 <= u < 1.0 && r == a + u * (b - a)
    ensures a < b ==> a <= r < b
    ensures a == b ==> r == a
  {
    if a < b {
      RandAbove(a, b, u, r);
      RandBelow(a, b, u, r);
    } else if a == b {
      assert u * (b - a) == u * 0.0 == 0.0;
    }
  }

  lemma RandAbove(a: real, b: real, u: real, r: real)
    requires u >= 0.0 && a < b && r == a + u * (b - a)
    ensures a <= r
  {
    if u > 0.0 {
      MulPositive(u, b - a);
    }
  }

  lemma RandBelow(a: real, b: real, u: real, r: real)
    requires u < 1.0 && a < b && r == a + u * (b - a)
    ensures r < b
  {
    assert b - r == (b - a) * (1.0 - u);
    MulPositive(b - a, 1.0 - u);
  }

  /** `randInt(a, b)`: `Math.floor(rand(a, b + 1))`. */
  function RandInt(a: int, b: int, u: real): (r: int)
    requires 0.0 <= u < 1.0
    ensures a <= b ==> a <= r <= b
  {
    Floor(Rand(a as real, b as real + 1.0, u))
  }

  // ---------------------------------------------------------------------
  // The 32-bit linear congruential generator
  // ---------------------------------------------------------------------

  const LCG_MUL: int := 1664525
  const LCG_INC: int := 1013904223

  /** The initial state: the seed as an unsigned 32-bit value, with 0
      replaced by 1. */
  function LcgSeed(seed: real): (s: int)
    ensures 0 < s < TWO32
    ensures ToUint32(seed) != 0 ==> s == ToUint32(seed)
    ensures ToUint32(seed) == 0 ==> s == 1
  {
    Or(ToUint32(seed) as real, 1.0).Floor
  }

  /** One step of the recurrence, reduced modulo 2^32. */
  function LcgStep(s: int): (t: int)
    ensures 0 <= t < TWO32
    ensures (t - (LCG_MUL * s + LCG_INC)) % TWO32 == 0
  {
    TruncInt(LCG_MUL * s + LCG_INC);
    ToUint32((LCG_MUL * s + LCG_INC) as real)
  }

  /** The number a call returns for the state it just produced. */
  function LcgOutput(s: int): real
  {
    s as real / TWO32 as real
  }

  lemma LcgOutputInUnit(s: int)
    requires 0 <= s < TWO32
    ensures 0.0 <= LcgOutput(s) < 1.0
  {
  }

  /** The state after `n` calls. */
  function LcgState(seed: real, n: nat): (s: int)
    ensures 0 <= s < TWO32
  {
    if n == 0 then LcgSeed(seed) else LcgStep(LcgState(seed, n - 1))
  }

  /** The first `n` values a generator built from `seed` returns. */
  function LcgOutputs(seed: real, n: nat): (rs: seq<real>)
    ensures |rs| == n
    ensures forall k :: 0 <= k < n ==> 0.0 <= rs[k] < 1.0
  {
    if n == 0 then [] else
      var s := LcgState(seed, n);
      LcgOutputInUnit(s);
      LcgOutputs(seed, n - 1) + [LcgOutput(s)]
  }

  lemma {:induction false} LcgOutputsAt(seed: real, n: nat, k: nat)
    requires k < n
    ensures LcgOutputs(seed, n)[k] == LcgOutput(LcgState(seed, k + 1))
  {
    if k < n - 1 {
      LcgOutputsAt(seed, n - 1, k);
    }
  }

  /** A seed that is 0 as an unsigned 32-bit value behaves as seed 1. */
  lemma {:induction false} LcgZeroSeedIsOne(seed: real, n: nat)
    requires ToUint32(seed) == 0
    ensures LcgOutputs(seed, n) == LcgOutputs(1.0, n)
  {
    StateZeroSeedIsOne(seed, n);
    if n > 0 {
      LcgZeroSeedIsOne(seed, n - 1);
    }
  }

  lemma {:induction false} StateZeroSeedIsOne(seed: real, n: nat)
    requires ToUint32(seed) == 0
    ensures LcgState(seed, n) == LcgState(1.0, n)
  {
    if n > 0 {
      StateZeroSeedIsOne(seed, n - 1);
    }
  }

  /** The closure returned by `LCG(seed)`: the captured state `s` and the
      call that advances it. */
  class Lcg {
    var s: int

    ghost predicate Valid()
      reads this
    {
      0 <= s < TWO32
    }

    constructor (seed: real)
      ensures s == LcgSeed(seed) && Valid()
    {
      s := LcgSeed(seed);
    }

    method Next() returns (r: real)
      modifies this
      ensures s == LcgStep(old(s)) && Valid()
      ensures r == LcgOutput(s)
      ensures 0.0 <= r < 1.0
    {
      s := LcgStep(s);
      r := s as real / TWO32 as real;
    }
  }

  /** Draws `n` values from a fresh generator: they are the values the
      recurrence prescribes. */
  method DrawLcg(seed: real, n: nat) returns (rs: seq<real>)
    ensures rs == LcgOutputs(seed, n)
  {
    var g := new Lcg(seed);
    rs := [];
    var k := 0;
    while k < n
      invariant 0 <= k <= n
      invariant g.s == LcgState(seed, k)
      invariant rs == LcgOutputs(seed, k)
    {
      var r := g.Next();
      rs := rs + [r];
      k := k + 1;
    }
  }

  /** Two generators built from the same seed and called alternately
      return the same sequence: they share no state. */
  method TwoGenerators(seed: real, n: nat) returns (xs: seq<real>, ys: seq<real>)
    ensures xs == ys
    ensures xs == LcgOutputs(seed, n)
  {
    var g1 := new Lcg(seed);
    var g2 := new Lcg(seed);
    xs, ys := [], [];
    var k := 0;
    while k < n
      invariant 0 <= k <= n
      invariant g1 != g2
      invariant g1.s == LcgState(seed, k) && g2.s == LcgState(seed, k)
      invariant xs == LcgOutputs(seed, k) && ys == xs
    {
      var a := g1.Next();
      var b := g2.Next();
      xs, ys := xs + [a], ys + [b];
      k := k + 1;
    }
  }

  // ---------------------------------------------------------------------
  // Boundary-mode names
  // ---------------------------------------------------------------------

  /** `mapBoundaries`: the legacy names `bounce` and `wrap` become their
      `screen-` forms; every other name is kept. */
  function MapBoundaries(v: string): (r: string)
    ensures v == "bounce" ==> r == "screen-bounce"
    ensures v == "wrap" ==> r == "screen-wrap"
    ensures v != "bounce" && v != "wrap" ==> r == v
  {
    if v == "bounce" then "screen-bounce"
    else if v == "wrap" then "screen-wrap"
    else v
  }

  lemma MapBoundariesIdempotent(v: string)
    ensures MapBoundaries(MapBoundaries(v)) == MapBoundaries(v)
  {
  }

  // ---------------------------------------------------------------------
  // hexWithAlpha and the pieces of parseInt(_, 16) it relies on
  // ---------------------------------------------------------------------

  /** The characters parseInt skips at the start: white space (tab, vertical
      tab, form feed, the byte-order mark and every space separator) and line
      terminators. */
  predicate IsJsSpace(c: char)
  {
    c == '\t' || c == '\U{000B}' || c == '\U{000C}' || c == ' ' || c == '\U{00A0}'
    || c == '\U{1680}' || ('\U{2000}' <= c <= '\U{200A}') || c == '\U{202F}'
    || c == '\U{205F}' || c == '\U{3000}' || c == '\U{FEFF}'
    || c == '\n' || c == '\r' || c == '\U{2028}' || c == '\U{2029}'
  }

  function TrimStart(s: string): (r: string)
    ensures |r| <= |s| && r == s[|s| - |r|..]
    ensures r == [] || !IsJsSpace(r[0])
  {
    if |s| > 0 && IsJsSpace(s[0]) then TrimStart(s[1..]) else s
  }

  predicate IsHexDigit(c: char)
  {
    '0' <= c <= '9' || 'a' <= c <= 'f' || 'A' <= c <= 'F'
  }

  function HexDigitValue(c: char): (v: nat)
    requires IsHexDigit(c)
    ensures v < 16
  {
    if '0' <= c <= '9' then c as int - '0' as int
    else if 'a' <= c <= 'f' then c as int - 'a' as int + 10
    else c as int - 'A' as int + 10
  }

  /** The length of the longest prefix made of hex digits. */
  function HexPrefixLength(s: string): (n: nat)
    ensures n <= |s|
    ensures forall k :: 0 <= k < n ==> IsHexDigit(s[k])
    ensures n < |s| ==> !IsHexDigit(s[n])
  {
    if |s| > 0 && IsHexDigit(s[0]) then 1 + HexPrefixLength(s[1..]) else 0
  }

  /** The value of a string of hex digits, most significant first. */
  function HexValue(s: string): nat
    requires forall k :: 0 <= k < |s| ==> IsHexDigit(s[k])
  {
    if s == [] then 0 else 16 * HexValue(s[..|s| - 1]) + HexDigitValue(s[|s| - 1])
  }

  /** The sign parseInt reads, and the text after it. */
  function SignAndRest(t: string): (r: (bool, string))
    ensures |r.1| <= |t|
  {
    if |t| > 0 && t[0] == '-' then (true, t[1..])
    else if |t| > 0 && t[0] == '+' then (false, t[1..])
    else (false, t)
  }

  /** Radix 16 lets parseInt skip a leading `0x` or `0X`. */
  function StripHexPrefix(u: string): string
  {
    if |u| >= 2 && u[0] == '0' && (u[1] == 'x' || u[1] == 'X') then u[2..] else u
  }

  /** `parseInt(s, 16)` on a string: `None` stands for `NaN`. */
  function ParseHexInt(s: string): Option<int>
  {
    var (neg, u) := SignAndRest(TrimStart(s));
    var w := StripHexPrefix(u);
    var n := HexPrefixLength(w);
    if n == 0 then None
    else
      var v: int := HexValue(w[..n]);
      Some(if neg then -v else v)
  }

  datatype Option<T> = None | Some(value: T)

  /** The decimal digits of a natural number. */
  function NatToString(n: nat): (s: string)
    ensures |s| > 0
    ensures forall k :: 0 <= k < |s| ==> '0' <= s[k] <= '9'
  {
    if n < 10 then [DigitChar(n)] else NatToString(n / 10) + [DigitChar(n % 10)]
  }

  function DigitChar(d: nat): (c: char)
    requires d < 10
    ensures '0' <= c <= '9' && c as int - '0' as int == d
  {
    ['0', '1', '2', '3', '4', '5', '6', '7', '8', '9'][d]
  }

  /** How a template literal renders an integer-valued number. */
  function IntToString(v: int): string
  {
    if v < 0 then "-" + NatToString(-v) else NatToString(v)
  }

  /** How a template literal renders a `parseInt` result. */
  function ParsedToString(p: Option<int>): string
  {
    match p
    case None => "NaN"
    case Some(v) => IntToString(v)
  }

  /** JavaScript `s.slice(i, j)` for non-negative indices. */
  function Slice(s: string, i: nat, j: nat): (r: string)
    ensures |r| == if i <= j && i <= |s| then MinInt(j, |s|) - i else 0
  {
    if i <= j && i <= |s| then s[i..MinInt(j, |s|)] else []
  }

  function MinInt(a: int, b: int): int { if a <= b then a else b }

  /** `hexWithAlpha(hex, a)`, with `alpha` the text the template literal
      renders for the number `a`. */
  function HexWithAlpha(hex: string, alpha: string): (out: string)
    ensures hex == [] || hex[0] != '#' ==> out == hex
  {
    if hex == [] || hex[0] != '#' then hex
    else
      "rgba(" + ParsedToString(ParseHexInt(Slice(hex, 1, 3))) + ","
              + ParsedToString(ParseHexInt(Slice(hex, 3, 5))) + ","
              + ParsedToString(ParseHexInt(Slice(hex, 5, 7))) + ","
              + alpha + ")"
  }

  /** A well-formed `#rrggbb` colour. */
  predicate IsHexColour(hex: string)
  {
    |hex| == 7 && hex[0] == '#' && forall k :: 1 <= k < 7 ==> IsHexDigit(hex[k])
  }

  /** The value of the channel written at `hex[i]`, `hex[i+1]`. */
  function Channel(hex: string, i: nat): (v: nat)
    requires IsHexColour(hex) && 1 <= i <= 5
    ensures v < 256
  {
    16 * HexDigitValue(hex[i]) + HexDigitValue(hex[i + 1])
  }

  /** Two hex digits parse to their value, in `[0, 255]`. */
  lemma ParsePair(p: string, v: int)
    requires |p| == 2 && IsHexDigit(p[0]) && IsHexDigit(p[1])
    requires v == 16 * HexDigitValue(p[0]) + HexDigitValue(p[1])
    ensures ParseHexInt(p) == Some(v)
  {
    assert !IsJsSpace(p[0]);
    assert TrimStart(p) == p;
    assert SignAndRest(p) == (false, p);
    assert StripHexPrefix(p) == p;
    assert p[1..][1..] == [];
    assert HexPrefixLength(p[1..]) == 1;
    assert HexPrefixLength(p) == 2;
    assert p[..2] == p;
    assert p[..1] == [p[0]];
    assert HexValue([p[0]]) == HexDigitValue(p[0]);
    assert HexValue(p) == v;
  }

  /** Each channel of a well-formed colour parses to its value. */
  lemma ChannelParse(hex: string, i: nat)
    requires IsHexColour(hex) && (i == 1 || i == 3 || i == 5)
    ensures ParseHexInt(Slice(hex, i, i + 2)) == Some(Channel(hex, i))
  {
    var p := Slice(hex, i, i + 2);
    var v := Channel(hex, i);
    assert |p| == 2 && IsHexDigit(p[0]) && IsHexDigit(p[1])
           && v == 16 * HexDigitValue(p[0]) + HexDigitValue(p[1]) by {
      assert p == hex[i..i + 2];
    }
    ParsePair(p, v);
  }

  /** The text rendered for the channel at `hex[i]`, `hex[i+1]`. */
  lemma ChannelText(hex: string, i: nat)
    requires IsHexColour(hex) && (i == 1 || i == 3 || i == 5)
    ensures ParsedToString(ParseHexInt(Slice(hex, i, i + 2))) == NatToString(Channel(hex, i))
  {
    ChannelParse(hex, i);
    NatText(ParseHexInt(Slice(hex, i, i + 2)), Channel(hex, i));
  }

  /** A natural number renders as its decimal digits. */
  lemma NatText(q: Option<int>, v: int)
    requires 0 <= v && q == Some(v)
    ensures ParsedToString(q) == NatToString(v)
  {
  }

  /** For a well-formed `#rrggbb`, the result is the `rgba(...)` of the
      three channel values and the alpha text. */
  lemma HexWithAlphaOfColour(hex: string, alpha: string)
    requires IsHexColour(hex)
    ensures HexWithAlpha(hex, alpha)
      == "rgba(" + NatToString(Channel(hex, 1)) + "," + NatToString(Channel(hex, 3)) + ","
                 + NatToString(Channel(hex, 5)) + "," + alpha + ")"
  {
    ChannelText(hex, 1);
    ChannelText(hex, 3);
    ChannelText(hex, 5);
  }
}
