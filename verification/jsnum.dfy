/**
 * Number semantics of the two host languages, written out over
 * Dafny's unbounded integers and exact reals: JavaScript `Math.round`
 * (halves go up), Python's `round` (halves go to the even neighbour),
 * `Math.ceil`, JavaScript's truncating `%`, and the 32-bit wrap-around of
 * the bitwise operators used by a string hash.
 */
module JsNum {

  /** `Math.round(x)`: the nearest integer, halves rounded towards +infinity. */
  function JsRound(x: real): (r: int)
    ensures r as real - 0.5 <= x < r as real + 0.5
  {
    (x + 0.5).Floor
  }

  /** Python 3 `round(x)`: the nearest integer, halves rounded to the even one. */
  function PyRound(x: real): (r: int)
    ensures r as real - 0.5 <= x <= r as real + 0.5
    ensures (x == r as real - 0.5 || x == r as real + 0.5) ==> r % 2 == 0
  {
    var f := x.Floor;
    var d := x - f as real;
    if d < 0.5 then f
    else if d > 0.5 then f + 1
    else if f % 2 == 0 then f else f + 1
  }

  lemma FloorIs(x: real, k: int)
    requires k as real <= x < k as real + 1.0
    ensures x.Floor == k
  {
  }

  /** The two roundings agree on every value that is not exactly half-way. */
  lemma RoundingsAgreeOffHalf(x: real, k: int)
    requires k as real <= x < k as real + 1.0
    requires x != k as real + 0.5
    ensures JsRound(x) == PyRound(x)
  {
    FloorIs(x, k);
    if x < k as real + 0.5 {
      FloorIs(x + 0.5, k);
    } else {
      FloorIs(x + 0.5, k + 1);
    }
  }

  /** `Math.round(n * 0.5)` for an integer `n`: half of it, an odd one rounded up. */
  function JsHalf(n: int): (r: int)
    ensures 2 * r - 1 <= n < 2 * r + 1
  {
    JsRound(n as real / 2.0)
  }

  /** Python's `round(n * 0.5)` for an integer `n`: half of it, an odd one rounded to the even neighbour. */
  function PyHalf(n: int): (r: int)
    ensures 2 * r - 1 <= n <= 2 * r + 1
  {
    PyRound(n as real / 2.0)
  }

  /**
   * Halving an integer and rounding: JavaScript and Python disagree exactly
   * when the integer leaves remainder 1 modulo 4 (then Python is one lower).
   */
  lemma HalfRoundingDiffers(n: int)
    ensures JsHalf(n) != PyHalf(n) <==> n % 4 == 1
    ensures n % 4 == 1 ==> JsHalf(n) == PyHalf(n) + 1
  {
    var k := n / 2;
    if n % 2 == 0 {
      HalfOfEven(n, k);
    } else {
      HalfOfOdd(n, k);
    }
  }

  lemma HalfOfEven(n: int, k: int)
    requires n == 2 * k
    ensures JsRound(n as real / 2.0) == PyRound(n as real / 2.0) == k
    ensures n % 4 != 1
  {
    var x := n as real / 2.0;
    assert x == k as real;
    FloorIs(x, k);
    FloorIs(x + 0.5, k);
  }

  lemma HalfOfOdd(n: int, k: int)
    requires n == 2 * k + 1
    ensures JsRound(n as real / 2.0) == k + 1
    ensures PyRound(n as real / 2.0) == if k % 2 == 0 then k else k + 1
    ensures n % 4 == 1 <==> k % 2 == 0
  {
    var x := n as real / 2.0;
    assert x == k as real + 0.5;
    FloorIs(x, k);
    FloorIs(x + 0.5, k + 1);
    assert x - k as real == 0.5;
    OddModFour(n, k);
  }

  lemma OddModFour(n: int, k: int)
    requires n == 2 * k + 1
    ensures n % 4 == 1 <==> k % 2 == 0
  {
    var j := k / 2;
    assert k == 2 * j + k % 2;
    if k % 2 == 0 {
      assert n == 4 * j + 1;
    } else {
      assert n == 4 * j + 3;
    }
  }

  /** `Math.ceil(x)`: the least integer not below `x`. */
  function Ceil(x: real): (r: int)
    ensures r as real - 1.0 < x <= r as real
  {
    -((-x).Floor)
  }

  /** `Math.max` / Python `max` on two integers. */
  function Max(a: int, b: int): (r: int)
    ensures r >= a && r >= b && (r == a || r == b)
  {
    if a >= b then a else b
  }

  /** `Math.min` / Python `min` on two integers. */
  function Min(a: int, b: int): (r: int)
    ensures r <= a && r <= b && (r == a || r == b)
  {
    if a <= b then a else b
  }

  /** `Math.abs` on integers. */
  function Abs(i: int): (r: nat)
    ensures r == i || r == -i
  {
    if i < 0 then -i else i
  }

  /**
   * JavaScript `a % b` for a positive divisor: the remainder takes the sign
   * of `a`, so it is the Euclidean one for `a >= 0` and odd in `a`.
   */
  function JsRem(a: int, b: int): (r: int)
    requires b > 0
    ensures -b < r < b
    ensures a >= 0 ==> r == a % b
    ensures a < 0 ==> r <= 0 && r == -JsRem(-a, b)
    decreases if a < 0 then 1 else 0
  {
    if a >= 0 then a % b else -((-a) % b)
  }

  const Two32: int := 0x1_0000_0000
  const Two31: int := 0x8000_0000

  predicate IsInt32(x: int) { -Two31 <= x < Two31 }

  /** ECMAScript ToInt32: the signed 32-bit value congruent to `x`. */
  function Wrap32(x: int): (r: int)
    ensures IsInt32(r)
    ensures (x - r) % Two32 == 0
  {
    (x + Two31) % Two32 - Two31
  }

  lemma Wrap32OfInt32(x: int)
    requires IsInt32(x)
    ensures Wrap32(x) == x
  {
  }

  /** Two integers congruent modulo 2^32 wrap to the same 32-bit value. */
  lemma Wrap32Congruent(x: int, y: int)
    requires (x - y) % Two32 == 0
    ensures Wrap32(x) == Wrap32(y)
  {
    var k := (x - y) / Two32;
    assert x == y + k * Two32;
    assert (x + Two31) % Two32 == (y + Two31) % Two32 by {
      ModShift(y + Two31, k);
    }
  }

  lemma ModShift(a: int, k: int)
    ensures (a + k * Two32) % Two32 == a % Two32
  {
  }

  /**
   * One step of `a = ((a << 5) - a) + c; return a & a`: the shift and the `&`
   * each reduce to 32 bits.
   */
  function HashStep(a: int, c: int): (r: int)
    ensures IsInt32(r)
  {
    Wrap32(Wrap32(a * 32) - a + c)
  }

  /** A hash step is 31 * a + c reduced to a signed 32-bit value. */
  lemma HashStepIsMultiply(a: int, c: int)
    ensures HashStep(a, c) == Wrap32(31 * a + c)
  {
    var w := Wrap32(a * 32);
    assert (w - a + c) - (31 * a + c) == w - a * 32;
    assert ((w - a + c) - (31 * a + c)) % Two32 == 0 by {
      assert (a * 32 - w) % Two32 == 0;
      NegMod(a * 32 - w);
    }
    Wrap32Congruent(w - a + c, 31 * a + c);
  }

  lemma NegMod(x: int)
    requires x % Two32 == 0
    ensures (-x) % Two32 == 0
  {
    var k := x / Two32;
    assert x == k * Two32;
    assert -x == (-k) * Two32;
  }

  /**
   * A code point as JavaScript stores it: itself below U+10000, otherwise a
   * surrogate pair, high half first.
   */
  function CharUnits(c: char): (u: seq<int>)
    ensures c as int < 0x10000 <==> |u| == 1
    ensures |u| == 1 ==> u[0] == c as int
    ensures |u| == 2 ==>
      (0xD800 <= u[0] < 0xDC00 && 0xDC00 <= u[1] < 0xE000 && (u[0] - 0xD800) * 0x400 + (u[1] - 0xDC00) + 0x10000 == c as int)
  {
    var n := c as int;
    if n < 0x10000 then [n]
    else [0xD800 + (n - 0x10000) / 0x400, 0xDC00 + (n - 0x10000) % 0x400]
  }

  /** The UTF-16 code units of a string, which `split('')` and `charCodeAt` read. */
  function Utf16Units(s: string): (u: seq<int>)
    ensures |s| <= |u| <= 2 * |s|
    ensures forall k :: 0 <= k < |u| ==> 0 <= u[k] < 0x10000
    decreases |s|
  {
    if |s| == 0 then [] else CharUnits(s[0]) + Utf16Units(s[1..])
  }

  /** `String.prototype.length`: the number of UTF-16 code units. */
  function JsLength(s: string): (n: nat)
    ensures |s| <= n <= 2 * |s|
  {
    |Utf16Units(s)|
  }

  /** Text below U+10000 has one code unit per character. */
  lemma {:induction false} JsLengthBmp(s: string)
    requires forall k :: 0 <= k < |s| ==> s[k] as int < 0x10000
    ensures JsLength(s) == |s|
    decreases |s|
  {
    if |s| > 0 {
      JsLengthBmp(s[1..]);
    }
  }

  /** The hash over code units, folded from the left starting at 0. */
  function HashUnits(u: seq<int>): (h: int)
    ensures IsInt32(h)
    decreases |u|
  {
    if |u| == 0 then 0 else HashStep(HashUnits(u[..|u| - 1]), u[|u| - 1])
  }

  /** The string hash over the string's UTF-16 code units. */
  function StringHash(s: string): (h: int)
    ensures IsInt32(h)
  {
    HashUnits(Utf16Units(s))
  }

  /** A one-character string hashes to its code, or, above U+FFFF, to 31 times the high surrogate plus the low one. */
  lemma StringHashSingle(c: char)
    ensures var u := CharUnits(c);
      StringHash([c]) == if |u| == 1 then c as int else 31 * u[0] + u[1]
  {
    var u := CharUnits(c);
    assert Utf16Units([c]) == u by {
      assert [c][1..] == [];
    }
    assert u[..0] == [];
    HashStepIsMultiply(0, u[0]);
    Wrap32OfInt32(u[0]);
    if |u| == 2 {
      var first := u[..1];
      assert first[..0] == [];
      assert HashUnits(first) == HashStep(0, u[0]);
      assert HashUnits(u) == HashStep(u[0], u[1]);
      HashStepIsMultiply(u[0], u[1]);
      Wrap32OfInt32(31 * u[0] + u[1]);
    } else {
      assert HashUnits(u) == HashStep(0, u[0]);
    }
  }
}
