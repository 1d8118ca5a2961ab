/**
 IEEE 754 double precision on positive numbers, written with integers: rounding to 53 significant bits,
 to the nearest and to the even one in a tie. Exponent range is not modelled.
 */
module Float64 {
  import opened Common

  /** A double keeps 53 significant bits: integers below this are exact. */
  const TWO_53 := 0x20_0000_0000_0000

  /** float64(2) / float64(3), in units of 2^-53; float64(1) / float64(3), in units of 2^-54. */
  const TWO_THIRDS := 6004799503160661

  function Pow2(s: nat): (r: nat)
    ensures r >= 1
  {
    if s == 0 then 1 else 2 * Pow2(s - 1)
  }

  /** How many low bits of x do not fit into 53 significant bits. */
  function Shift(x: nat): nat {
    if x < TWO_53 then 0 else 1 + Shift(x / 2)
  }

  /** The distance between neighbouring doubles at x. */
  function Ulp(x: nat): (u: nat)
    ensures u >= 1
  {
    Pow2(Shift(x))
  }

  function Floor(x: nat, u: nat): nat
    requires u >= 1
  {
    x / u
  }

  /** How many spacings x is rounded to. */
  function Mantissa(x: nat): nat {
    var u := Ulp(x);
    var q, r := Floor(x, u), x % u;
    if 2 * r > u || (2 * r == u && q % 2 == 1) then q + 1 else q
  }

  /** Round to nearest, ties to even; scaling by a power of two does not change the rounding. */
  function RoundEven(x: nat): nat {
    Mantissa(x) * Ulp(x)
  }

  /** The constant itself is 2/3 rounded: no 53-bit fraction is nearer. */
  lemma TwoThirdsIsNearest(c: nat)
    ensures var off := 2 * TWO_53 - 3 * TWO_THIRDS; off == 1 && (3 * c - 2 * TWO_53 >= off || 2 * TWO_53 - 3 * c >= off)
  {
  }

  lemma {:induction false} UlpBounds(x: nat)
    ensures x < TWO_53 * Ulp(x)
    ensures x >= TWO_53 ==> 2 * x >= TWO_53 * Ulp(x) && Ulp(x) >= 2
    ensures x < TWO_53 ==> Ulp(x) == 1
  {
    if x >= TWO_53 {
      UlpBounds(x / 2);
    }
  }

  lemma {:induction false} Pow2Divides(s: nat, t: nat)
    requires s <= t
    ensures Pow2(t) == Pow2(s) * Pow2(t - s)
    decreases t
  {
    if s < t {
      Pow2Divides(s, t - 1);
    }
  }

  lemma {:induction false} Pow2Monotone(s: nat, t: nat)
    requires Pow2(s) < Pow2(t)
    ensures s < t
    decreases s + t
  {
    if s > 0 && t > 0 {
      Pow2Monotone(s - 1, t - 1);
    }
  }

  lemma Pow2Of53()
    ensures Pow2(53) == TWO_53
  {
    assert Pow2(10) == 0x400;
    assert Pow2(20) == 0x10_0000 by { Pow2Divides(10, 20); }
    assert Pow2(40) == 0x100_0000_0000 by { Pow2Divides(20, 40); }
    assert Pow2(50) == 0x4_0000_0000_0000 by { Pow2Divides(10, 50); }
  }

  /** Below 2^106 the spacing of doubles divides 2^53. */
  lemma UlpDivides(x: nat) returns (w: nat)
    requires x < TWO_53 * TWO_53
    ensures TWO_53 == w * Ulp(x)
  {
    UlpBounds(x);
    Pow2Of53();
    Pow2Monotone(Shift(x), 54);
    Pow2Divides(Shift(x), 53);
    w := Pow2(53 - Shift(x));
  }

  /** Rounding picks a neighbour at most half a spacing away, and the even one in a tie. */
  lemma RoundsToNearest(x: nat)
    ensures var r, u := RoundEven(x), Ulp(x);
      && 2 * (r - x) <= u && 2 * (x - r) <= u
      && (2 * (r - x) == u || 2 * (x - r) == u ==> Mantissa(x) % 2 == 0)
  {
    hide Ulp;
    var u := Ulp(x);
    var q, r := Floor(x, u), x % u;
    assert x == q * u + r && (q + 1) * u == q * u + u;
  }

  /** A multiple of the spacing at or below x stays at or below the rounded value. */
  lemma RoundsFrom(x: nat, m: nat)
    requires m * Ulp(x) <= x
    ensures m * Ulp(x) <= RoundEven(x)
  {
    hide Ulp;
    var u := Ulp(x);
    QuotientAbove(x, u, m);
    var q := x / u;
    assert m * u <= q * u;
    assert (q + 1) * u == q * u + u;
  }

  lemma QuotientAbove(x: nat, u: nat, m: nat)
    requires u >= 1 && m * u <= x
    ensures m <= x / u && m * u <= (x / u) * u
  {
    var q := x / u;
    assert x < q * u + u;
    assert (m - q) * u == m * u - q * u;
    MulSign(m - q, u);
  }

  /** Nearer than half a spacing to the multiple above: rounds up to it. */
  lemma RoundsUpTo(x: nat, m: nat)
    requires var u := Ulp(x); x < m * u && (2 * (m * u - x) < u || (2 * (m * u - x) == u && m % 2 == 0))
    ensures RoundEven(x) == m * Ulp(x)
  {
    hide Ulp;
    var u := Ulp(x);
    Quotient(x, u, m);
  }

  lemma Quotient(x: nat, u: nat, m: nat)
    requires u >= 1 && x < m * u && m * u - x < u
    ensures x / u == m - 1 && x % u == u - (m * u - x)
  {
    var q, r := x / u, x % u;
    assert x == q * u + r;
    assert (m - q - 1) * u == m * u - q * u - u;
    MulSign(m - q - 1, u);
  }

  /** Farther than half a spacing below a multiple: does not reach it. */
  lemma RoundsBelow(x: nat, m: nat)
    requires x < m * Ulp(x) && 2 * (m * Ulp(x) - x) > Ulp(x)
    ensures RoundEven(x) < m * Ulp(x)
  {
    hide Ulp;
    var u := Ulp(x);
    var q, r := x / u, x % u;
    assert x == q * u + r;
    assert (q + 1) * u == q * u + u;
    var d := m - q - 1;
    assert d * u == m * u - q * u - u;
    MulSign(d, u);
  }

  /** A multiple of the spacing at or above x stays at or above the rounded value. */
  lemma RoundsAtMost(x: nat, m: nat)
    requires x <= m * Ulp(x)
    ensures RoundEven(x) <= m * Ulp(x)
  {
    hide Ulp;
    var u := Ulp(x);
    var q, r := x / u, x % u;
    assert x == q * u + r;
    assert (q + 1) * u == q * u + u;
    var d := m - q - 1;
    assert d * u == m * u - q * u - u;
    MulSign(d, u);
  }

  /** Multiples of three: the product is two thirds of n exactly, also in the tie where the mantissa overflows. */
  lemma ProductAtMultipleOfThree(m: nat)
    requires 3 * m <= TWO_53
    ensures RoundEven(TWO_THIRDS * (3 * m)) == 2 * m * TWO_53
  {
    hide Ulp;
    var x := TWO_THIRDS * (3 * m);
    assert x == 2 * m * TWO_53 - m;
    UlpBounds(x);
    var u := Ulp(x);
    var w := UlpDivides(x);
    var k := 2 * m * w;
    assert k * u == 2 * m * (w * u);
    if m > 0 {
      assert k % 2 == 0 by { assert k == 2 * (m * w); ModEven(m * w); }
      RoundsUpTo(x, k);
    }
  }

  lemma ModEven(a: nat)
    ensures 2 * a % 2 == 0
  {
  }

  /** Otherwise the product falls strictly between two integers, and stays between them when rounded. */
  lemma ProductBetween(n: nat, k: nat)
    requires n <= TWO_53 && 3 * k < 2 * n < 3 * k + 3
    ensures k * TWO_53 <= RoundEven(TWO_THIRDS * n) < (k + 1) * TWO_53
  {
    hide Ulp;
    var x := TWO_THIRDS * n;
    UlpBounds(x);
    var u := Ulp(x);
    var w := UlpDivides(x);
    assert (k * w) * u == k * (w * u);
    assert ((k + 1) * w) * u == (k + 1) * (w * u);
    RoundsFrom(x, k * w);
    RoundsBelow(x, (k + 1) * w);
  }

  lemma ExactIntegers(num: nat)
    ensures num <= TWO_53 ==> RoundEven(num) == num
    ensures num >= TWO_53 ==> RoundEven(num) >= TWO_53
  {
    hide Ulp;
    UlpBounds(num);
    var u := Ulp(num);
    if num >= TWO_53 {
      var q := num / u;
      assert num < (q + 1) * u;
      assert (q + 1) * u == q * u + u;
    }
  }
}
