/**
 p2p/raintree/peerstore_utils.go: the sizes and targets of a level as float64 arithmetic gives them, with
 math.Pow multiplying by repeated squaring. Up to four levels below the top the rounding is invisible on
 3^k peers; five levels below, the size is one short.
 */
module RainTreeSizes {
  import opened Common
  import opened Float64

  // ---------------------------------------------------------------- doubles

  /** The double m * 2^e. */
  datatype Double = Double(m: nat, e: int)

  function FromInt(n: nat): Double {
    Double(Mantissa(n), Shift(n))
  }

  function Times(a: Double, b: Double): Double {
    Double(Mantissa(a.m * b.m), a.e + b.e + Shift(a.m * b.m))
  }

  function Truncate(d: Double): nat {
    if d.e >= 0 then d.m * Pow2(d.e) else Floor(d.m, Pow2(-d.e))
  }

  /** a * x^i, multiplied out by squaring. */
  function Squaring(a: Double, x: Double, i: nat): Double
    decreases i
  {
    if i == 0 then a else Squaring(if i % 2 == 1 then Times(a, x) else a, Times(x, x), i / 2)
  }

  // ---------------------------------------------------------------- sizes and targets

  const SHRINKAGE := Double(TWO_THIRDS, -53)

  function Coefficient(d: nat): Double {
    Squaring(Double(1, 0), SHRINKAGE, d)
  }

  /** The part of the peer list a level walks: two thirds per level below the top, truncated once. */
  function PeerstoreSize(n: nat, levels: nat, level: nat): nat
    requires level <= levels
  {
    Truncate(Times(FromInt(n), Coefficient(levels - level)))
  }

  function FirstTarget(size: nat): nat {
    Truncate(Times(Double(TWO_THIRDS, -54), FromInt(size)))
  }

  function SecondTarget(size: nat): nat {
    Truncate(Times(Double(TWO_THIRDS, -53), FromInt(size)))
  }

  // ---------------------------------------------------------------- truncated products

  lemma DivBound(a: nat, b: nat, n: nat)
    requires b > 0 && a <= n * b
    ensures a / b <= n
  {
    var q := a / b;
    assert q * b <= a && q * b == n * b + (q - n) * b;
    MulSign(q - n, b);
  }

  lemma MulDiv(a: nat, b: nat)
    requires b > 0
    ensures (a * b) / b == a
  {
    DivBound(a * b, b, a);
    var q := a * b / b;
    assert a * b == q * b + (a * b) % b;
    assert (a - q) * b == a * b - q * b;
    MulSign(a - q, b);
  }

  lemma MulDivMul(a: nat, b: nat, c: nat)
    requires b > 0 && c > 0
    ensures b * c > 0 && (a * c) / (b * c) == a / b
  {
    var q, r := a / b, a % b;
    MulSign(b, c);
    Scaled(a, b, q, r, c);
    QuotientIs(a * c, b * c, q, r * c);
  }

  lemma Scaled(a: nat, b: nat, q: nat, r: nat, c: nat)
    requires a == q * b + r && r < b && c > 0
    ensures a * c == q * (b * c) + r * c && 0 <= r * c < b * c
  {
    assert (q * b + r) * c == (q * b) * c + r * c;
    assert (q * b) * c == q * (b * c);
    assert (b - 1 - r) * c == b * c - c - r * c;
    MulSign(b - 1 - r, c);
  }

  lemma QuotientIs(x: nat, y: nat, q: nat, r: int)
    requires y > 0 && x == q * y + r && 0 <= r < y
    ensures x / y == q
  {
    var p, s := x / y, x % y;
    assert x == p * y + s;
    assert (p - q) * y == p * y - q * y;
    MulSign(p - q, y);
    MulSign(q - p, y);
    assert (q - p) * y == q * y - p * y;
  }

  lemma RoundedValue(x: nat)
    ensures RoundEven(x) == Mantissa(x) * Pow2(Shift(x))
  {
  }

  lemma TruncatedWide(m: nat, s: nat, g: nat)
    requires s >= g
    ensures m * Pow2(s - g) == m * Pow2(s) / Pow2(g)
  {
    hide Pow2;
    Pow2Divides(g, s);
    assert m * Pow2(s) == (m * Pow2(s - g)) * Pow2(g) by { assert m * (Pow2(g) * Pow2(s - g)) == (m * Pow2(s - g)) * Pow2(g); }
    MulDiv(m * Pow2(s - g), Pow2(g));
  }

  lemma TruncatedNarrow(m: nat, s: nat, g: nat)
    requires s < g
    ensures m / Pow2(g - s) == m * Pow2(s) / Pow2(g)
  {
    hide Pow2;
    Pow2Divides(s, g);
    MulDivMul(m, Pow2(g - s), Pow2(s));
    assert Pow2(g - s) * Pow2(s) == Pow2(g);
  }

  lemma TruncatedTimes(a: Double, b: Double)
    requires a.e + b.e <= 0
    ensures Truncate(Times(a, b)) == RoundEven(a.m * b.m) / Pow2(-a.e - b.e)
  {
    hide RoundEven, Pow2, Mantissa, Shift;
    var x := a.m * b.m;
    var s, g, m := Shift(x), -a.e - b.e, Mantissa(x);
    RoundedValue(x);
    if s >= g {
      TruncatedWide(m, s, g);
    } else {
      TruncatedNarrow(m, s, g);
    }
  }

  lemma SmallInt(n: nat)
    requires n < TWO_53
    ensures FromInt(n) == Double(n, 0)
  {
    ExactIntegers(n);
  }

  /** The targets of a size are its exact thirds, rounded down. */
  lemma TargetsAreThirds(size: nat)
    requires size < TWO_53
    ensures FirstTarget(size) == size / 3 && SecondTarget(size) == 2 * size / 3
  {
    hide RoundEven, Ulp, Truncate, Times, Pow2;
    SmallInt(size);
    TruncatedTimes(Double(TWO_THIRDS, -54), FromInt(size));
    TruncatedTimes(Double(TWO_THIRDS, -53), FromInt(size));
    BigPowers();
    ProductOfThirds(size);
    var r, k := RoundEven(TWO_THIRDS * size), 2 * size / 3;
    HalfQuotient(r, k);
  }

  lemma ProductOfThirds(size: nat)
    requires size < TWO_53
    ensures var k := 2 * size / 3; k * TWO_53 <= RoundEven(TWO_THIRDS * size) < (k + 1) * TWO_53
  {
    hide RoundEven;
    var k := 2 * size / 3;
    if 2 * size == 3 * k {
      assert size == 3 * (size / 3);
      ProductAtMultipleOfThree(size / 3);
    } else {
      ProductBetween(size, k);
    }
  }

  lemma HalfQuotient(r: nat, k: nat)
    requires k * TWO_53 <= r < (k + 1) * TWO_53
    ensures r / TWO_53 == k && r / (2 * TWO_53) == k / 2
  {
  }

  // ---------------------------------------------------------------- sizes stay in the list

  predicate AtMostOne(d: Double) {
    d.e <= 0 && d.m <= Pow2(-d.e)
  }

  lemma ShiftBound(x: nat, n: nat, g: nat)
    requires x <= n * Pow2(g) && n < TWO_53
    ensures Shift(x) <= g
  {
    hide Pow2;
    var s := Shift(x);
    UlpBounds(x);
    if s > g {
      Pow2Divides(g + 1, s);
      Pow2Divides(g, g + 1);
      assert Pow2(1) == 2 * Pow2(0) == 2 by { Pow2One(); }
      MulSign(Pow2(s - g - 1) - 1, Pow2(g));
      SpacingAbove(n, Pow2(g), Pow2(s), Pow2(s - g - 1));
    }
  }

  lemma Pow2One()
    ensures Pow2(0) == 1 && Pow2(1) == 2
  {
  }

  lemma SpacingAbove(n: nat, u: nat, v: nat, w: nat)
    requires u >= 1 && w >= 1 && v == (u * 2) * w && n < TWO_53
    ensures 2 * (n * u) < TWO_53 * v && v >= 2
  {
    MulSign(w - 1, u);
    assert (w - 1) * u == w * u - u;
    assert v == 2 * (w * u);
    MulSign(TWO_53 - n, u);
    assert (TWO_53 - n) * u == TWO_53 * u - n * u;
  }

  /** A bound that a double holds exactly survives rounding. */
  lemma RoundsWithin(x: nat, n: nat, g: nat)
    requires x <= n * Pow2(g) && n < TWO_53
    ensures RoundEven(x) <= n * Pow2(g) && Shift(x) <= g
  {
    hide RoundEven, Pow2;
    ShiftBound(x, n, g);
    var s := Shift(x);
    MultipleOf(n, g, s);
    RoundsAtMost(x, n * Pow2(g - s));
  }

  lemma CancelBound(a: nat, b: nat, u: nat)
    requires u >= 1 && a * u <= b * u
    ensures a <= b
  {
    MulSign(b - a, u);
    assert (b - a) * u == b * u - a * u;
  }

  lemma TimesAtMostOne(a: Double, b: Double)
    requires AtMostOne(a) && AtMostOne(b)
    ensures AtMostOne(Times(a, b))
  {
    hide RoundEven, Pow2, Mantissa, Shift;
    var x, g := a.m * b.m, -a.e - b.e;
    Pow2Divides(-a.e, g);
    MulMonotone(a.m, b.m, Pow2(-a.e), Pow2(-b.e));
    RoundsWithin(x, 1, g);
    var s := Shift(x);
    Pow2Divides(s, g);
    RoundedValue(x);
    CancelBound(Mantissa(x), Pow2(g - s), Pow2(s));
  }

  lemma MulMonotone(a: nat, b: nat, c: nat, d: nat)
    requires a <= c && b <= d
    ensures a * b <= c * d
  {
    if b > 0 && c > 0 {
      MulSign(c - a, b);
      MulSign(d - b, c);
      assert (c - a) * b == c * b - a * b;
      assert (d - b) * c == d * c - b * c;
    }
  }

  lemma {:induction false} SquaringAtMostOne(a: Double, x: Double, i: nat)
    requires AtMostOne(a) && AtMostOne(x)
    ensures AtMostOne(Squaring(a, x, i))
    decreases i
  {
    hide AtMostOne, Times;
    if i > 0 {
      TimesAtMostOne(a, x);
      TimesAtMostOne(x, x);
      SquaringAtMostOne(if i % 2 == 1 then Times(a, x) else a, Times(x, x), i / 2);
    }
  }

  /** For every number of peers both targets of every level are indices into the peer list. */
  lemma TargetsInView(n: nat, levels: nat, level: nat)
    requires 1 <= n < TWO_53 && level <= levels
    ensures var size := PeerstoreSize(n, levels, level);
      size <= n && FirstTarget(size) < n && SecondTarget(size) < n
  {
    hide RoundEven, Truncate, Times, FirstTarget, SecondTarget, Squaring;
    var c := Coefficient(levels - level);
    CoefficientAtMostOne(levels - level);
    SmallInt(n);
    TruncatedTimes(FromInt(n), c);
    MulMonotone(n, c.m, n, Pow2(-c.e));
    RoundsWithin(n * c.m, n, -c.e);
    DivBound(RoundEven(n * c.m), Pow2(-c.e), n);
    TargetsAreThirds(PeerstoreSize(n, levels, level));
  }

  lemma CoefficientAtMostOne(d: nat)
    ensures AtMostOne(Coefficient(d))
  {
    hide Squaring;
    Pow2Of53();
    assert Pow2(0) == 1;
    SquaringAtMostOne(Double(1, 0), SHRINKAGE, d);
  }

  // ---------------------------------------------------------------- the first five coefficients

  lemma {:induction false} ShiftAt(x: nat, s: nat)
    requires x < TWO_53 * Pow2(s) && (s > 0 ==> TWO_53 * Pow2(s) <= 2 * x)
    ensures Shift(x) == s
    decreases s
  {
    if s > 0 {
      ShiftAt(x / 2, s - 1);
    }
  }

  /** A multiple of the spacing less than half of it away is the rounded value. */
  lemma RoundedIs(x: nat, s: nat, m: nat)
    requires x < TWO_53 * Pow2(s) && (s > 0 ==> TWO_53 * Pow2(s) <= 2 * x)
    requires 2 * (x - m * Pow2(s)) < Pow2(s) && 2 * (m * Pow2(s) - x) < Pow2(s)
    ensures Mantissa(x) == m && Shift(x) == s
  {
    hide Pow2;
    ShiftAt(x, s);
    var u := Pow2(s);
    if x < m * u {
      Quotient(x, u, m);
    } else {
      QuotientIs(x, u, m, x - m * u);
      assert x % u == x - m * u by { assert x == m * u + x % u; }
    }
  }

  lemma TimesIs(a: Double, b: Double, s: nat, m: nat)
    requires var x := a.m * b.m; x < TWO_53 * Pow2(s) && (s > 0 ==> TWO_53 * Pow2(s) <= 2 * x)
    requires 2 * (a.m * b.m - m * Pow2(s)) < Pow2(s) && 2 * (m * Pow2(s) - a.m * b.m) < Pow2(s)
    ensures Times(a, b) == Double(m, a.e + b.e + s)
  {
    RoundedIs(a.m * b.m, s, m);
  }

  lemma TimesOne(b: Double)
    requires b.m < TWO_53
    ensures Times(Double(1, 0), b) == b
  {
    assert Pow2(0) == 1;
    TimesIs(Double(1, 0), b, 0, b.m);
  }

  const SQUARE := Double(0x1C71C71C71C71C, -54)
  const CUBE := Double(0x12F684BDA12F68, -54)
  const FOURTH := Double(0x1948B0FCD6E9E0, -55)
  const FIFTH := Double(0x10DB20A88F4695, -55)

  lemma Powers()
    ensures Times(SHRINKAGE, SHRINKAGE) == SQUARE && Times(SHRINKAGE, SQUARE) == CUBE
    ensures Times(SQUARE, SQUARE) == FOURTH && Times(SHRINKAGE, FOURTH) == FIFTH
  {
    hide Times;
    Pow2Of53();
    assert Pow2(53) == 2 * Pow2(52);
    TimesIs(SHRINKAGE, SHRINKAGE, 52, SQUARE.m);
    TimesIs(SHRINKAGE, SQUARE, 53, CUBE.m);
    TimesIs(SQUARE, SQUARE, 53, FOURTH.m);
    TimesIs(SHRINKAGE, FOURTH, 53, FIFTH.m);
  }

  lemma Coefficients()
    ensures Coefficient(0) == Double(1, 0) && Coefficient(1) == SHRINKAGE && Coefficient(2) == SQUARE
    ensures Coefficient(3) == CUBE && Coefficient(4) == FOURTH && Coefficient(5) == FIFTH
  {
    hide Times, Squaring;
    var one := Double(1, 0);
    Powers();
    TimesOne(SHRINKAGE);
    TimesOne(SQUARE);
    TimesOne(FOURTH);
    var eighth := Times(FOURTH, FOURTH);
    SquaringStep(one, SHRINKAGE, 1);
    SquaringStep(one, SHRINKAGE, 2);
    SquaringStep(one, SHRINKAGE, 3);
    SquaringStep(one, SHRINKAGE, 4);
    SquaringStep(one, SHRINKAGE, 5);
    SquaringStep(one, SQUARE, 1);
    SquaringStep(SHRINKAGE, SQUARE, 1);
    SquaringStep(one, SQUARE, 2);
    SquaringStep(SHRINKAGE, SQUARE, 2);
    SquaringStep(one, FOURTH, 1);
    SquaringStep(SHRINKAGE, FOURTH, 1);
    SquaringDone(one, SHRINKAGE);
    SquaringDone(SHRINKAGE, SQUARE);
    SquaringDone(SQUARE, FOURTH);
    SquaringDone(CUBE, FOURTH);
    SquaringDone(FOURTH, eighth);
    SquaringDone(FIFTH, eighth);
  }

  lemma SquaringStep(a: Double, x: Double, i: nat)
    requires i > 0
    ensures Squaring(a, x, i) == Squaring(if i % 2 == 1 then Times(a, x) else a, Times(x, x), i / 2)
  {
  }

  lemma SquaringDone(a: Double, x: Double)
    ensures Squaring(a, x, 0) == a
  {
  }

  // ---------------------------------------------------------------- sizes on powers of three

  /** A product short of an integer by one part in 2^54 is rounded back to it. */
  lemma RoundsBack(x: nat, n: nat, g: nat)
    requires var y := n * Pow2(g); x <= y && 2 * TWO_53 * (y - x) == y && n < TWO_53
    ensures RoundEven(x) == n * Pow2(g)
  {
    hide RoundEven, Pow2;
    var y := n * Pow2(g);
    ShiftBound(x, n, g);
    var s := Shift(x);
    MultipleOf(n, g, s);
    var u, m := Pow2(s), n * Pow2(g - s);
    UlpBounds(x);
    if y > 0 {
      NearlyFull(x, y, u, m);
      RoundsUpTo(x, m);
    } else {
      ExactIntegers(0);
    }
  }

  lemma NearlyFull(x: nat, y: nat, u: nat, m: nat)
    requires u >= 1 && y == m * u && 2 * TWO_53 * (y - x) == y && x < TWO_53 * u && y > 0
    ensures x < y && (2 * (y - x) < u || (2 * (y - x) == u && m % 2 == 0))
  {
    assert (TWO_53 + 1 - m) * u == TWO_53 * u + u - y;
    MulSign(TWO_53 + 1 - m, u);
    if m == TWO_53 {
      assert m % 2 == 0;
    } else {
      assert (TWO_53 - m) * u == TWO_53 * u - y;
      MulSign(TWO_53 - m, u);
    }
  }

  /** A product short of an integer by more than one part in 2^53, and by less than one, stays short. */
  lemma RoundsShort(x: nat, n: nat, g: nat)
    requires n >= 1 && n < TWO_53
    requires var y := n * Pow2(g); x < y && TWO_53 * (y - x) > y && y - x <= Pow2(g)
    ensures (n - 1) * Pow2(g) <= RoundEven(x) < n * Pow2(g)
  {
    hide RoundEven, Pow2;
    StaysBelow(x, n, g);
    assert n * Pow2(g) - Pow2(g) == (n - 1) * Pow2(g);
    StaysAbove(x, n - 1, n, g);
  }

  lemma StaysBelow(x: nat, n: nat, g: nat)
    requires var y := n * Pow2(g); x < y && TWO_53 * (y - x) > y && n < TWO_53
    ensures RoundEven(x) < n * Pow2(g)
  {
    hide RoundEven, Pow2;
    ShiftBound(x, n, g);
    MultipleOf(n, g, Shift(x));
    UlpBounds(x);
    FarBelow(x, n * Pow2(g), Ulp(x));
    RoundsBelow(x, n * Pow2(g - Shift(x)));
  }

  lemma StaysAbove(x: nat, m: nat, n: nat, g: nat)
    requires m * Pow2(g) <= x <= n * Pow2(g) && n < TWO_53
    ensures m * Pow2(g) <= RoundEven(x)
  {
    hide RoundEven, Pow2;
    ShiftBound(x, n, g);
    MultipleOf(m, g, Shift(x));
    RoundsFrom(x, m * Pow2(g - Shift(x)));
  }

  lemma MultipleOf(n: nat, g: nat, s: nat)
    requires s <= g
    ensures n * Pow2(g) == (n * Pow2(g - s)) * Pow2(s)
  {
    hide Pow2;
    Pow2Divides(s, g);
    assert n * (Pow2(s) * Pow2(g - s)) == (n * Pow2(g - s)) * Pow2(s);
  }

  lemma FarBelow(x: nat, y: nat, u: nat)
    requires x < y && TWO_53 * (y - x) > y
    requires (x >= TWO_53 ==> 2 * x >= TWO_53 * u) && (x < TWO_53 ==> u == 1)
    ensures 2 * (y - x) > u
  {
  }

  /** The size of a level with coefficient c, when rounding gives r. */
  lemma SizeIs(n: nat, levels: nat, level: nat, c: Double)
    requires n < TWO_53 && level <= levels && Coefficient(levels - level) == c && c.e <= 0
    ensures PeerstoreSize(n, levels, level) == RoundEven(n * c.m) / Pow2(-c.e)
  {
    hide Truncate, Times, RoundEven, Coefficient;
    SmallInt(n);
    TruncatedTimes(FromInt(n), c);
  }

  lemma BigPowers()
    ensures Pow2(0) == 1 && Pow2(53) == TWO_53 && Pow2(54) == 2 * TWO_53 && Pow2(55) == 4 * TWO_53
  {
    Pow2Of53();
  }

  lemma ExactIf(n: nat, levels: nat, level: nat, c: Double, e: nat)
    requires n < TWO_53 && e < TWO_53 && level <= levels && Coefficient(levels - level) == c && c.e <= 0
    requires var y := e * Pow2(-c.e); n * c.m <= y && 2 * TWO_53 * (y - n * c.m) == y
    ensures PeerstoreSize(n, levels, level) == e
  {
    hide RoundEven, Coefficient, PeerstoreSize, Pow2;
    SizeIs(n, levels, level, c);
    RoundsBack(n * c.m, e, -c.e);
    MulDiv(e, Pow2(-c.e));
  }

  /** Up to four levels below the top of 3^k peers the computed size is the exact one. */
  lemma SizeIsExact(z: nat, levels: nat, level: nat)
    requires level <= levels <= level + 4
    requires [1, 3, 9, 27, 81][levels - level] * z < TWO_53
    ensures PeerstoreSize([1, 3, 9, 27, 81][levels - level] * z, levels, level) == [1, 2, 4, 8, 16][levels - level] * z
  {
    hide RoundEven, Coefficient, PeerstoreSize, Pow2;
    Coefficients();
    BigPowers();
    var d := levels - level;
    if d == 0 {
      SizeIs(z, levels, level, Double(1, 0));
      ExactIntegers(z);
    } else if d == 1 {
      ExactIf(3 * z, levels, level, SHRINKAGE, 2 * z);
    } else if d == 2 {
      ExactIf(9 * z, levels, level, SQUARE, 4 * z);
    } else if d == 3 {
      ExactIf(27 * z, levels, level, CUBE, 8 * z);
    } else {
      ExactIf(81 * z, levels, level, FOURTH, 16 * z);
    }
  }

  /** Five levels below the top it is one short. */
  lemma SizeIsShort(z: nat, levels: nat, level: nat)
    requires levels == level + 5 && 1 <= z && 243 * z < TWO_53
    ensures PeerstoreSize(243 * z, levels, level) == 32 * z - 1
  {
    hide RoundEven, Coefficient, PeerstoreSize, Pow2;
    Coefficients();
    BigPowers();
    SizeIs(243 * z, levels, level, FIFTH);
    var x, g := 243 * z * FIFTH.m, 4 * TWO_53;
    RoundsShort(x, 32 * z, 55);
    QuotientIs(RoundEven(x), g, 32 * z - 1, RoundEven(x) - (32 * z - 1) * g);
  }
}
