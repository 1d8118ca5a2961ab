/**
 The arithmetic behind full coverage. A broadcast over k levels reaches the positions p + d_1 + ... + d_k
 modulo 3^k, where each d_l is 0 or one of two targets of level l. Reading position q as the polynomial
 (1 + y)^q over the field of three elements turns the count of hits into a product of k factors, and the
 lowest power of y in it decides: every position is hit once exactly when the factors' powers add up.
 */
module Ternary {

  function Pow(b: nat, e: nat): nat {
    if e == 0 then 1 else b * Pow(b, e - 1)
  }

  lemma {:induction false} PowPositive(b: nat, e: nat)
    requires b > 0
    ensures Pow(b, e) > 0
  {
    if e > 0 {
      PowPositive(b, e - 1);
    }
  }

  lemma {:induction false} PowAdd(b: nat, d: nat, e: nat)
    ensures Pow(b, d + e) == Pow(b, d) * Pow(b, e)
  {
    if d > 0 {
      PowAdd(b, d - 1, e);
      calc {
        Pow(b, d + e);
        b * (Pow(b, d - 1) * Pow(b, e));
        Pow(b, d) * Pow(b, e);
      }
    }
  }

  lemma {:induction false} PowGrows(a: nat, b: nat)
    requires a < b
    ensures Pow(3, a) < Pow(3, b)
    decreases b
  {
    PowPositive(3, b - 1);
    if a < b - 1 { PowGrows(a, b - 1); }
  }

  // ---------------------------------------------------------------- moments

  predicate Same(a: int, b: int) {
    (a - b) % 3 == 0
  }

  lemma SameRefl(a: int)
    ensures Same(a, a)
  {
  }

  /** Binomial coefficients: the coefficient of y^j in (1 + y)^p. */
  function Choose(p: nat, j: int): nat {
    if j < 0 then 0 else if j == 0 then 1 else if p == 0 then 0 else Choose(p - 1, j) + Choose(p - 1, j - 1)
  }

  /** The two targets of each level, counted from 1. */
  type Targets = nat -> (nat, nat)

  /** The coefficient of y^j in the sum of (1 + y)^q over all positions q reached from p over l levels. */
  function Moment(t: Targets, l: nat, p: nat, j: int): nat
    decreases l
  {
    if l == 0 then Choose(p, j)
    else Moment(t, l - 1, p, j) + Moment(t, l - 1, p + t(l).0, j) + Moment(t, l - 1, p + t(l).1, j)
  }

  lemma OneLevel(t: Targets, l: nat, p: nat, j: int)
    requires l > 0
    ensures Moment(t, l, p, j)
         == Moment(t, l - 1, p, j) + Moment(t, l - 1, p + t(l).0, j) + Moment(t, l - 1, p + t(l).1, j)
  {
  }

  lemma {:induction false} Pascal(t: Targets, l: nat, p: nat, j: int)
    ensures Moment(t, l, p + 1, j) == Moment(t, l, p, j) + Moment(t, l, p, j - 1)
    decreases l
  {
    hide Moment;
    if l == 0 {
      ChoosePascal(t, p, j);
    } else {
      OneLevel(t, l, p + 1, j);
      OneLevel(t, l, p, j);
      OneLevel(t, l, p, j - 1);
      Pascal(t, l - 1, p, j);
      Pascal(t, l - 1, p + t(l).0, j);
      Pascal(t, l - 1, p + t(l).1, j);
      assert p + 1 + t(l).0 == p + t(l).0 + 1 && p + 1 + t(l).1 == p + t(l).1 + 1;
    }
  }

  lemma ChoosePascal(t: Targets, p: nat, j: int)
    ensures Moment(t, 0, p + 1, j) == Moment(t, 0, p, j) + Moment(t, 0, p, j - 1)
  {
  }

  /** Modulo three, (1 + y)^(3^e) is 1 + y^(3^e). */
  lemma {:induction false} Frobenius(t: Targets, l: nat, p: nat, e: nat, j: int)
    ensures Same(Moment(t, l, p + Pow(3, e), j), Moment(t, l, p, j) + Moment(t, l, p, j - Pow(3, e)))
    decreases e
  {
    hide Moment, Same;
    if e == 0 {
      Pascal(t, l, p, j);
      SameRefl(Moment(t, l, p + 1, j));
    } else {
      var m := Pow(3, e - 1);
      Frobenius(t, l, p + 2 * m, e - 1, j);
      assert Pow(3, e) == 3 * m;
      Frobenius(t, l, p + m, e - 1, j);
      Frobenius(t, l, p + m, e - 1, j - m);
      Frobenius(t, l, p, e - 1, j);
      Frobenius(t, l, p, e - 1, j - m);
      Frobenius(t, l, p, e - 1, j - 2 * m);
      assert p + 2 * m + m == p + Pow(3, e) && p + m + m == p + 2 * m;
      assert j - m - m == j - 2 * m && j - 2 * m - m == j - Pow(3, e);
      ThreeSteps(Moment(t, l, p + Pow(3, e), j), Moment(t, l, p + 2 * m, j), Moment(t, l, p + 2 * m, j - m),
                 Moment(t, l, p + m, j), Moment(t, l, p + m, j - m), Moment(t, l, p + m, j - 2 * m),
                 Moment(t, l, p, j), Moment(t, l, p, j - m), Moment(t, l, p, j - 2 * m), Moment(t, l, p, j - Pow(3, e)));
    }
  }

  /** Adding neighbours three times leaves, modulo three, the first and the last. */
  lemma ThreeSteps(f: int, c0: int, c1: int, b0: int, b1: int, b2: int, a0: int, a1: int, a2: int, a3: int)
    requires Same(f, c0 + c1) && Same(c0, b0 + b1) && Same(c1, b1 + b2)
    requires Same(b0, a0 + a1) && Same(b1, a1 + a2) && Same(b2, a2 + a3)
    ensures Same(f, a0 + a3)
  {
    var k, k0, k1 := (f - c0 - c1) / 3, (c0 - b0 - b1) / 3, (c1 - b1 - b2) / 3;
    var j0, j1, j2 := (b0 - a0 - a1) / 3, (b1 - a1 - a2) / 3, (b2 - a2 - a3) / 3;
    Threes(f, a1 + a2 + k + k0 + k1, j0 + 2 * j1 + j2, a0 + a3);
  }

  /** n * (n - 1) / 2. */
  function Pairs(n: nat): nat {
    if n == 0 then 0 else Pairs(n - 1) + (n - 1)
  }

  lemma TimesMultiple(c: int, z: int)
    requires z % 3 == 0
    ensures (c * z) % 3 == 0
  {
    assert c * z == 3 * (c * (z / 3));
  }

  lemma SameSum(h: int, f: int, g: int, x: int, y: int, a: int, b: int, c: int, d: int)
    requires Same(h, f + g) && Same(f, x + a + b) && Same(g, y + c + d) && d % 3 == 0
    ensures Same(h, x + (a + y) + (b + c))
  {
  }

  lemma NextTerms(n: nat, x: int, y: int)
    requires n > 0
    ensures n * x == (n - 1) * x + x && Pairs(n) * y == Pairs(n - 1) * y + (n - 1) * y
  {
    assert Pairs(n) == Pairs(n - 1) + (n - 1);
    Distributes(n - 1, 1, x);
    Distributes(Pairs(n - 1), n - 1, y);
  }

  lemma Distributes(a: int, b: int, x: int)
    ensures (a + b) * x == a * x + b * x
  {
  }

  /** Below a power that is cut off, (1 + Y)^n is 1 + n Y + n (n - 1) / 2 Y^2, with Y = y^(3^e). */
  lemma {:induction false} Expand(t: Targets, l: nat, p: nat, e: nat, n: nat, m: int, j: int)
    requires forall i {:trigger Moment(t, l, p, i)} :: i < m ==> Moment(t, l, p, i) % 3 == 0
    requires j < m + 3 * Pow(3, e)
    ensures var d := Pow(3, e);
      Same(Moment(t, l, p + n * d, j),
           Moment(t, l, p, j) + n * Moment(t, l, p, j - d) + Pairs(n) * Moment(t, l, p, j - 2 * d))
    decreases n
  {
    hide Moment, Same, Pairs;
    var d := Pow(3, e);
    PowPositive(3, e);
    if n == 0 {
      NoTerms(Moment(t, l, p, j), Moment(t, l, p, j - d), Moment(t, l, p, j - 2 * d));
      assert p + n * d == p;
    } else {
      var c := n - 1;
      Expand(t, l, p, e, c, m, j);
      Expand(t, l, p, e, c, m, j - d);
      Frobenius(t, l, p + c * d, e, j);
      Distributes(c, 1, d);
      assert p + c * d + d == p + n * d;
      var w, x, y, z := Moment(t, l, p, j), Moment(t, l, p, j - d), Moment(t, l, p, j - 2 * d), Moment(t, l, p, j - 3 * d);
      assert j - d - d == j - 2 * d && j - d - 2 * d == j - 3 * d;
      TimesMultiple(Pairs(c), z);
      SameSum(Moment(t, l, p + n * d, j), Moment(t, l, p + c * d, j), Moment(t, l, p + c * d, j - d),
              w, x, c * x, Pairs(c) * y, c * y, Pairs(c) * z);
      NextTerms(n, x, y);
    }
  }

  lemma NoTerms(w: int, x: int, y: int)
    ensures Same(w, w + 0 * x + Pairs(0) * y)
  {
  }

  // ---------------------------------------------------------------- the lowest power

  /** Modulo three the lowest power of y is m, with coefficient c, wherever the broadcast starts. */
  ghost predicate Order(t: Targets, l: nat, m: int, c: int) {
    forall p: nat, j: int {:trigger Moment(t, l, p, j)} ::
      (j < m ==> Moment(t, l, p, j) % 3 == 0) && (j == m ==> Moment(t, l, p, j) % 3 == c)
  }

  lemma NothingBelow(t: Targets, l: nat, m: int, c: int, p: nat)
    requires Order(t, l, m, c)
    ensures forall i {:trigger Moment(t, l, p, i)} :: i < m ==> Moment(t, l, p, i) % 3 == 0
  {
  }

  lemma OrderOfNothing(t: Targets)
    ensures Order(t, 0, 0, 1)
  {
  }

  lemma SameLevel(w: int, f: int, g: int, a: int, b: int, c: int, d: int)
    requires Same(f, w + a + c) && Same(g, w + b + d)
    ensures Same(w + f + g, (a + b) + (c + d))
  {
  }

  /** What one level does to a coefficient, when 3^e divides both of its targets. */
  lemma LevelExpands(t: Targets, l: nat, m: int, c: int, e: nat, a: nat, b: nat, p: nat, j: int)
    requires l > 0 && Order(t, l - 1, m, c) && t(l) == (a * Pow(3, e), b * Pow(3, e)) && j < m + 3 * Pow(3, e)
    ensures var d := Pow(3, e);
      Same(Moment(t, l, p, j), (a + b) * Moment(t, l - 1, p, j - d) + (Pairs(a) + Pairs(b)) * Moment(t, l - 1, p, j - 2 * d))
  {
    hide Moment, Same, Pairs, Pow, Order;
    var d := Pow(3, e);
    OneLevel(t, l, p, j);
    NothingBelow(t, l - 1, m, c, p);
    Expand(t, l - 1, p, e, a, m, j);
    Expand(t, l - 1, p, e, b, m, j);
    var w, x, y := Moment(t, l - 1, p, j), Moment(t, l - 1, p, j - d), Moment(t, l - 1, p, j - 2 * d);
    SameLevel(w, Moment(t, l - 1, p + t(l).0, j), Moment(t, l - 1, p + t(l).1, j),
              a * x, b * x, Pairs(a) * y, Pairs(b) * y);
    Distributes(a, b, x);
    Distributes(Pairs(a), Pairs(b), y);
  }

  lemma {:induction false} PairsModThree(n: nat)
    ensures Pairs(n) % 3 == if n % 3 == 2 then 1 else 0
    decreases n
  {
    if n >= 3 {
      PairsModThree(n - 3);
      assert Pairs(n - 2) == Pairs(n - 3) + (n - 3);
      assert Pairs(n - 1) == Pairs(n - 2) + (n - 2);
      assert Pairs(n) == Pairs(n - 1) + (n - 1);
    } else if n == 2 {
      assert Pairs(1) == 0;
    }
  }

  lemma PairsCancel(a: nat, b: nat)
    requires (a + b) % 3 == 0 && a % 3 != 0
    ensures (Pairs(a) + Pairs(b)) % 3 == 1
  {
    hide Pairs;
    PairsModThree(a);
    PairsModThree(b);
    SumModThree(a, b);
    SumModThree(Pairs(a), Pairs(b));
  }

  lemma SumModThree(x: int, y: int)
    ensures (x + y) % 3 == (x % 3 + y % 3) % 3
  {
  }

  lemma SameProduct(a: int, x: int)
    ensures Same(a * x, (a % 3) * (x % 3))
  {
    var q, r := a / 3, x / 3;
    assert a * x == (3 * q + a % 3) * x;
    assert (3 * q + a % 3) * x == 3 * (q * x) + (a % 3) * x by { Distributes(3 * q, a % 3, x); }
    assert (a % 3) * x == (a % 3) * (3 * r) + (a % 3) * (x % 3);
    assert (a % 3) * (3 * r) == 3 * ((a % 3) * r);
    Threes(a * x, q * x, (a % 3) * r, (a % 3) * (x % 3));
  }

  lemma Threes(w: int, u: int, v: int, z: int)
    requires w == 3 * u + 3 * v + z
    ensures Same(w, z)
  {
    assert w - z == 3 * (u + v);
  }

  lemma SameDrop(w: int, u: int, v: int, z: int)
    requires Same(w, u + v) && v % 3 == 0 && Same(u, z)
    ensures Same(w, z)
  {
  }

  lemma LowTerm(w: int, a: int, x: int, s: int, y: int)
    requires Same(w, a * x + s * y) && a % 3 == 0 && s % 3 == 1
    ensures w % 3 == y % 3
  {
    TimesMultiple(x, a);
    SameProduct(s, y);
    assert (s % 3) * (y % 3) == y % 3;
    SameDrop(w, s * y, a * x, y % 3);
  }

  lemma SameMod(w: int, z: int)
    requires Same(w, z)
    ensures w % 3 == z % 3
  {
  }

  lemma DoubleMod(x: int)
    ensures (2 * x) % 3 == if x % 3 == 0 then 0 else 3 - x % 3
  {
  }

  lemma LowTermOnce(w: int, a: int, x: int, s: int, y: int)
    requires Same(w, a * x + s * y) && y % 3 == 0 && a % 3 != 0
    ensures w % 3 == if x % 3 == 0 || a % 3 == 1 then x % 3 else 3 - x % 3
  {
    hide Same;
    TimesMultiple(s, y);
    var q, r := a / 3, a % 3;
    assert a * x == 3 * (q * x) + r * x by { Distributes(3 * q, r, x); assert (3 * q) * x == 3 * (q * x); }
    Threes(a * x, q * x, 0, r * x);
    SameDrop(w, a * x, s * y, r * x);
    SameMod(w, r * x);
    DoubleMod(x);
  }

  /** Targets that do not cancel raise the lowest power by 3^e. */
  lemma OrderStepOnce(t: Targets, l: nat, m: int, c: int, e: nat, a: nat, b: nat)
    requires l > 0 && Order(t, l - 1, m, c) && t(l) == (a * Pow(3, e), b * Pow(3, e)) && 1 <= c <= 2 && (a + b) % 3 != 0
    ensures Order(t, l, m + Pow(3, e), if (a + b) % 3 == 1 then c else 3 - c)
  {
    hide Pairs, Moment, Pow, Same;
    var d := Pow(3, e);
    PowPositive(3, e);
    forall p: nat, j: int | j <= m + d
      ensures Moment(t, l, p, j) % 3 == if j < m + d then 0 else if (a + b) % 3 == 1 then c else 3 - c
    {
      LevelExpands(t, l, m, c, e, a, b, p, j);
      LowTermOnce(Moment(t, l, p, j), a + b, Moment(t, l - 1, p, j - d), Pairs(a) + Pairs(b), Moment(t, l - 1, p, j - 2 * d));
    }
  }

  /** Targets that cancel modulo three raise it by twice 3^e and keep the coefficient. */
  lemma OrderStepTwice(t: Targets, l: nat, m: int, c: int, e: nat, a: nat, b: nat)
    requires l > 0 && Order(t, l - 1, m, c) && t(l) == (a * Pow(3, e), b * Pow(3, e)) && (a + b) % 3 == 0 && a % 3 != 0
    ensures Order(t, l, m + 2 * Pow(3, e), c)
  {
    hide Pairs, Moment, Pow, Same;
    var d := Pow(3, e);
    PowPositive(3, e);
    PairsCancel(a, b);
    var s := Pairs(a) + Pairs(b);
    forall p: nat, j: int | j <= m + 2 * d
      ensures (j < m + 2 * d ==> Moment(t, l, p, j) % 3 == 0) && (j == m + 2 * d ==> Moment(t, l, p, j) % 3 == c)
    {
      LevelExpands(t, l, m, c, e, a, b, p, j);
      var x, y := Moment(t, l - 1, p, j - d), Moment(t, l - 1, p, j - 2 * d);
      LowTerm(Moment(t, l, p, j), a + b, x, s, y);
    }
  }
}
