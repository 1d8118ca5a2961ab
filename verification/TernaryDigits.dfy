/**
 Which targets can add up. Each level raises the lowest power of y by 3^e, or by twice 3^e when its two
 targets are balanced; base-three digit sums decide when k such amounts make exactly 3^k - 1.
 */
module TernaryDigits {
  import opened Ternary
  import Collections

  // ---------------------------------------------------------------- powers of three in a target

  /** How often three divides a positive x. */
  function Val(x: nat): nat {
    if x > 0 && x % 3 == 0 then 1 + Val(x / 3) else 0
  }

  /** What is left of x without its factors of three. */
  function Rest(x: nat): nat {
    if x > 0 && x % 3 == 0 then Rest(x / 3) else x
  }

  /** Both targets hold three equally often, and their sum holds it more often. */
  predicate Balanced(a: nat, b: nat) {
    a > 0 && b > 0 && Val(a) == Val(b) && (Rest(a) + Rest(b)) % 3 == 0
  }

  predicate BalancedLevel(t: Targets, i: nat) {
    Balanced(t(i).0, t(i).1)
  }

  /** How often three divides both targets. */
  function Common(a: nat, b: nat): nat {
    if a == 0 then Val(b) else if b == 0 then Val(a) else if Val(a) <= Val(b) then Val(a) else Val(b)
  }

  /** How far a level with targets a and b, not both zero, raises the lowest power. */
  function Gain(a: nat, b: nat): nat {
    if Balanced(a, b) then 2 * Pow(3, Common(a, b)) else Pow(3, Common(a, b))
  }

  lemma {:induction false} Divided(x: nat, e: nat) returns (r: nat)
    requires x > 0 ==> e <= Val(x)
    ensures x == r * Pow(3, e)
    ensures x > 0 && e == Val(x) ==> r == Rest(x) && r % 3 != 0
    ensures x == 0 || e < Val(x) ==> r % 3 == 0
    decreases e
  {
    if e == 0 {
      return x;
    }
    if x == 0 {
      return 0;
    }
    r := Divided(x / 3, e - 1);
    Thrice(r, Pow(3, e - 1));
  }

  lemma Thrice(a: int, b: int)
    ensures 3 * (a * b) == a * (3 * b)
  {
  }

  function TotalGain(t: Targets, l: nat): nat {
    if l == 0 then 0 else TotalGain(t, l - 1) + Gain(t(l).0, t(l).1)
  }

  lemma OrderStep(t: Targets, l: nat, m: int, c: int) returns (c': int)
    requires l > 0 && t(l) != (0, 0) && Order(t, l - 1, m, c) && 1 <= c <= 2
    ensures Order(t, l, m + Gain(t(l).0, t(l).1), c') && 1 <= c' <= 2
    ensures BalancedLevel(t, l) ==> c' == c
  {
    hide Order;
    var e := Common(t(l).0, t(l).1);
    var a := Divided(t(l).0, e);
    var b := Divided(t(l).1, e);
    assert t(l) == (a * Pow(3, e), b * Pow(3, e));
    SumModThree(a, b);
    if (a + b) % 3 == 0 {
      assert a % 3 != 0;
      assert Balanced(t(l).0, t(l).1);
      OrderStepTwice(t, l, m, c, e, a, b);
      c' := c;
    } else {
      OrderStepOnce(t, l, m, c, e, a, b);
      c' := if (a + b) % 3 == 1 then c else 3 - c;
    }
  }

  lemma {:induction false} OrderOf(t: Targets, l: nat) returns (c: int)
    requires forall i | 1 <= i <= l :: t(i) != (0, 0)
    ensures Order(t, l, TotalGain(t, l), c) && 1 <= c <= 2
    ensures (forall i | 1 <= i <= l :: BalancedLevel(t, i)) ==> c == 1
    decreases l
  {
    if l == 0 {
      OrderOfNothing(t);
      c := 1;
    } else {
      c := OrderOf(t, l - 1);
      c := OrderStep(t, l, TotalGain(t, l - 1), c);
    }
  }

  /** A level without targets leaves nothing. */
  lemma {:induction false} NoOrder(t: Targets, l: nat, i: nat, p: nat, j: int)
    requires 1 <= i <= l && t(i) == (0, 0)
    ensures Moment(t, l, p, j) % 3 == 0
    decreases l
  {
    if i < l {
      NoOrder(t, l - 1, i, p, j);
      NoOrder(t, l - 1, i, p + t(l).0, j);
      NoOrder(t, l - 1, i, p + t(l).1, j);
      SumModThree(Moment(t, l - 1, p, j), Moment(t, l - 1, p + t(l).0, j));
      SumModThree(Moment(t, l - 1, p, j) + Moment(t, l - 1, p + t(l).0, j), Moment(t, l - 1, p + t(l).1, j));
    } else {
      assert Moment(t, l, p, j) == 3 * Moment(t, l - 1, p, j);
    }
  }

  // ---------------------------------------------------------------- digit sums

  function DigitSum(x: nat): nat {
    if x == 0 then 0 else x % 3 + DigitSum(x / 3)
  }

  lemma {:induction false} DigitSumNext(x: nat)
    ensures DigitSum(x + 1) <= DigitSum(x) + 1
    decreases x
  {
    if x % 3 == 2 {
      DigitSumNext(x / 3);
      assert (x + 1) / 3 == x / 3 + 1 && (x + 1) % 3 == 0;
    } else {
      assert (x + 1) / 3 == x / 3 && (x + 1) % 3 == x % 3 + 1;
      assert DigitSum(x) == x % 3 + DigitSum(x / 3);
    }
  }

  lemma {:induction false} DigitSumAdd(x: nat, y: nat)
    ensures DigitSum(x + y) <= DigitSum(x) + DigitSum(y)
    decreases x + y
  {
    if x > 0 && y > 0 {
      DigitSumAdd(x / 3, y / 3);
      if x % 3 + y % 3 >= 3 {
        DigitSumNext(x / 3 + y / 3);
        assert (x + y) / 3 == x / 3 + y / 3 + 1 && (x + y) % 3 == x % 3 + y % 3 - 3;
      } else {
        assert (x + y) / 3 == x / 3 + y / 3 && (x + y) % 3 == x % 3 + y % 3;
      }
    }
  }

  lemma {:induction false} DigitSumShift(x: nat, e: nat)
    ensures DigitSum(x * Pow(3, e)) == DigitSum(x)
    decreases e
  {
    if e > 0 {
      DigitSumShift(x, e - 1);
      Thrice(x, Pow(3, e - 1));
      DigitSumThrice(x * Pow(3, e - 1));
    }
  }

  lemma DigitSumThrice(y: nat)
    ensures DigitSum(3 * y) == DigitSum(y)
  {
    assert (3 * y) % 3 == 0 && (3 * y) / 3 == y;
  }

  lemma {:induction false} DigitSumFull(k: nat)
    ensures Pow(3, k) > 0 && DigitSum(Pow(3, k) - 1) == 2 * k
  {
    PowPositive(3, k);
    if k > 0 {
      DigitSumFull(k - 1);
      var m := Pow(3, k - 1);
      assert Pow(3, k) - 1 == 3 * (m - 1) + 2;
      assert (Pow(3, k) - 1) / 3 == m - 1 && (Pow(3, k) - 1) % 3 == 2;
    }
  }

  lemma GainDigits(a: nat, b: nat)
    ensures DigitSum(Gain(a, b)) == if Balanced(a, b) then 2 else 1
  {
    var e := Common(a, b);
    DigitSumShift(1, e);
    DigitSumShift(2, e);
    assert DigitSum(0) == 0 && DigitSum(1) == 1 && DigitSum(2) == 2;
  }

  /** The total with levels i and j left out. */
  function GainWithout(t: Targets, l: nat, i: nat, j: nat): nat {
    if l == 0 then 0
    else GainWithout(t, l - 1, i, j) + if l == i || l == j then 0 else Gain(t(l).0, t(l).1)
  }

  lemma {:induction false} GainSplit(t: Targets, l: nat, i: nat, j: nat)
    requires 1 <= i < j
    ensures TotalGain(t, l) == GainWithout(t, l, i, j)
                             + (if i <= l then Gain(t(i).0, t(i).1) else 0) + (if j <= l then Gain(t(j).0, t(j).1) else 0)
    ensures DigitSum(GainWithout(t, l, i, j)) <= 2 * (l - (if i <= l then 1 else 0) - (if j <= l then 1 else 0))
    decreases l
  {
    if l > 0 {
      GainSplit(t, l - 1, i, j);
      if l != i && l != j {
        GainDigits(t(l).0, t(l).1);
        DigitSumAdd(GainWithout(t, l - 1, i, j), Gain(t(l).0, t(l).1));
      }
    }
  }

  lemma {:induction false} TotalDigits(t: Targets, l: nat, i: nat)
    ensures DigitSum(TotalGain(t, l)) <= 2 * l
    ensures 1 <= i <= l && !BalancedLevel(t, i) ==> DigitSum(TotalGain(t, l)) < 2 * l
    ensures 1 <= i <= l ==> Gain(t(i).0, t(i).1) <= TotalGain(t, l)
    decreases l
  {
    if l > 0 {
      TotalDigits(t, l - 1, i);
      GainDigits(t(l).0, t(l).1);
      DigitSumAdd(TotalGain(t, l - 1), Gain(t(l).0, t(l).1));
    }
  }

  // ---------------------------------------------------------------- targets that cover

  predicate DifferentLevels(t: Targets, i: nat, j: nat) {
    Val(t(i).0) != Val(t(j).0)
  }

  predicate GoodLevel(t: Targets, k: nat, i: nat) {
    BalancedLevel(t, i) && Val(t(i).0) < k
  }

  /** Every level is balanced, and the levels hold 3^0, 3^1, ..., 3^(k-1) once each, in any order. */
  ghost predicate GoodTargets(t: Targets, k: nat) {
    (forall i | 1 <= i <= k :: GoodLevel(t, k, i)) && (forall i, j | 1 <= i < j <= k :: DifferentLevels(t, i, j))
  }

  lemma AllBalanced(t: Targets, k: nat, i: nat)
    requires TotalGain(t, k) == Pow(3, k) - 1 && 1 <= i <= k
    ensures GoodLevel(t, k, i)
  {
    hide TotalGain, DigitSum, Val, Pow, Rest;
    DigitSumFull(k);
    TotalDigits(t, k, i);
    BalancedGain(t, i);
    var e := Val(t(i).0);
    if e > k {
      PowGrows(k, e);
    }
  }

  lemma BalancedGain(t: Targets, i: nat)
    requires BalancedLevel(t, i)
    ensures Gain(t(i).0, t(i).1) == 2 * Pow(3, Val(t(i).0))
  {
  }

  lemma AllDifferent(t: Targets, k: nat, i: nat, j: nat)
    requires TotalGain(t, k) == Pow(3, k) - 1 && 1 <= i < j <= k
    ensures DifferentLevels(t, i, j)
  {
    hide TotalGain, GainWithout, DigitSum, Val, Pow, Rest, Gain;
    AllBalanced(t, k, i);
    AllBalanced(t, k, j);
    BalancedGain(t, i);
    BalancedGain(t, j);
    var e := Val(t(i).0);
    if e == Val(t(j).0) {
      DigitSumFull(k);
      GainSplit(t, k, i, j);
      DigitSumShift(4, e);
      DigitSumOfFour();
      DigitSumAdd(GainWithout(t, k, i, j), 4 * Pow(3, e));
    }
  }

  lemma DigitSumOfFour()
    ensures DigitSum(4) == 2
  {
    assert DigitSum(1) == 1;
  }

  lemma FullGainIsGood(t: Targets, k: nat)
    requires TotalGain(t, k) == Pow(3, k) - 1
    ensures GoodTargets(t, k)
  {
    forall i | 1 <= i <= k ensures GoodLevel(t, k, i) {
      AllBalanced(t, k, i);
    }
    forall i, j | 1 <= i < j <= k ensures DifferentLevels(t, i, j) {
      AllDifferent(t, k, i, j);
    }
  }

  // ---------------------------------------------------------------- and conversely

  /** Twice the powers of three with the given exponents. */
  function TwicePowers(es: seq<nat>): nat {
    if es == [] then 0 else TwicePowers(es[..|es| - 1]) + 2 * Pow(3, es[|es| - 1])
  }

  lemma {:induction false} TwicePowersRemove(es: seq<nat>, i: nat)
    requires i < |es|
    ensures TwicePowers(es) == TwicePowers(es[..i] + es[i + 1..]) + 2 * Pow(3, es[i])
    decreases |es|
  {
    var n := |es| - 1;
    if i == n {
      assert es[..i] + es[i + 1..] == es[..n];
    } else {
      TwicePowersRemove(es[..n], i);
      var rest := es[..i] + es[i + 1..];
      assert rest[..|rest| - 1] == es[..n][..i] + es[..n][i + 1..];
      assert rest[|rest| - 1] == es[n];
    }
  }

  ghost predicate AllOnce(es: seq<nat>) {
    (forall i | 0 <= i < |es| :: es[i] < |es|) && Collections.Distinct(es)
  }

  ghost function Below(n: nat): (s: set<nat>)
    ensures |s| == n && forall x: nat :: x in s <==> x < n
  {
    if n == 0 then {} else Below(n - 1) + {n - 1}
  }

  /** As many different exponents below k as there are numbers below k include k - 1. */
  lemma Pigeonhole(es: seq<nat>) returns (i: nat)
    requires AllOnce(es) && |es| > 0
    ensures i < |es| && es[i] == |es| - 1
  {
    var k := |es|;
    if forall i | 0 <= i < k :: es[i] != k - 1 {
      Collections.DistinctCount(es);
      Collections.SubsetSize(Collections.Elements(es), Below(k - 1));
      assert false;
    }
    i :| 0 <= i < k && es[i] == k - 1;
  }

  lemma {:induction false} AllOncePowers(es: seq<nat>)
    requires AllOnce(es)
    ensures TwicePowers(es) == Pow(3, |es|) - 1
    decreases |es|
  {
    if |es| > 0 {
      var i := Pigeonhole(es);
      var rest := es[..i] + es[i + 1..];
      TwicePowersRemove(es, i);
      forall j | 0 <= j < |rest| ensures rest[j] < |rest| {
        var j' := if j < i then j else j + 1;
        assert rest[j] == es[j'] && es[j'] != es[i];
      }
      AllOncePowers(rest);
    }
  }

  function Exponents(t: Targets, l: nat): (es: seq<nat>)
    ensures |es| == l && forall i: nat | i < l :: es[i] == Val(t(i + 1).0)
  {
    if l == 0 then [] else Exponents(t, l - 1) + [Val(t(l).0)]
  }

  lemma {:induction false} TotalGainIsPowers(t: Targets, l: nat)
    requires forall i | 1 <= i <= l :: BalancedLevel(t, i)
    ensures TotalGain(t, l) == TwicePowers(Exponents(t, l))
    decreases l
  {
    if l > 0 {
      TotalGainIsPowers(t, l - 1);
      assert BalancedLevel(t, l);
      assert Exponents(t, l)[..l - 1] == Exponents(t, l - 1);
    }
  }

  lemma GoodIsFullGain(t: Targets, k: nat)
    requires GoodTargets(t, k)
    ensures forall i | 1 <= i <= k :: BalancedLevel(t, i)
    ensures TotalGain(t, k) == Pow(3, k) - 1
  {
    forall i | 1 <= i <= k ensures BalancedLevel(t, i) {
      assert GoodLevel(t, k, i);
    }
    var es := Exponents(t, k);
    forall i | 0 <= i < k ensures es[i] < k {
      assert GoodLevel(t, k, i + 1);
    }
    forall i, j | 0 <= i < j < k ensures es[i] != es[j] {
      assert DifferentLevels(t, i + 1, j + 1);
    }
    TotalGainIsPowers(t, k);
    AllOncePowers(es);
  }
}
