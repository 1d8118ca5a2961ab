/** How often a broadcast over k levels hits each of 3^k positions: once each exactly for good targets. */
module TernaryHits {
  import opened Ternary
  import opened TernaryDigits

  function Wrap(n: nat, p: nat, w: nat): (q: nat)
    requires p < n && w < n
    ensures q < n
  {
    if p + w < n then p + w else p + w - n
  }

  ghost predicate Fits(n: nat, t: Targets) {
    forall l {:trigger t(l)} :: t(l).0 < n && t(l).1 < n
  }

  function Here(q: nat, p: nat): nat {
    if q == p then 1 else 0
  }

  /** How many ways there are from p to q of n positions, going 0 or one of the targets at each of l levels. */
  ghost function Hits(n: nat, t: Targets, p: nat, l: nat, q: nat): nat
    requires p < n && Fits(n, t)
    decreases l
  {
    if l == 0 then Here(q, p)
    else Hits(n, t, p, l - 1, q) + Hits(n, t, Wrap(n, p, t(l).0), l - 1, q) + Hits(n, t, Wrap(n, p, t(l).1), l - 1, q)
  }

  // ---------------------------------------------------------------- sums over positions

  /** The hits on positions below x, each weighted with the coefficient of y^j in (1 + y)^q. */
  ghost function Weighted(n: nat, t: Targets, p: nat, l: nat, x: nat, j: int): nat
    requires p < n && Fits(n, t)
    decreases x
  {
    if x == 0 then 0 else Weighted(n, t, p, l, x - 1, j) + Hits(n, t, p, l, x - 1) * Choose(x - 1, j)
  }

  lemma {:induction false} WeightedLevel(n: nat, t: Targets, p: nat, l: nat, x: nat, j: int)
    requires p < n && Fits(n, t) && l > 0
    ensures Weighted(n, t, p, l, x, j)
         == Weighted(n, t, p, l - 1, x, j) + Weighted(n, t, Wrap(n, p, t(l).0), l - 1, x, j)
          + Weighted(n, t, Wrap(n, p, t(l).1), l - 1, x, j)
    decreases x
  {
    if x > 0 {
      WeightedLevel(n, t, p, l, x - 1, j);
      var a, b, c := Hits(n, t, p, l - 1, x - 1), Hits(n, t, Wrap(n, p, t(l).0), l - 1, x - 1),
                     Hits(n, t, Wrap(n, p, t(l).1), l - 1, x - 1);
      Distributes(a + b, c, Choose(x - 1, j));
      Distributes(a, b, Choose(x - 1, j));
    }
  }

  lemma {:induction false} WeightedNone(n: nat, t: Targets, p: nat, x: nat, j: int)
    requires p < n && Fits(n, t)
    ensures Weighted(n, t, p, 0, x, j) == if p < x then Choose(p, j) else 0
    decreases x
  {
    if x > 0 {
      WeightedNone(n, t, p, x - 1, j);
    }
  }

  /** Going once around changes no coefficient below y^n. */
  lemma MomentAround(t: Targets, l: nat, k: nat, p: nat, w: nat, j: int)
    requires p < Pow(3, k) && w < Pow(3, k) && j < Pow(3, k)
    ensures Same(Moment(t, l, p + w, j), Moment(t, l, Wrap(Pow(3, k), p, w), j))
  {
    var q := Wrap(Pow(3, k), p, w);
    if q != p + w {
      Frobenius(t, l, q, k, j);
      MomentBelow(t, l, q, j - Pow(3, k));
    }
  }

  lemma {:induction false} MomentBelow(t: Targets, l: nat, p: nat, j: int)
    requires j < 0
    ensures Moment(t, l, p, j) == 0
    decreases l
  {
    if l > 0 {
      MomentBelow(t, l - 1, p, j);
      MomentBelow(t, l - 1, p + t(l).0, j);
      MomentBelow(t, l - 1, p + t(l).1, j);
    }
  }

  lemma SameThree(a: int, b: int, c: int, a': int, b': int, c': int)
    requires Same(a, a') && Same(b, b') && Same(c, c')
    ensures Same(a + b + c, a' + b' + c')
  {
  }

  lemma SameTrans(a: int, b: int, c: int)
    requires Same(a, b) && Same(b, c)
    ensures Same(a, c) && Same(c, a)
  {
  }

  lemma MomentOfStart(n: nat, t: Targets, p: nat, j: int)
    requires p < n && Fits(n, t)
    ensures Same(Moment(t, 0, p, j), Weighted(n, t, p, 0, n, j))
  {
    WeightedNone(n, t, p, n, j);
  }

  /** The hits of a broadcast, read as a polynomial. */
  lemma {:induction false} MomentOfHits(k: nat, t: Targets, p: nat, l: nat, j: int)
    requires p < Pow(3, k) && Fits(Pow(3, k), t) && j < Pow(3, k)
    ensures Same(Moment(t, l, p, j), Weighted(Pow(3, k), t, p, l, Pow(3, k), j))
    decreases l
  {
    hide Same, Weighted, Moment, Pow;
    var n := Pow(3, k);
    if l == 0 {
      MomentOfStart(n, t, p, j);
    } else {
      var a, b := Wrap(n, p, t(l).0), Wrap(n, p, t(l).1);
      MomentOfHits(k, t, p, l - 1, j);
      MomentOfHits(k, t, a, l - 1, j);
      MomentOfHits(k, t, b, l - 1, j);
      MomentAround(t, l - 1, k, p, t(l).0, j);
      MomentAround(t, l - 1, k, p, t(l).1, j);
      SameTrans(Moment(t, l - 1, p + t(l).0, j), Moment(t, l - 1, a, j), Weighted(n, t, a, l - 1, n, j));
      SameTrans(Moment(t, l - 1, p + t(l).1, j), Moment(t, l - 1, b, j), Weighted(n, t, b, l - 1, n, j));
      OneLevel(t, l, p, j);
      WeightedLevel(n, t, p, l, n, j);
      SameThree(Moment(t, l - 1, p, j), Moment(t, l - 1, p + t(l).0, j), Moment(t, l - 1, p + t(l).1, j),
                Weighted(n, t, p, l - 1, n, j), Weighted(n, t, a, l - 1, n, j), Weighted(n, t, b, l - 1, n, j));
    }
  }

  // ---------------------------------------------------------------- one hit each

  ghost predicate OneHitEach(k: nat, t: Targets, p: nat)
    requires p < Pow(3, k) && Fits(Pow(3, k), t)
  {
    forall q: nat | q < Pow(3, k) :: Hits(Pow(3, k), t, p, k, q) == 1
  }

  /** The sum of the coefficients of y^j in (1 + y)^q for q below x is the one of y^(j+1) in (1 + y)^x. */
  lemma {:induction false} HockeyStick(n: nat, t: Targets, p: nat, l: nat, x: nat, j: nat)
    requires p < n && Fits(n, t) && forall q: nat | q < x :: Hits(n, t, p, l, q) == 1
    ensures Weighted(n, t, p, l, x, j) == Choose(x, j + 1)
    decreases x
  {
    if x > 0 {
      HockeyStick(n, t, p, l, x - 1, j);
      assert Hits(n, t, p, l, x - 1) == 1;
    }
  }

  /** Modulo three (1 + y)^(3^k) has no coefficients between its first and its last. */
  lemma ChooseFull(t: Targets, k: nat, j: nat)
    requires j < Pow(3, k)
    ensures Same(Choose(Pow(3, k), j + 1), if j == Pow(3, k) - 1 then 1 else 0)
  {
    Frobenius(t, 0, 0, k, j + 1);
    assert Moment(t, 0, 0 + Pow(3, k), j + 1) == Choose(Pow(3, k), j + 1);
    assert Moment(t, 0, 0, j + 1) == Choose(0, j + 1) == 0;
    assert Moment(t, 0, 0, j + 1 - Pow(3, k)) == Choose(0, j + 1 - Pow(3, k));
  }

  lemma HitsGiveMoments(k: nat, t: Targets, p: nat, j: nat)
    requires p < Pow(3, k) && Fits(Pow(3, k), t) && OneHitEach(k, t, p) && j < Pow(3, k)
    ensures Same(Moment(t, k, p, j), if j == Pow(3, k) - 1 then 1 else 0)
  {
    hide Same, Weighted, Moment, Pow, Hits, Choose;
    var n := Pow(3, k);
    MomentOfHits(k, t, p, k, j);
    HockeyStick(n, t, p, k, n, j);
    ChooseFull(t, k, j);
    SameTrans(Moment(t, k, p, j), Choose(n, j + 1), if j == n - 1 then 1 else 0);
  }

  lemma OneHitIsGood(k: nat, t: Targets, p: nat)
    requires p < Pow(3, k) && Fits(Pow(3, k), t) && OneHitEach(k, t, p)
    ensures GoodTargets(t, k)
  {
    hide OneHitEach, GoodTargets, TotalGain;
    var n := Pow(3, k);
    HitsGiveMoments(k, t, p, n - 1);
    forall i | 1 <= i <= k ensures t(i) != (0, 0) {
      if t(i) == (0, 0) {
        NoOrder(t, k, i, p, n - 1);
      }
    }
    var c := OrderOf(t, k);
    var m := TotalGain(t, k);
    if m < n - 1 {
      HitsGiveMoments(k, t, p, m);
    }
    FullGainIsGood(t, k);
  }

  // ---------------------------------------------------------------- and conversely

  lemma {:induction false} ChooseAbove(q: nat, j: nat)
    ensures q < j ==> Choose(q, j) == 0
    ensures q == j ==> Choose(q, j) == 1
    decreases q
  {
    if q > 0 && j > 0 {
      ChooseAbove(q - 1, j);
      ChooseAbove(q - 1, j - 1);
    }
  }

  /** Positions that are hit three, six, ... times too often do not show above j. */
  lemma {:induction false} WeightedTail(n: nat, t: Targets, p: nat, l: nat, j: nat, x: nat)
    requires p < n && Fits(n, t) && j < x
    requires forall q: nat | j < q < x :: Same(Hits(n, t, p, l, q), 1)
    ensures Same(Weighted(n, t, p, l, x, j) + Choose(j + 1, j + 1), Choose(x, j + 1) + Hits(n, t, p, l, j))
    decreases x
  {
    hide Same, Hits, Weighted, Choose;
    if x == j + 1 {
      TailStart(n, t, p, l, j);
    } else {
      WeightedTail(n, t, p, l, j, x - 1);
      assert Same(Hits(n, t, p, l, x - 1), 1);
      OneTimes(Hits(n, t, p, l, x - 1), Choose(x - 1, j));
      NextPosition(n, t, p, l, j, x);
      SameAdd(Weighted(n, t, p, l, x - 1, j) + Choose(j + 1, j + 1), Choose(x - 1, j + 1) + Hits(n, t, p, l, j),
              Hits(n, t, p, l, x - 1) * Choose(x - 1, j), Choose(x - 1, j));
    }
  }

  lemma NextPosition(n: nat, t: Targets, p: nat, l: nat, j: nat, x: nat)
    requires p < n && Fits(n, t) && x > 0
    ensures Weighted(n, t, p, l, x, j) == Weighted(n, t, p, l, x - 1, j) + Hits(n, t, p, l, x - 1) * Choose(x - 1, j)
    ensures Choose(x, j + 1) == Choose(x - 1, j + 1) + Choose(x - 1, j)
  {
  }

  lemma SameAdd(a: int, b: int, c: int, d: int)
    requires Same(a, b) && Same(c, d)
    ensures Same(a + c, b + d)
  {
  }

  lemma TailStart(n: nat, t: Targets, p: nat, l: nat, j: nat)
    requires p < n && Fits(n, t)
    ensures Same(Weighted(n, t, p, l, j + 1, j) + Choose(j + 1, j + 1), Choose(j + 1, j + 1) + Hits(n, t, p, l, j))
  {
    WeightedHead(n, t, p, l, j, j);
    ChooseAbove(j, j);
  }

  lemma OneTimes(h: int, c: int)
    requires Same(h, 1)
    ensures Same(h * c, c)
  {
    TimesMultiple(c, h - 1);
    Distributes(h - 1, 1, c);
  }

  lemma {:induction false} WeightedHead(n: nat, t: Targets, p: nat, l: nat, x: nat, j: nat)
    requires p < n && Fits(n, t) && x <= j
    ensures Weighted(n, t, p, l, x, j) == 0
    decreases x
  {
    if x > 0 {
      WeightedHead(n, t, p, l, x - 1, j);
      ChooseAbove(x - 1, j);
    }
  }

  ghost predicate RightMoments(k: nat, t: Targets, p: nat) {
    forall j: nat {:trigger Moment(t, k, p, j)} | j < Pow(3, k) ::
      Same(Moment(t, k, p, j), if j == Pow(3, k) - 1 then 1 else 0)
  }

  /** From the last position down, the moments fix the hits modulo three. */
  lemma {:induction false} MomentsGiveHits(k: nat, t: Targets, p: nat, j: nat)
    requires p < Pow(3, k) && Fits(Pow(3, k), t) && RightMoments(k, t, p) && j < Pow(3, k)
    ensures Same(Hits(Pow(3, k), t, p, k, j), 1)
    decreases Pow(3, k) - j
  {
    hide Weighted, Moment, Hits, Choose, Pow;
    var n := Pow(3, k);
    forall q: nat | j < q < n ensures Same(Hits(n, t, p, k, q), 1) {
      MomentsGiveHits(k, t, p, q);
    }
    WeightedTail(n, t, p, k, j, n);
    ChooseAbove(j + 1, j + 1);
    ChooseFull(t, k, j);
    MomentOfHits(k, t, p, k, j);
    assert Same(Moment(t, k, p, j), if j == n - 1 then 1 else 0);
  }

  /** The hits on positions below x. */
  ghost function HitsBelow(n: nat, t: Targets, p: nat, l: nat, x: nat): nat
    requires p < n && Fits(n, t)
    decreases x
  {
    if x == 0 then 0 else HitsBelow(n, t, p, l, x - 1) + Hits(n, t, p, l, x - 1)
  }

  lemma {:induction false} HitsBelowNone(n: nat, t: Targets, p: nat, x: nat)
    requires p < n && Fits(n, t)
    ensures HitsBelow(n, t, p, 0, x) == if p < x then 1 else 0
    decreases x
  {
    if x > 0 {
      HitsBelowNone(n, t, p, x - 1);
    }
  }

  lemma {:induction false} HitsBelowLevel(n: nat, t: Targets, p: nat, l: nat, x: nat)
    requires p < n && Fits(n, t) && l > 0
    ensures HitsBelow(n, t, p, l, x)
         == HitsBelow(n, t, p, l - 1, x) + HitsBelow(n, t, Wrap(n, p, t(l).0), l - 1, x)
          + HitsBelow(n, t, Wrap(n, p, t(l).1), l - 1, x)
    decreases x
  {
    if x > 0 {
      HitsBelowLevel(n, t, p, l, x - 1);
    }
  }

  lemma {:induction false} AllHits(n: nat, t: Targets, p: nat, l: nat)
    requires p < n && Fits(n, t)
    ensures HitsBelow(n, t, p, l, n) == Pow(3, l)
    decreases l
  {
    if l == 0 {
      HitsBelowNone(n, t, p, n);
    } else {
      HitsBelowLevel(n, t, p, l, n);
      AllHits(n, t, p, l - 1);
      AllHits(n, t, Wrap(n, p, t(l).0), l - 1);
      AllHits(n, t, Wrap(n, p, t(l).1), l - 1);
    }
  }

  /** At least one hit each, and no more hits than positions: one each. */
  lemma {:induction false} EvenlySpread(n: nat, t: Targets, p: nat, l: nat, x: nat)
    requires p < n && Fits(n, t)
    requires forall q: nat | q < x :: Hits(n, t, p, l, q) >= 1
    ensures HitsBelow(n, t, p, l, x) >= x
    ensures HitsBelow(n, t, p, l, x) == x ==> forall q: nat | q < x :: Hits(n, t, p, l, q) == 1
    decreases x
  {
    if x > 0 {
      EvenlySpread(n, t, p, l, x - 1);
      assert Hits(n, t, p, l, x - 1) >= 1;
    }
  }

  lemma GoodIsRight(k: nat, t: Targets, p: nat)
    requires GoodTargets(t, k)
    ensures RightMoments(k, t, p)
  {
    hide GoodTargets, TotalGain, Moment;
    GoodIsFullGain(t, k);
    forall i | 1 <= i <= k ensures t(i) != (0, 0) {
      assert BalancedLevel(t, i);
    }
    var c := OrderOf(t, k);
    hide Pow;
    var n := Pow(3, k);
    forall j: nat | j < n ensures Same(Moment(t, k, p, j), if j == n - 1 then 1 else 0) {
      assert j == n - 1 || j < n - 1;
    }
  }

  lemma GoodIsOneHit(k: nat, t: Targets, p: nat)
    requires p < Pow(3, k) && Fits(Pow(3, k), t) && GoodTargets(t, k)
    ensures OneHitEach(k, t, p)
  {
    hide GoodTargets, RightMoments, Hits, HitsBelow, Pow;
    var n := Pow(3, k);
    GoodIsRight(k, t, p);
    forall q: nat | q < n ensures Hits(n, t, p, k, q) >= 1 {
      MomentsGiveHits(k, t, p, q);
    }
    AllHits(n, t, p, k);
    EvenlySpread(n, t, p, k, n);
  }

  /** Every position is hit once if and only if the targets are good; the start does not matter. */
  lemma OneHitEachIff(k: nat, t: Targets, p: nat)
    requires p < Pow(3, k) && Fits(Pow(3, k), t)
    ensures OneHitEach(k, t, p) <==> GoodTargets(t, k)
  {
    hide OneHitEach, GoodTargets, Pow;
    if OneHitEach(k, t, p) {
      OneHitIsGood(k, t, p);
    }
    if GoodTargets(t, k) {
      GoodIsOneHit(k, t, p);
    }
  }
}
