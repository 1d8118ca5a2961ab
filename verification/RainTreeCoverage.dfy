/**
 p2p/raintree: what the computed levels and targets mean for a broadcast. Exact thirds reach every one of 3^k
 peers exactly once; the computed ones do so up to 3^5 peers and never beyond.
 */
module RainTreeCoverage {
  import opened Common
  import opened Float64
  import opened RainTreeSizes
  import opened Ternary
  import opened TernaryDigits
  import opened TernaryHits
  import opened RainTree
  import opened RainTreeNetwork

  // ---------------------------------------------------------------- the number of levels

  lemma MaxLevelsIs(n: nat)
    ensures var r := MaxLevels(n); WithinLevels(n, PRECISION, r) && (r > 0 ==> !WithinLevels(n, PRECISION, r - 1))
  {
    hide WithinLevels;
  }

  lemma {:induction false} MoreLevels(n: nat, m: nat, l: nat, l': nat)
    requires WithinLevels(n, m, l) && l <= l'
    ensures WithinLevels(n, m, l')
  {
    assert m * l <= m * l' by { assert m * (l' - l) >= 0; }
    if m * l < m * l' {
      PowGrows(m * l + 1, m * l' + 1);
    }
  }

  /** Least: the levels are fixed by the two halves of the rounding. */
  lemma LevelsAre(n: nat, r: nat)
    requires WithinLevels(n, PRECISION, r) && (r > 0 ==> !WithinLevels(n, PRECISION, r - 1))
    ensures MaxLevels(n) == r
  {
    hide WithinLevels, MaxLevels;
    MaxLevelsIs(n);
    var l := MaxLevels(n);
    if l < r {
      MoreLevels(n, PRECISION, l, r - 1);
    } else if r < l {
      MoreLevels(n, PRECISION, r, l - 1);
    }
  }

  lemma TooFewLevels(n: nat, m: nat, l: nat)
    requires m >= 1 && Pow(3, l + 1) <= n
    ensures !WithinLevels(n, m, l)
  {
    PowMonotone(Pow(3, l + 1), n, m);
    PowMul(3, l + 1, m);
    assert m * (l + 1) == m * l + m;
    if m > 1 {
      PowGrows(m * l + 1, m * (l + 1));
    }
  }

  lemma LevelsOfPower(k: nat)
    ensures MaxLevels(Pow(3, k)) == k
  {
    hide WithinLevels, MaxLevels, Pow;
    EnoughLevels(Pow(3, k), PRECISION, k);
    if k > 0 {
      TooFewLevels(Pow(3, k), PRECISION, k - 1);
    }
    LevelsAre(Pow(3, k), k);
  }

  /** The levels suffice for n peers exactly when no power of three below n is within the rounding of n. */
  lemma LevelsSufficeIff(n: nat)
    ensures n <= Pow(3, MaxLevels(n)) <==> forall j: nat :: Pow(3, j) < n ==> !WithinLevels(n, PRECISION, j)
  {
    hide WithinLevels, MaxLevels, Pow;
    MaxLevelsIs(n);
    var r := MaxLevels(n);
    if n <= Pow(3, r) {
      forall j: nat | Pow(3, j) < n ensures !WithinLevels(n, PRECISION, j) {
        if r < j {
          PowGrows(r, j);
        }
        if WithinLevels(n, PRECISION, j) {
          MoreLevels(n, PRECISION, j, r - 1);
        }
      }
    }
  }

  lemma {:induction false} Bernoulli(q: nat, m: nat)
    requires m <= q
    ensures Pow(q + 1, m) * (q - m) <= Pow(q, m) * q
    decreases m
  {
    if m > 0 {
      Bernoulli(q, m - 1);
      var x, y := Pow(q + 1, m - 1), Pow(q, m - 1);
      BernoulliStep(q, m, x, y);
    }
  }

  lemma BernoulliStep(q: nat, m: nat, x: nat, y: nat)
    requires 0 < m <= q && x * (q - m + 1) <= y * q
    ensures ((q + 1) * x) * (q - m) <= (q * y) * q
  {
    var z := x * (q - m + 1);
    assert z == q * x - m * x + x by { Distributes(q - m, 1, x); Distributes(q - m, m, x); }
    assert ((q + 1) * x) * (q - m) == (q + 1) * (z - x) by { Associates(q + 1, x, q - m); }
    assert (q + 1) * (z - x) == q * z + z - q * x - x by { Distributes(q, 1, z - x); }
    assert m * x >= 0;
    MulMonotone(q, z, q, y * q);
    Associates(q, y, q);
  }

  lemma Associates(a: int, b: int, c: int)
    ensures (a * b) * c == a * (b * c)
  {
  }

  /** One peer more than 3^l, from l = 16 on, gets l levels where l + 1 are needed. */
  lemma OneLevelShort(l: nat)
    requires l >= 16
    ensures MaxLevels(Pow(3, l) + 1) == l
  {
    hide WithinLevels, MaxLevels;
    var q := Pow(3, l);
    PowerOfSixteen();
    if l > 16 {
      PowGrows(16, l);
    }
    hide Pow;
    JustAbove(l, PRECISION);
    TooFewLevelsAbove(l);
    LevelsAre(q + 1, l);
  }

  lemma TooFewLevelsAbove(l: nat)
    requires l >= 1
    ensures !WithinLevels(Pow(3, l) + 1, PRECISION, l - 1)
  {
    hide Pow, WithinLevels;
    TooFewLevels(Pow(3, l) + 1, PRECISION, l - 1);
  }

  lemma PowerOfSixteen()
    ensures Pow(3, 16) == 43046721
  {
    assert Pow(3, 8) == 6561;
    PowAdd(3, 8, 8);
  }

  lemma JustAbove(l: nat, m: nat)
    requires 3 * m < 2 * Pow(3, l)
    ensures WithinLevels(Pow(3, l) + 1, m, l)
  {
    hide Pow;
    var q := Pow(3, l);
    Bernoulli(q, m);
    PowMul(3, l, m);
    PowNext(m * l);
    PowPositive(q, m);
    Outgrown(Pow(q + 1, m), Pow(q, m), q, m);
  }

  lemma PowNext(e: nat)
    ensures Pow(3, e + 1) == 3 * Pow(3, e)
  {
  }

  lemma Spare(y: int, q: int, m: int)
    ensures (3 * y) * (q - m) == y * q + (2 * q - 3 * m) * y
  {
    assert (3 * y) * (q - m) == (q + (2 * q - 3 * m)) * y;
    Distributes(q, 2 * q - 3 * m, y);
  }

  lemma Outgrown(x: nat, y: nat, q: nat, m: nat)
    requires 3 * m < 2 * q && m <= q && y > 0 && x * (q - m) <= y * q
    ensures x < 3 * y
  {
    Spare(y, q, m);
    MulSign(2 * q - 3 * m, y);
    Distributes(3 * y - x, x, q - m);
    MulSign(3 * y - x, q - m);
  }

  // ---------------------------------------------------------------- who is left out

  /** How many messages went to positions below x. */
  function CountBelow(xs: seq<nat>, x: nat): nat {
    if x == 0 then 0 else CountBelow(xs, x - 1) + Count(xs, x - 1)
  }

  lemma {:induction false} CountBelowEmpty(x: nat)
    ensures CountBelow([], x) == 0
  {
    if x > 0 { CountBelowEmpty(x - 1); }
  }

  lemma {:induction false} CountBelowLast(xs: seq<nat>, x: nat)
    requires xs != []
    ensures CountBelow(xs, x) == CountBelow(xs[..|xs| - 1], x) + if xs[|xs| - 1] < x then 1 else 0
    decreases x
  {
    if x > 0 { CountBelowLast(xs, x - 1); }
  }

  lemma {:induction false} CountBelowAll(xs: seq<nat>, x: nat)
    ensures CountBelow(xs, x) <= |xs|
    decreases |xs|
  {
    if xs == [] {
      CountBelowEmpty(x);
    } else {
      CountBelowLast(xs, x);
      CountBelowAll(xs[..|xs| - 1], x);
    }
  }

  ghost predicate Missed(n: nat, origin: nat, xs: seq<nat>) {
    exists q: nat :: q < n && q != origin && Count(xs, q) == 0
  }

  lemma {:induction false} AtLeastOneEach(xs: seq<nat>, origin: nat, x: nat)
    requires forall q: nat :: q < x && q != origin ==> Count(xs, q) >= 1
    ensures CountBelow(xs, x) >= x - (if origin < x then 1 else 0)
    ensures CountBelow(xs, x) == x - (if origin < x then 1 else 0) ==>
      forall q: nat {:trigger Count(xs, q)} | q < x :: Count(xs, q) == if q == origin then 0 else 1
    decreases x
  {
    if x > 0 {
      AtLeastOneEach(xs, origin, x - 1);
      assert x - 1 != origin ==> Count(xs, x - 1) >= 1;
    }
  }

  /** Fewer than n - 1 messages miss a peer, and so do n - 1 messages that are not one for each. */
  lemma MissesSome(n: nat, origin: nat, net: Net)
    requires origin < n
    requires |net.received| < n - 1 || (|net.received| == n - 1 && !Covered(n, origin, net))
    ensures Missed(n, origin, net.received)
  {
    var xs := net.received;
    if !Missed(n, origin, xs) {
      forall q: nat | q < n && q != origin ensures Count(xs, q) >= 1 {
        assert Count(xs, q) != 0;
      }
      AtLeastOneEach(xs, origin, n);
      CountBelowAll(xs, n);
    }
  }

  // ---------------------------------------------------------------- the broadcast of the code

  /** A broadcast among n peers with the levels and targets that the code computes. */
  function CodeBroadcast(n: nat, origin: nat, schedule: seq<nat>): Net
    requires origin < n < TWO_53
  {
    LevelTargetsFit(n, MaxLevels(n));
    Broadcast(n, LevelTargets(n, MaxLevels(n)), MaxLevels(n), origin, schedule)
  }

  /**
   For every number of peers, every origin and every order of delivery, a broadcast stops after fewer
   than 3n messages.
   */
  lemma BroadcastIsBounded(n: nat, origin: nat, schedule: seq<nat>)
    requires origin < n < TWO_53
    ensures var net := CodeBroadcast(n, origin, schedule);
      |net.received| < 3 * n && (|schedule| >= 3 * n ==> net.inflight == [])
  {
    hide MaxLevels, LevelTargets, Broadcast;
    var levels := MaxLevels(n);
    var t := LevelTargets(n, levels);
    LevelTargetsFit(n, levels);
    BroadcastEnds(n, t, levels, origin, schedule, 0);
    PendingBound(n, t, origin, levels);
    assert Pow(3, levels) <= 3 * n;
  }

  /** Where the rounded logarithm takes a level away, every broadcast misses a peer. */
  lemma ShortLevelsMissSome(n: nat, origin: nat, schedule: seq<nat>)
    requires origin < n < TWO_53 && Pow(3, MaxLevels(n)) < n
    ensures Missed(n, origin, CodeBroadcast(n, origin, schedule).received)
  {
    hide MaxLevels, LevelTargets, Broadcast;
    var levels := MaxLevels(n);
    LevelTargetsFit(n, levels);
    BroadcastEnds(n, LevelTargets(n, levels), levels, origin, schedule, 0);
    MissesSome(n, origin, CodeBroadcast(n, origin, schedule));
  }

  // ---------------------------------------------------------------- exact thirds

  /** A third of the exact size of a level on 3^k peers. */
  function Weight(k: nat, l: nat): nat
    requires 1 <= l <= k
  {
    Pow(2, k - l) * Pow(3, l - 1)
  }

  ghost predicate ThirdsAt(t: Targets, k: nat, l: nat)
    requires 1 <= l <= k
  {
    t(l) == (Weight(k, l), 2 * Weight(k, l))
  }

  lemma {:induction false} ValOfMultiple(x: nat, e: nat)
    requires x > 0
    ensures x * Pow(3, e) > 0 && Val(x * Pow(3, e)) == Val(x) + e && Rest(x * Pow(3, e)) == Rest(x)
    decreases e
  {
    if e > 0 {
      ValOfMultiple(x, e - 1);
      var y := x * Pow(3, e - 1);
      Thrice(x, Pow(3, e - 1));
      ThreeTimes(y);
    }
  }

  lemma ThreeTimes(y: nat)
    requires y > 0
    ensures Val(3 * y) == Val(y) + 1 && Rest(3 * y) == Rest(y)
  {
    assert (3 * y) % 3 == 0 && (3 * y) / 3 == y;
  }

  lemma {:induction false} PowerOfTwoModThree(d: nat)
    ensures Pow(2, d) > 0 && Pow(2, d) % 3 != 0
  {
    if d > 0 { PowerOfTwoModThree(d - 1); }
  }

  lemma ThirdIsGood(t: Targets, k: nat, l: nat)
    requires 1 <= l <= k && ThirdsAt(t, k, l)
    ensures GoodLevel(t, k, l) && Val(t(l).0) == l - 1
  {
    hide Pow, Val, Rest;
    var d := Pow(2, k - l);
    PowerOfTwoModThree(k - l);
    DoubleModThree(d);
    NoThrees(d);
    NoThrees(2 * d);
    ValOfMultiple(d, l - 1);
    ValOfMultiple(2 * d, l - 1);
    assert 2 * Weight(k, l) == (2 * d) * Pow(3, l - 1) by { Associates(2, d, Pow(3, l - 1)); }
  }

  lemma NoThrees(x: nat)
    requires x % 3 != 0
    ensures Val(x) == 0 && Rest(x) == x
  {
  }

  lemma DoubleModThree(x: nat)
    requires x % 3 != 0
    ensures (2 * x) % 3 != 0 && (x + 2 * x) % 3 == 0
  {
  }

  /** With exact thirds every number of levels covers its 3^k peers. */
  lemma ThirdsAreGood(t: Targets, k: nat)
    requires forall l | 1 <= l <= k :: ThirdsAt(t, k, l)
    ensures GoodTargets(t, k)
  {
    hide ThirdsAt, GoodLevel;
    forall l | 1 <= l <= k ensures GoodLevel(t, k, l) {
      ThirdIsGood(t, k, l);
    }
    forall i, j | 1 <= i < j <= k ensures DifferentLevels(t, i, j) {
      ThirdIsGood(t, k, i);
      ThirdIsGood(t, k, j);
    }
  }

  // ---------------------------------------------------------------- computed thirds

  lemma SmallPowers()
    ensures [1, 3, 9, 27, 81] == [Pow(3, 0), Pow(3, 1), Pow(3, 2), Pow(3, 3), Pow(3, 4)]
    ensures [1, 2, 4, 8, 16] == [Pow(2, 0), Pow(2, 1), Pow(2, 2), Pow(2, 3), Pow(2, 4)]
    ensures Pow(3, 5) == 243
  {
  }

  /** The top five levels of 3^k peers get their exact thirds. */
  lemma ComputedThird(k: nat, l: nat)
    requires 1 <= l <= k <= l + 4 && Pow(3, k) < TWO_53
    ensures ThirdsAt(LevelTargets(Pow(3, k), k), k, l)
  {
    hide PeerstoreSize, FirstTarget, SecondTarget, Weight, Pow;
    SizeOfPower(k, l);
    PowPositive(3, k);
    TargetsInView(Pow(3, k), k, l);
    TargetsAreThirds(3 * Weight(k, l));
  }

  lemma SizeOfPower(k: nat, l: nat)
    requires 1 <= l <= k <= l + 4 && Pow(3, k) < TWO_53
    ensures PeerstoreSize(Pow(3, k), k, l) == 3 * Weight(k, l)
  {
    hide PeerstoreSize, Pow;
    var d := k - l;
    SmallPowers();
    PowAdd(3, d, l);
    assert [1, 3, 9, 27, 81][d] == Pow(3, d) && [1, 2, 4, 8, 16][d] == Pow(2, d);
    SizeIsExact(Pow(3, l), k, l);
    PowNext(l - 1);
    Thrice(Pow(2, d), Pow(3, l - 1));
  }

  /** The sixth level from the top gets targets one below its thirds. */
  lemma ComputedShort(k: nat)
    requires k >= 6 && Pow(3, k) < TWO_53
    ensures LevelTargets(Pow(3, k), k)(k - 5) == (32 * Pow(3, k - 6) - 1, 64 * Pow(3, k - 6) - 1)
  {
    hide PeerstoreSize, FirstTarget, SecondTarget;
    var z := Pow(3, k - 5);
    SmallPowers();
    PowAdd(3, 5, k - 5);
    PowPositive(3, k - 6);
    assert z == 3 * Pow(3, k - 6);
    SizeIsShort(z, k, k - 5);
    TargetsAreThirds(32 * z - 1);
  }

  lemma OneBelowIsUnbalanced(e: nat)
    ensures Pow(3, e) > 0 && !Balanced(32 * Pow(3, e) - 1, 64 * Pow(3, e) - 1)
  {
    PowPositive(3, e);
    if e == 0 {
      NoThrees(31);
      assert Val(63) == 1 + Val(21);
    } else {
      OneBelowMultiples(Pow(3, e), Pow(3, e - 1));
    }
  }

  lemma OneBelowMultiples(z: nat, w: nat)
    requires z == 3 * w && w > 0
    ensures !Balanced(32 * z - 1, 64 * z - 1)
  {
    hide Val, Rest;
    var a, b := 32 * z - 1, 64 * z - 1;
    assert a == 3 * (32 * w - 1) + 2 && b == 3 * (64 * w - 1) + 2;
    NoThrees(a);
    NoThrees(b);
    SumModThree(a, b);
  }

  /** Where coverage ends: the computed targets of 3^k peers are good exactly up to k = 5. */
  lemma ComputedTargetsGoodIff(k: nat)
    requires Pow(3, k) < TWO_53
    ensures GoodTargets(LevelTargets(Pow(3, k), k), k) <==> k <= 5
  {
    hide LevelTargets, Pow;
    var t := LevelTargets(Pow(3, k), k);
    if k <= 5 {
      forall l | 1 <= l <= k ensures ThirdsAt(t, k, l) {
        ComputedThird(k, l);
      }
      ThirdsAreGood(t, k);
    } else {
      ComputedShort(k);
      OneBelowIsUnbalanced(k - 6);
      assert !GoodLevel(t, k, k - 5);
    }
  }

  /** Every broadcast among 3^k peers reaches every other peer exactly once if and only if k is at most 5. */
  lemma CodeCoversIff(k: nat, origin: nat, schedule: seq<nat>)
    requires origin < Pow(3, k) < TWO_53 && |schedule| >= Pow(3, k)
    ensures Covered(Pow(3, k), origin, CodeBroadcast(Pow(3, k), origin, schedule)) <==> k <= 5
  {
    hide LevelTargets, Pow, MaxLevels, Broadcast, Covered, GoodTargets;
    LevelsOfPower(k);
    LevelTargetsFit(Pow(3, k), k);
    ComputedTargetsGoodIff(k);
    BroadcastCoversIff(k, LevelTargets(Pow(3, k), k), origin, schedule);
  }

  /** From 3^6 peers on, some peer never receives the message, in whatever order messages are handled. */
  lemma CodeMissesSome(k: nat, origin: nat, schedule: seq<nat>)
    requires k >= 6 && origin < Pow(3, k) < TWO_53
    ensures Missed(Pow(3, k), origin, CodeBroadcast(Pow(3, k), origin, schedule).received)
  {
    hide LevelTargets, Pow, MaxLevels, Broadcast, Covered, Missed, Pending, Due, Sends;
    var n := Pow(3, k);
    LevelsOfPower(k);
    var t := LevelTargets(n, k);
    LevelTargetsFit(n, k);
    BroadcastEnds(n, t, k, origin, schedule, 0);
    var net := CodeBroadcast(n, origin, schedule);
    if |net.received| == n - 1 {
      var longer := schedule + seq(n, i => 0);
      FinishedStays(n, t, k, origin, schedule, longer);
      CodeCoversIff(k, origin, longer);
    }
    MissesSome(n, origin, net);
  }

  /** Once nothing more can be due, further picks change nothing. */
  lemma FinishedStays(n: nat, t: Targets, levels: nat, origin: nat, schedule: seq<nat>, longer: seq<nat>)
    requires origin < n && Fits(n, t) && schedule <= longer
    requires |Broadcast(n, t, levels, origin, schedule).received| == Pow(3, levels) - 1
    ensures Broadcast(n, t, levels, origin, longer) == Broadcast(n, t, levels, origin, schedule)
    decreases |longer|
  {
    hide Pow, Pending, Due, Sends, Start;
    BroadcastEnds(n, t, levels, origin, schedule, 0);
    PendingBound(n, t, origin, levels);
    if schedule == longer {
    } else {
      var shorter := longer[..|longer| - 1];
      FinishedStays(n, t, levels, origin, schedule, shorter);
    }
  }

  /** On 729 peers the lowest level walks 95 peers in place of 96 and sends to 31 and 63 in place of 32 and 64. */
  lemma Targets729()
    ensures MaxLevels(729) == 6 && PeerstoreSize(729, 6, 1) == 95 && LevelTargets(729, 6)(1) == (31, 63)
  {
    hide PeerstoreSize, FirstTarget, SecondTarget, MaxLevels;
    assert Pow(3, 6) == 729 by { SmallPowers(); }
    LevelsOfPower(6);
    SizeIsShort(3, 6, 1);
    TargetsAreThirds(95);
  }
}
