/** consensus/leader_election: deterministic round robin over the validators' node ids. */
module LeaderElection {
  import opened Common
  import opened AddressOrder
  import opened Collections

  const TWO_63 := 0x8000_0000_0000_0000

  /** Two's complement reading of an integer as a Go int64. */
  function ToInt64(x: int): (r: int)
    ensures -TWO_63 <= r < TWO_63
  {
    var m := x % TWO_64;
    if m < TWO_63 then m else m - TWO_64
  }

  /** Go's `%` truncates toward zero. */
  function TruncMod(a: int, n: int): (r: int)
    requires n > 0
    ensures -n < r < n
  {
    if a >= 0 then a % n else -((-a) % n)
  }

  /** The number whose remainder picks the leader. */
  function Turn(height: nat, round: uint64, step: int): (t: int)
    ensures -TWO_63 <= t < TWO_63
  {
    ToInt64(ToInt64(height) + ToInt64(round) + step - 1)
  }

  /** The node id computed for a message; only 1..n name a validator. */
  function ElectedId(height: nat, round: uint64, step: int, n: int): (id: int)
    requires n > 0
  {
    TruncMod(Turn(height, round, step), n) + 1
  }

  /** A validator is named exactly when the sum has not wrapped to a negative number, or n divides it. */
  lemma ElectedIdInRangeIff(height: nat, round: uint64, step: int, n: int)
    requires n > 0
    ensures 1 <= ElectedId(height, round, step, n) <= n <==>
            Turn(height, round, step) >= 0 || Turn(height, round, step) % n == 0
  {
    var t := Turn(height, round, step);
    if t < 0 {
      NegMod(t, n);
    }
  }

  lemma NegMod(t: int, n: int)
    requires n > 0
    ensures t % n == 0 <==> (-t) % n == 0
  {
    RemaindersMeet(t, -t, n, 0, 0);
  }

  lemma ModUnique(x: int, n: int, q: int, r: int)
    requires n > 0 && 0 <= r < n && x == q * n + r
    ensures x % n == r
  {
    var q', r' := x / n, x % n;
    assert x == q' * n + r';
    var d := q - q';
    assert d * n == q * n - q' * n;
    MulSign(d, n);
  }

  /** Two numbers that add up to a + b have remainders a and b together or not at all. */
  lemma RemaindersMeet(x: int, y: int, n: int, a: int, b: int)
    requires n > 0 && 0 <= a < n && 0 <= b < n && x + y == a + b
    ensures x % n == a <==> y % n == b
  {
    var q, q' := x / n, y / n;
    assert (-q) * n == -(q * n) && (-q') * n == -(q' * n);
    if x % n == a {
      ModUnique(y, n, -q, b);
    }
    if y % n == b {
      ModUnique(x, n, -q', a);
    }
  }

  /** Enough room below 2^63 for the sum not to wrap in any of n rounds. */
  predicate NoOverflow(height: nat, round: nat, step: int, n: nat) {
    step >= 1 && height + round + n + step < TWO_63
  }

  lemma TurnWithoutOverflow(height: nat, round: uint64, step: int, n: nat)
    requires NoOverflow(height, round, step, n)
    ensures Turn(height, round, step) == height + round + step - 1
  {
  }

  // ---------------------------------------------------------------- fairness

  /** n rounds from `round` on exist, and there are no more validators than an int64 counts. */
  predicate Window(round: nat, n: nat) {
    0 < n < TWO_63 && round + n <= TWO_64
  }

  /** The sum, and the id elected, in the k-th round of a window. */
  function TurnAt(height: nat, round: nat, step: int, n: nat, k: int): int
    requires Window(round, n) && 0 <= k < n
  {
    Turn(height, round + k, step)
  }

  function IdAt(height: nat, round: nat, step: int, n: nat, k: int): int
    requires Window(round, n) && 0 <= k < n
  {
    ElectedId(height, round + k, step, n)
  }

  /** In each of n rounds the sum is not negative, or n divides it. */
  ghost predicate NoneWraps(height: nat, round: nat, step: int, n: nat)
    requires Window(round, n)
  {
    forall k :: 0 <= k < n ==> TurnAt(height, round, step, n, k) >= 0 || TurnAt(height, round, step, n, k) % n == 0
  }

  ghost predicate LeadsOnlyAt(height: nat, round: nat, step: int, n: nat, id: int, k: int)
    requires Window(round, n)
  {
    0 <= k < n && forall j :: 0 <= j < n ==> (IdAt(height, round, step, n, j) == id <==> j == k)
  }

  ghost predicate LeadsOnce(height: nat, round: nat, step: int, n: nat, id: int)
    requires Window(round, n)
  {
    exists k :: LeadsOnlyAt(height, round, step, n, id, k)
  }

  /** Each id 1..n is elected in exactly one of n rounds. */
  ghost predicate Fair(height: nat, round: nat, step: int, n: nat)
    requires Window(round, n)
  {
    forall id :: 1 <= id <= n ==> LeadsOnce(height, round, step, n, id)
  }

  lemma Int64Sum(a: int, b: int, x: int)
    ensures ToInt64(ToInt64(a) + ToInt64(b) + x) == ToInt64(a + b + x)
  {
  }

  lemma Int64Next(x: int, k: nat)
    requires k < TWO_63
    ensures var t := ToInt64(x); ToInt64(x + k) == if t + k < TWO_63 then t + k else t + k - TWO_64
  {
  }

  /** The sum advances by one a round and wraps at most once. */
  lemma TurnAdvances(height: nat, round: nat, step: int, n: nat, k: nat)
    requires Window(round, n) && k < n
    ensures var t := Turn(height, round, step);
            TurnAt(height, round, step, n, k) == if t + k < TWO_63 then t + k else t + k - TWO_64
  {
    hide ToInt64;
    Int64Sum(height, round, step - 1);
    Int64Sum(height, round + k, step - 1);
    assert height + (round + k) + (step - 1) == height + round + (step - 1) + k;
    Int64Next(height + round + (step - 1), k);
  }

  /** Without a harmful wrap the remainders run through consecutive residues. */
  lemma ConsecutiveResidues(height: nat, round: nat, step: int, n: nat, k: nat)
    requires Window(round, n) && NoneWraps(height, round, step, n) && k < n
    ensures IdAt(height, round, step, n, k) == (Turn(height, round, step) + k) % n + 1
  {
    hide Turn;
    var t, u := Turn(height, round, step), TurnAt(height, round, step, n, k);
    TurnAdvances(height, round, step, n, k);
    if u < 0 {
      NegMod(u, n);
    }
    var first := TWO_63 - t;
    if t + k >= TWO_63 {
      TurnAdvances(height, round, step, n, first);
      assert TurnAt(height, round, step, n, first) == -TWO_63;
      DivisibleShift(t + k, n);
    }
  }

  lemma DivisibleShift(x: int, n: int)
    requires n > 0 && (-TWO_63) % n == 0
    ensures (x - TWO_64) % n == x % n
  {
    var q, r := x / n, x % n;
    var p := (-TWO_63) / n;
    assert -TWO_63 == p * n;
    assert (q + 2 * p) * n == q * n + 2 * (p * n);
    ModUnique(x - TWO_64, n, q + 2 * p, r);
  }

  /** How many rounds after `round` the validator `id` leads. */
  function WaitFor(height: nat, round: uint64, step: int, n: nat, id: int): (k: int)
    requires n > 0
    ensures 0 <= k < n
  {
    (id - 1 - Turn(height, round, step)) % n
  }

  /** Each id is elected in the one round that WaitFor names, and in no other. */
  lemma EachLeadsOnce(height: nat, round: nat, step: int, n: nat, id: int, k: nat)
    requires Window(round, n) && NoneWraps(height, round, step, n) && 1 <= id <= n && k < n
    ensures IdAt(height, round, step, n, k) == id <==> k == WaitFor(height, round, step, n, id)
  {
    hide Turn, NoneWraps, IdAt;
    ConsecutiveResidues(height, round, step, n, k);
    var t := Turn(height, round, step);
    RemaindersMeet(t + k, id - 1 - t, n, id - 1, k);
  }

  ghost predicate Hit(f: map<nat, int>, id: int) {
    exists k :: k in f && f[k] == id
  }

  /** Hitting n different values takes n places. */
  lemma {:induction false} HitsNeedPlaces(f: map<nat, int>, n: nat)
    requires forall id :: 1 <= id <= n ==> Hit(f, id)
    ensures |f| >= n
  {
    if n > 0 {
      assert Hit(f, n);
      var k :| k in f && f[k] == n;
      var g := f - {k};
      forall id | 1 <= id <= n - 1 ensures Hit(g, id) {
        assert Hit(f, id);
        var j :| j in f && f[j] == id;
        assert j in g;
      }
      HitsNeedPlaces(g, n - 1);
      assert f.Keys == g.Keys + {k} && |f| == |f.Keys| && |g| == |g.Keys|;
    }
  }

  lemma {:induction false} RangeSize(n: nat, s: set<nat>)
    requires forall k :: k in s ==> k < n
    ensures |s| <= n && (|s| == n ==> forall k :: 0 <= k < n ==> k in s)
  {
    if n > 0 {
      var t := s - {n - 1};
      RangeSize(n - 1, t);
      assert n - 1 in s ==> s == t + {n - 1};
      assert n - 1 !in s ==> s == t;
    }
  }

  /** If every id is elected within n rounds, every one of the n rounds elects an id 1..n. */
  lemma FairUsesEveryRound(height: nat, round: nat, step: int, n: nat, k: nat)
    requires Window(round, n) && Fair(height, round, step, n) && k < n
    ensures 1 <= IdAt(height, round, step, n, k) <= n
  {
    hide IdAt;
    var f := map j: nat | j < n && 1 <= IdAt(height, round, step, n, j) <= n :: IdAt(height, round, step, n, j);
    forall id | 1 <= id <= n ensures Hit(f, id) {
      assert LeadsOnce(height, round, step, n, id);
      var j :| LeadsOnlyAt(height, round, step, n, id, j);
      assert IdAt(height, round, step, n, j) == id;
      assert j in f;
    }
    HitsNeedPlaces(f, n);
    RangeSize(n, f.Keys);
    assert |f| == |f.Keys| && k in f.Keys;
  }

  /** Round robin is fair over n rounds exactly when no sum of the window wraps to a negative number that n does not divide. */
  lemma FairIff(height: nat, round: nat, step: int, n: nat)
    requires Window(round, n)
    ensures Fair(height, round, step, n) <==> NoneWraps(height, round, step, n)
  {
    hide Turn, ElectedId, WaitFor;
    if NoneWraps(height, round, step, n) {
      forall id | 1 <= id <= n ensures LeadsOnce(height, round, step, n, id) {
        forall j | 0 <= j < n ensures IdAt(height, round, step, n, j) == id <==> j == WaitFor(height, round, step, n, id) {
          EachLeadsOnce(height, round, step, n, id, j);
        }
        assert LeadsOnlyAt(height, round, step, n, id, WaitFor(height, round, step, n, id));
      }
    }
    if Fair(height, round, step, n) {
      forall k | 0 <= k < n
        ensures TurnAt(height, round, step, n, k) >= 0 || TurnAt(height, round, step, n, k) % n == 0
      {
        FairUsesEveryRound(height, round, step, n, k);
        ElectedIdInRangeIff(height, round + k, step, n);
      }
    }
  }

  /** Heights and rounds far from 2^63 give fair windows. */
  lemma FairWithoutOverflow(height: nat, round: nat, step: int, n: nat)
    requires n > 0 && NoOverflow(height, round, step, n)
    ensures Fair(height, round, step, n)
  {
    hide Turn, Fair;
    forall k | 0 <= k < n ensures TurnAt(height, round, step, n, k) >= 0 {
      TurnWithoutOverflow(height, round + k, step, n - k);
    }
    FairIff(height, round, step, n);
  }

  /** From round 2^63 on the sums are negative: of two validators one is elected in round 2^63 and none in the next. */
  lemma UnfairFrom2To63()
    ensures Window(TWO_63, 2) && !Fair(0, TWO_63, 1, 2) && ElectedId(0, TWO_63 + 1, 1, 2) == 0
  {
    FairIff(0, TWO_63, 1, 2);
    assert TurnAt(0, TWO_63, 1, 2, 1) == -TWO_63 + 1;
  }

  lemma TruncModOf(t: int, n: int)
    requires n > 0
    ensures TruncMod(t, n) == if t >= 0 || t % n == 0 then t % n else t % n - n
  {
    if t < 0 {
      NegMod(t, n);
      if t % n != 0 {
        var r := t % n;
        assert -t == (-(t / n) - 1) * n + (n - r) by { assert (-(t / n) - 1) * n == -((t / n) * n) - n; }
        ModUnique(-t, n, -(t / n) - 1, n - r);
      }
    }
  }

  /**
   Two messages elect the same id exactly when n divides the distance of their sums and the sums
   have the same sign, or n divides both.
   */
  lemma SameLeaderIff(height: nat, round: uint64, step: int, height': nat, round': uint64, step': int, n: int)
    requires n > 0
    ensures var t, t' := Turn(height, round, step), Turn(height', round', step');
      ElectedId(height, round, step, n) == ElectedId(height', round', step', n) <==>
      (t - t') % n == 0 && (t % n == 0 || (t >= 0 <==> t' >= 0))
  {
    hide Turn;
    var t, t' := Turn(height, round, step), Turn(height', round', step');
    TruncModOf(t, n);
    TruncModOf(t', n);
    DifferenceMod(t, t', n);
  }

  lemma DifferenceMod(t: int, t': int, n: int)
    requires n > 0
    ensures (t - t') % n == 0 <==> t % n == t' % n
  {
    var q, r, q', r' := t / n, t % n, t' / n, t' % n;
    assert t - t' == (q - q') * n + (r - r') by {
      assert (q - q') * n == q * n - q' * n;
    }
    if r >= r' {
      ModUnique(t - t', n, q - q', r - r');
    } else {
      assert (q - q' - 1) * n == (q - q') * n - n;
      ModUnique(t - t', n, q - q' - 1, n + r - r');
    }
  }

  // ---------------------------------------------------------------- consensus/types/actor_mapper.go

  datatype Actor = Actor(address: string, publicKey: string)

  function Addresses(validators: seq<Actor>): (r: seq<string>)
    ensures |r| == |validators| && forall i :: 0 <= i < |r| ==> r[i] == validators[i].address
  {
    seq(|validators|, i requires 0 <= i < |validators| => validators[i].address)
  }

  lemma InsertLength(x: string, xs: seq<string>)
    ensures |Insert(x, xs)| == |xs| + 1
  {
  }

  lemma {:induction false} SortedLength(xs: seq<string>)
    ensures |SortStrings(xs)| == |xs|
  {
    if xs != [] {
      SortedLength(xs[1..]);
      InsertLength(xs[0], SortStrings(xs[1..]));
    }
  }

  /** The two id maps after numbering the addresses of a list from 1. */
  ghost predicate Numbered(sorted: seq<string>, addrToId: map<string, int>, idToAddr: map<int, string>) {
    && (forall i :: i in idToAddr <==> 1 <= i <= |sorted|)
    && (forall i :: i in idToAddr ==> idToAddr[i] == sorted[i - 1])
    && addrToId.Keys == Elements(sorted)
    && (forall a :: a in addrToId ==> addrToId[a] in idToAddr && idToAddr[addrToId[a]] == a)
  }

  lemma NumberNext(sorted: seq<string>, addr: string, addrToId: map<string, int>, idToAddr: map<int, string>)
    requires Numbered(sorted, addrToId, idToAddr)
    ensures Numbered(sorted + [addr], addrToId[addr := |sorted| + 1], idToAddr[|sorted| + 1 := addr])
  {
  }

  /** Addresses of one list, each mapped to the last validator that has it. */
  ghost predicate Recorded(validators: seq<Actor>, recorded: map<string, Actor>) {
    && recorded.Keys == Elements(Addresses(validators))
    && (Distinct(Addresses(validators)) ==> forall v :: v in validators ==> v.address in recorded && recorded[v.address] == v)
  }

  lemma DistinctPrefix(xs: seq<string>, x: string)
    ensures Distinct(xs + [x]) ==> Distinct(xs) && x !in xs
  {
    var ys := xs + [x];
    assert forall i :: 0 <= i < |xs| ==> ys[i] == xs[i];
    assert ys[|xs|] == x;
  }

  lemma RecordNext(validators: seq<Actor>, v: Actor, recorded: map<string, Actor>)
    requires Recorded(validators, recorded)
    ensures Recorded(validators + [v], recorded[v.address := v])
  {
    var before, after := Addresses(validators), Addresses(validators + [v]);
    assert after == before + [v.address];
    DistinctPrefix(before, v.address);
    assert Distinct(after) ==> forall u :: u in validators ==> u.address in Elements(before);
  }

  class ActorMapper {
    var valAddrToIdMap: map<string, int>
    var idToValAddrMap: map<int, string>
    var validatorMap: map<string, Actor>

    /** Node ids and validators are in bijection, and ids follow the order of the addresses. */
    ghost predicate Bijective(validators: seq<Actor>)
      reads this
    {
      && (forall i :: i in idToValAddrMap <==> 1 <= i <= |validators|)
      && valAddrToIdMap.Keys == Elements(Addresses(validators))
      && (forall i :: i in idToValAddrMap ==> idToValAddrMap[i] in valAddrToIdMap && valAddrToIdMap[idToValAddrMap[i]] == i)
      && (forall a :: a in valAddrToIdMap ==> valAddrToIdMap[a] in idToValAddrMap && idToValAddrMap[valAddrToIdMap[a]] == a)
      && (forall i, j :: i in idToValAddrMap && j in idToValAddrMap && i < j ==> Less(idToValAddrMap[i], idToValAddrMap[j]))
      && (forall v :: v in validators ==> v.address in validatorMap && validatorMap[v.address] == v)
    }

    lemma NumberedIsBijective(validators: seq<Actor>, sorted: seq<string>)
      requires Numbered(sorted, valAddrToIdMap, idToValAddrMap) && Recorded(validators, validatorMap)
      requires Distinct(Addresses(validators)) && |sorted| == |validators|
      requires Ascending(sorted) && Elements(sorted) == Elements(Addresses(validators))
      ensures Bijective(validators)
    {
      hide Less;
      OrderFacts();
      forall i | i in idToValAddrMap
        ensures idToValAddrMap[i] in valAddrToIdMap && valAddrToIdMap[idToValAddrMap[i]] == i
      {
        assert sorted[i - 1] in Elements(sorted);
        var j := valAddrToIdMap[sorted[i - 1]];
        assert sorted[j - 1] == sorted[i - 1];
      }
    }

    /**
     Fairness of validators: of n consecutive rounds without a wrap, each validator is the leader that
     the ids resolve to in exactly one.
     */
    lemma EachValidatorLeadsOnce(validators: seq<Actor>, height: nat, round: nat, step: int, address: string) returns (k: nat)
      requires Bijective(validators) && Window(round, |validators|) && NoneWraps(height, round, step, |validators|)
      requires address in Addresses(validators)
      ensures k < |validators|
      ensures forall j :: 0 <= j < |validators| ==>
        var id := IdAt(height, round, step, |validators|, j);
        id in idToValAddrMap && (idToValAddrMap[id] == address <==> j == k)
    {
      hide IdAt, NoneWraps;
      var n := |validators|;
      assert address in Elements(Addresses(validators));
      var id := valAddrToIdMap[address];
      FairIff(height, round, step, n);
      assert LeadsOnce(height, round, step, n, id);
      k :| LeadsOnlyAt(height, round, step, n, id, k);
      forall j | 0 <= j < n ensures 1 <= IdAt(height, round, step, n, j) <= n {
        FairUsesEveryRound(height, round, step, n, j);
      }
    }

    constructor (validators: seq<Actor>)
      ensures Distinct(Addresses(validators)) ==> Bijective(validators)
    {
      new;
      hide Numbered;
      hide Recorded;
      valAddrToIdMap, idToValAddrMap, validatorMap := map[], map[], map[];
      NothingYet();
      var valAddresses: seq<string> := [];
      for i := 0 to |validators|
        invariant valAddrToIdMap == map[] && idToValAddrMap == map[]
        invariant valAddresses == Addresses(validators)[..i]
        invariant Recorded(validators[..i], validatorMap)
      {
        var val := validators[i];
        RecordNext(validators[..i], val, validatorMap);
        assert validators[..i + 1] == validators[..i] + [val];
        valAddresses := valAddresses + [val.address];
        validatorMap := validatorMap[val.address := val];
      }
      assert valAddresses == Addresses(validators) && validators[..|validators|] == validators;
      var sorted := SortStrings(valAddresses);
      for i := 0 to |sorted|
        invariant Recorded(validators, validatorMap) && Numbered(sorted[..i], valAddrToIdMap, idToValAddrMap)
      {
        var addr := sorted[i];
        NumberNext(sorted[..i], addr, valAddrToIdMap, idToValAddrMap);
        assert sorted[..i + 1] == sorted[..i] + [addr];
        valAddrToIdMap := valAddrToIdMap[addr := i + 1];
        idToValAddrMap := idToValAddrMap[i + 1 := addr];
      }
      assert sorted[..|sorted|] == sorted;
      SortedLength(valAddresses);
      if Distinct(valAddresses) {
        SortStringsSorts(valAddresses);
        NumberedIsBijective(validators, sorted);
      }
    }
  }

  lemma NothingYet()
    ensures Numbered([], map[], map[]) && Recorded([], map[])
  {
  }
}
