/** Balances of accounts and pools, their total, and transfers that can be reordered. */
module Ledger {
  import opened Common

  datatype Pool = FeeCollector | Dao | AppStake | ServicerStake | FishermanStake | ValidatorStake

  /** Accounts and pools are kept apart, also when their addresses look alike. */
  datatype Holder = Account(address: Address) | PoolOf(pool: Pool)

  type Balances = map<Holder, int>

  /** A holder that was never written has nothing. */
  function Get(b: Balances, h: Holder): int {
    if h in b then b[h] else 0
  }

  function Add(b: Balances, h: Holder, amount: int): Balances {
    b[h := Get(b, h) + amount]
  }

  ghost function Total(b: Balances): int {
    if b == map[] then 0 else var h :| h in b; b[h] + Total(b - {h})
  }

  lemma {:induction false} TotalWithout(b: Balances, h: Holder)
    requires h in b
    ensures Total(b) == b[h] + Total(b - {h})
    decreases |b|
  {
    var k :| k in b && Total(b) == b[k] + Total(b - {k});
    if k != h {
      TotalWithout(b - {k}, h);
      TotalWithout(b - {h}, k);
      assert b - {k} - {h} == b - {h} - {k};
    }
  }

  /** Writing one balance changes the total by the difference. */
  lemma TotalSet(b: Balances, h: Holder, amount: int)
    ensures Total(b[h := amount]) == Total(b) - Get(b, h) + amount
  {
    var b' := b[h := amount];
    TotalWithout(b', h);
    if h in b {
      TotalWithout(b, h);
      assert b' - {h} == b - {h};
    } else {
      assert b' - {h} == b;
    }
  }

  // ---------------------------------------------------------------- reordering

  /** Stake that leaves a pool for an account. */
  datatype Transfer = Transfer(from: Pool, to: Address, amount: int)

  function Move(b: Balances, t: Transfer): Balances {
    Add(Add(b, PoolOf(t.from), -t.amount), Account(t.to), t.amount)
  }

  function MoveAll(b: Balances, ts: seq<Transfer>): Balances
    decreases |ts|
  {
    if ts == [] then b else MoveAll(Move(b, ts[0]), ts[1..])
  }

  lemma MoveConserves(b: Balances, t: Transfer)
    ensures Total(Move(b, t)) == Total(b)
  {
    var b1 := Add(b, PoolOf(t.from), -t.amount);
    TotalSet(b, PoolOf(t.from), Get(b, PoolOf(t.from)) - t.amount);
    TotalSet(b1, Account(t.to), Get(b1, Account(t.to)) + t.amount);
  }

  lemma {:induction false} MoveAllConserves(b: Balances, ts: seq<Transfer>)
    ensures Total(MoveAll(b, ts)) == Total(b)
    decreases |ts|
  {
    if ts != [] {
      MoveConserves(b, ts[0]);
      MoveAllConserves(Move(b, ts[0]), ts[1..]);
    }
  }

  lemma MovesCommute(b: Balances, t: Transfer, u: Transfer)
    ensures Move(Move(b, t), u) == Move(Move(b, u), t)
  {
    var x, y := Move(Move(b, t), u), Move(Move(b, u), t);
    assert x.Keys == y.Keys;
    assert forall h :: h in x ==> x[h] == y[h];
  }

  lemma {:induction false} MoveEarlier(b: Balances, before: seq<Transfer>, t: Transfer, after: seq<Transfer>)
    ensures MoveAll(b, before + [t] + after) == MoveAll(b, [t] + before + after)
    decreases |before|
  {
    if before == [] {
      assert before + [t] + after == [t] + before + after;
    } else {
      var u := before[0];
      assert (before + [t] + after)[1..] == before[1..] + [t] + after;
      MoveEarlier(Move(b, u), before[1..], t, after);
      assert ([t] + before[1..] + after)[1..] == before[1..] + after;
      MovesCommute(b, u, t);
      assert ([t] + before + after)[1..] == before + after;
      assert (before + after)[1..] == before[1..] + after;
    }
  }

  lemma {:induction false} MoveOne(b: Balances, t: Transfer, rest: seq<Transfer>)
    ensures MoveAll(b, [t] + rest) == MoveAll(Move(b, t), rest)
  {
    assert ([t] + rest)[1..] == rest;
  }

  /** The first of one list has its place in any permutation of it. */
  lemma TakeOut<T>(ts: seq<T>, us: seq<T>) returns (before: seq<T>, after: seq<T>)
    requires ts != [] && multiset(ts) == multiset(us)
    ensures us == before + [ts[0]] + after && multiset(ts[1..]) == multiset(before + after)
  {
    var t := ts[0];
    assert ts == [t] + ts[1..];
    assert t in multiset(us);
    var i :| 0 <= i < |us| && us[i] == t;
    before, after := us[..i], us[i + 1..];
    assert us == before + [t] + after;
    var a, b := multiset(ts[1..]), multiset(before + after);
    assert multiset(ts) == multiset{t} + a && multiset(us) == multiset{t} + b;
    assert forall x :: (multiset{t} + a)[x] == (multiset{t} + b)[x] ==> a[x] == b[x];
    assert a == b;
  }

  /** The order of the transfers does not matter. */
  lemma {:induction false} OrderOfMoves(b: Balances, ts: seq<Transfer>, us: seq<Transfer>)
    requires multiset(ts) == multiset(us)
    ensures MoveAll(b, ts) == MoveAll(b, us)
    decreases |ts|
  {
    hide Move;
    if ts == [] {
      assert |us| == |multiset(us)| == |multiset(ts)| == 0;
    } else {
      var before, after := TakeOut(ts, us);
      var t := ts[0];
      MoveEarlier(b, before, t, after);
      assert [t] + before + after == [t] + (before + after);
      MoveOne(b, t, before + after);
      OrderOfMoves(Move(b, t), ts[1..], before + after);
    }
  }
}
