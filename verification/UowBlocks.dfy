/** What a block does as a whole: leader and replica agree, value is conserved, reaping loses nothing. */
module UowBlocks {
  import opened Collections
  import opened Common
  import opened Ledger
  import opened UowSpec

  // ---------------------------------------------------------------- leader and replica

  /** What admission to the pool establishes for each of its transactions. */
  predicate Admitted(c: Context, queue: seq<Raw>) {
    forall i :: 0 <= i < |queue| ==> c.decode(queue[i]).Some? && c.decode(queue[i]).value.valid
  }

  /** Replaying what the leader reaped never fails and reaches the leader's state. */
  lemma {:induction false} ReplayOfReap(c: Context, s: State, queue: seq<Raw>, total: nat, index: nat, maxTxBytes: nat)
    requires Admitted(c, queue)
    ensures var r := Reap(c, s, queue, total, index, maxTxBytes);
            r.Reaped? && Replay(c, s, r.proposed, index) == Some(r.s)
    decreases |queue|
  {
    hide HandleTransaction;
    if queue != [] {
      var raw, rest := queue[0], queue[1..];
      assert Admitted(c, rest);
      if total + |raw| < maxTxBytes {
        var o := HandleTransaction(c, s, c.decode(raw).value, index);
        if o.Rejected? {
          ReplayOfReap(c, s, rest, total, index, maxTxBytes);
        } else {
          ReplayOfReap(c, IndexTx(o.s, o.idx), rest, total + |raw|, index + 1, maxTxBytes);
          var r := Reap(c, IndexTx(o.s, o.idx), rest, total + |raw|, index + 1, maxTxBytes);
          assert ([raw] + r.proposed)[1..] == r.proposed;
        }
      }
    }
  }

  /** What a replayed block adds to the index: its transactions in order, at consecutive places of its height. */
  ghost predicate Indexes(c: Context, txs: seq<Raw>, index: nat, added: seq<IndexedTx>) {
    && |added| == |txs|
    && forall i :: 0 <= i < |txs| ==>
         Some(added[i].tx) == c.decode(txs[i]) && added[i].height == c.height && added[i].index == index + i
  }

  lemma IndexedFirst(c: Context, txs: seq<Raw>, index: nat, before: seq<IndexedTx>, idx: IndexedTx, all: seq<IndexedTx>)
    requires txs != [] && before + [idx] <= all && Indexes(c, txs[1..], index + 1, all[|before| + 1..])
    requires Some(idx.tx) == c.decode(txs[0]) && idx.height == c.height && idx.index == index
    ensures before <= all && Indexes(c, txs, index, all[|before|..])
  {
    assert all[|before|..] == [idx] + all[|before| + 1..];
    forall i | 0 <= i < |txs|
      ensures var x := all[|before|..][i]; Some(x.tx) == c.decode(txs[i]) && x.height == c.height && x.index == index + i
    {
      if i > 0 {
        assert txs[i] == txs[1..][i - 1] && all[|before|..][i] == all[|before| + 1..][i - 1];
      }
    }
  }

  lemma {:induction false} ReplayIndexes(c: Context, s: State, txs: seq<Raw>, index: nat)
    ensures var r := Replay(c, s, txs, index);
      r.Some? ==> s.indexed <= r.value.indexed && Indexes(c, txs, index, r.value.indexed[|s.indexed|..])
    decreases |txs|
  {
    if txs != [] && c.decode(txs[0]).Some? {
      var tx := c.decode(txs[0]).value;
      HandlingKeepsIndex(c, s, tx, index);
      hide HandleTransaction, Indexes;
      var o := HandleTransaction(c, s, tx, index);
      if o.Accepted? {
        var t := IndexTx(o.s, o.idx);
        ReplayIndexes(c, t, txs[1..], index + 1);
        var r := Replay(c, t, txs[1..], index + 1);
        if r.Some? {
          IndexedFirst(c, txs, index, s.indexed, o.idx, r.value.indexed);
        }
      }
    }
  }

  /** The transaction at a place of a block decodes, is valid and is accepted in the state that those before it leave. */
  predicate Replays(c: Context, s: State, txs: seq<Raw>, index: nat, i: nat)
    requires i < |txs|
  {
    var tx, before := c.decode(txs[i]), Replay(c, s, txs[..i], index);
    tx.Some? && tx.value.valid && before.Some? && HandleTransaction(c, before.value, tx.value, index + i).Accepted?
  }

  lemma {:induction false} ReplayTakesAll(c: Context, s: State, txs: seq<Raw>, index: nat)
    ensures Replay(c, s, txs, index).Some? <==> forall i :: 0 <= i < |txs| ==> Replays(c, s, txs, index, i)
    decreases |txs|
  {
    hide HandleTransaction;
    if txs == [] {
    } else {
      assert txs[..0] == [] && Replay(c, s, [], index) == Some(s);
      if Replays(c, s, txs, index, 0) {
        var o := HandleTransaction(c, s, c.decode(txs[0]).value, index);
        var t, rest, next := IndexTx(o.s, o.idx), txs[1..], index + 1;
        ReplayTakesAll(c, t, rest, next);
        forall i | 0 < i < |txs| ensures Replays(c, s, txs, index, i) <==> Replays(c, t, rest, next, i - 1) {
          assert txs[..i][0] == txs[0] && txs[..i][1..] == rest[..i - 1] && txs[i] == rest[i - 1];
        }
        forall i | 0 <= i < |rest| ensures Replays(c, t, rest, next, i) <==> Replays(c, s, txs, index, i + 1) {
          var j := i + 1;
          assert 0 < j < |txs|;
        }
      }
    }
  }

  // ---------------------------------------------------------------- the order of maps and rows

  lemma {:induction false} DistinctCounts(ks: seq<ActorKey>, k: ActorKey)
    requires Distinct(ks)
    ensures multiset(ks)[k] == if k in ks then 1 else 0
  {
    if ks != [] {
      assert ks == [ks[0]] + ks[1..];
      DistinctCounts(ks[1..], k);
    }
  }

  lemma {:induction false} PayOutsPermute(s: State, ks: seq<ActorKey>, ks': seq<ActorKey>)
    requires (forall k :: k in ks ==> k in s.actors) && multiset(ks) == multiset(ks')
    ensures forall k :: k in ks' ==> k in s.actors
    ensures multiset(PayOuts(s, ks)) == multiset(PayOuts(s, ks'))
    decreases |ks|
  {
    hide PayOut, PayOuts;
    forall k | k in ks' ensures k in s.actors { assert k in multiset(ks); }
    if ks == [] {
      assert |ks'| == |multiset(ks')| == |multiset(ks)| == 0;
    } else {
      var before, after := TakeOut(ks, ks');
      forall k | k in ks[1..] ensures k in s.actors { assert k in ks; }
      PayOutsPermute(s, ks[1..], before + after);
      var t := PayOut(s, ks[0]);
      assert PayOuts(s, ks) == [t] + PayOuts(s, ks[1..]);
      assert PayOuts(s, ks') == PayOuts(s, before) + [t] + PayOuts(s, after);
      assert PayOuts(s, before + after) == PayOuts(s, before) + PayOuts(s, after);
    }
  }

  /** Whatever order the database returns the rows in, the balances come out the same. */
  lemma UnbondOrder(c: Context, s: State, ks: seq<ActorKey>, ks': seq<ActorKey>)
    requires Lists(c, s, ks) && Lists(c, s, ks')
    ensures Unbond(s, ks) == Unbond(s, ks')
  {
    forall k ensures multiset(ks)[k] == multiset(ks')[k] {
      DistinctCounts(ks, k);
      DistinctCounts(ks', k);
    }
    assert multiset(ks) == multiset(ks');
    PayOutsPermute(s, ks, ks');
    OrderOfMoves(s.balances, PayOuts(s, ks), PayOuts(s, ks'));
  }

  /** What the pause loop leaves of one actor once its type was visited. */
  function PausedActor(c: Context, s: State, k: ActorKey): Actor
    requires k in s.actors && HasPauseParams(s, k.actorType)
  {
    if 0 <= s.actors[k].pausedHeight < PauseLimit(c, s, k.actorType)
    then s.actors[k].(unstakingHeight := c.height + GetIntParam(s, UnstakingBlocks(k.actorType)).value)
    else s.actors[k]
  }

  ghost predicate Parametrised(s: State, types: set<ActorType>) {
    forall t :: t in types ==> HasPauseParams(s, t)
  }

  /** The state after a set of types was visited. */
  ghost function Visited(c: Context, s: State, types: set<ActorType>): State
    requires Parametrised(s, types)
  {
    s.(actors := map k | k in s.actors :: if k.actorType in types then PausedActor(c, s, k) else s.actors[k])
  }

  lemma VisitOne(c: Context, s: State, t: ActorType)
    requires HasPauseParams(s, t)
    ensures BeginUnstaking(c, s, t) == Visited(c, s, {t})
  {
    assert BeginUnstaking(c, s, t).actors == Visited(c, s, {t}).actors;
  }

  lemma VisitMore(c: Context, s: State, types: set<ActorType>, more: set<ActorType>)
    requires Parametrised(s, types)
    ensures Parametrised(Visited(c, s, types), more) <==> Parametrised(s, more)
    ensures Parametrised(s, more) ==> Visited(c, Visited(c, s, types), more) == Visited(c, s, types + more)
  {
    var s' := Visited(c, s, types);
    assert forall t :: HasPauseParams(s', t) <==> HasPauseParams(s, t);
    if Parametrised(s, more) {
      forall k | k in s.actors ensures Visited(c, s', more).actors[k] == Visited(c, s, types + more).actors[k] {
      }
      assert Visited(c, s', more).actors == Visited(c, s, types + more).actors;
    }
  }

  /** The loop succeeds exactly when every type has its parameters, and then treats each type on its own. */
  lemma {:induction false} BeginUnstakingClosed(c: Context, s: State, order: seq<ActorType>)
    ensures BeginUnstakingAll(c, s, order).Some? <==> Parametrised(s, Elements(order))
    ensures Parametrised(s, Elements(order)) ==> BeginUnstakingAll(c, s, order).value == Visited(c, s, Elements(order))
    decreases |order|
  {
    hide HasPauseParams;
    hide BeginUnstaking;
    hide PausedActor;
    if order == [] {
      assert Visited(c, s, {}).actors == s.actors;
    } else {
      var t, rest := order[0], order[1..];
      assert Elements(order) == {t} + Elements(rest) by { assert order == [t] + rest; }
      if HasPauseParams(s, t) {
        hide Visited;
        VisitOne(c, s, t);
        VisitMore(c, s, {t}, Elements(rest));
        BeginUnstakingClosed(c, BeginUnstaking(c, s, t), rest);
      }
    }
  }

  /** Two orders of the four actor types have the same effect. */
  lemma BeginUnstakingOrder(c: Context, s: State, order: seq<ActorType>, order': seq<ActorType>)
    requires AllTypes(order) && AllTypes(order')
    ensures BeginUnstakingAll(c, s, order) == BeginUnstakingAll(c, s, order')
  {
    hide Parametrised;
    SameTypes(order, order');
    assert Elements(order) == Elements(order');
    BeginUnstakingClosed(c, s, order);
    BeginUnstakingClosed(c, s, order');
  }

  /** Paused for longer than its type allows. */
  predicate Overdue(c: Context, s: State, k: ActorKey) {
    k in s.actors && HasPauseParams(s, k.actorType) && 0 <= s.actors[k].pausedHeight < PauseLimit(c, s, k.actorType)
  }

  /**
   * The end of every block gives an overdue actor a new unstaking height. So at the next block it is
   * overdue again, and its stake is paid out then exactly when the unstaking period is one block.
   */
  lemma OverdueIsPostponed(c: Context, s: State, order: seq<ActorType>, k: ActorKey)
    requires AllTypes(order) && Overdue(c, s, k) && BeginUnstakingAll(c, s, order).Some?
    ensures var s', next := BeginUnstakingAll(c, s, order).value, c.(height := c.height + 1);
            Overdue(next, s', k) && (Ready(next, s'.actors, k) <==> GetIntParam(s, UnstakingBlocks(k.actorType)) == Some(1))
  {
    BeginUnstakingClosed(c, s, order);
    assert k.actorType in Elements(order);
  }

  lemma SameTypes(order: seq<ActorType>, order': seq<ActorType>)
    requires AllTypes(order) && AllTypes(order')
    ensures forall t :: t in order <==> t in order'
  {
    NoUnspecified(order);
    NoUnspecified(order');
  }

  lemma NoUnspecified(order: seq<ActorType>)
    requires AllTypes(order)
    ensures Unspecified !in order
  {
    var a :| 0 <= a < 4 && order[a] == App;
    var b :| 0 <= b < 4 && order[b] == Servicer;
    var d :| 0 <= d < 4 && order[d] == Fisherman;
    var e :| 0 <= e < 4 && order[e] == Validator;
  }

  lemma EndBlockOrder(c: Context, s: State, proposer: Address,
                      ks: seq<ActorKey>, order: seq<ActorType>, ks': seq<ActorKey>, order': seq<ActorType>)
    requires Lists(c, s, ks) && Lists(c, s, ks') && AllTypes(order) && AllTypes(order')
    ensures EndBlock(c, s, proposer, ks, order) == EndBlock(c, s, proposer, ks', order')
  {
    hide AllTypes;
    var rewarded := ProposerRewards(c, s, proposer);
    if rewarded.Some? {
      assert Lists(c, rewarded.value, ks) && Lists(c, rewarded.value, ks');
      UnbondOrder(c, rewarded.value, ks, ks');
      BeginUnstakingOrder(c, Unbond(rewarded.value, ks), order, order');
    }
  }

  lemma {:induction false} RowsList(c: Context, query: Query, actors: map<ActorKey, Actor>, order: seq<ActorType>)
    requires Faithful(c, query) && Unspecified !in order && Distinct(order)
    ensures forall k :: k in Rows(query, actors, order) <==> Ready(c, actors, k) && k.actorType in order
    ensures Distinct(Rows(query, actors, order))
    decreases |order|
  {
    if order != [] {
      var t, rest := order[0], order[1..];
      assert order == [t] + rest;
      RowsList(c, query, actors, rest);
      var here, others := KeysOf(t, query(actors, t)), Rows(query, actors, rest);
      assert forall k :: k in here <==> k.actorType == t && k.address in query(actors, t);
      assert forall k :: k in others ==> k.actorType != t;
      forall i, j | 0 <= i < j < |here| ensures here[i] != here[j] {
        assert query(actors, t)[i] != query(actors, t)[j];
      }
      ConcatDistinct(here, others);
    }
  }

  lemma ConcatDistinct(a: seq<ActorKey>, b: seq<ActorKey>)
    requires Distinct(a) && Distinct(b) && forall k :: k in a ==> k !in b
    ensures Distinct(a + b)
  {
    forall i, j | 0 <= i < j < |a + b| ensures (a + b)[i] != (a + b)[j] {
      if i < |a| {
        assert a[i] in a;
        assert j >= |a| ==> (a + b)[j] == b[j - |a|] && b[j - |a|] in b;
      } else {
        assert (a + b)[i] == b[i - |a|] && (a + b)[j] == b[j - |a|];
      }
    }
  }

  lemma TypesDistinct(order: seq<ActorType>)
    requires AllTypes(order)
    ensures Distinct(order)
  {
    var a :| 0 <= a < 4 && order[a] == App;
    var b :| 0 <= b < 4 && order[b] == Servicer;
    var d :| 0 <= d < 4 && order[d] == Fisherman;
    var e :| 0 <= e < 4 && order[e] == Validator;
  }

  /** The rows of the four queries list every ready actor once, in whatever order the types come. */
  lemma RowsAreListed(c: Context, query: Query, s: State, order: seq<ActorType>)
    requires Faithful(c, query) && AllTypes(order)
    ensures Lists(c, s, Rows(query, s.actors, order))
  {
    hide Faithful;
    NoUnspecified(order);
    TypesDistinct(order);
    RowsList(c, query, s.actors, order);
    forall k | Ready(c, s.actors, k) ensures k.actorType in order {
      assert AllTypes(order);
    }
  }

  lemma FinishBlockOrder(c: Context, e: Env, e': Env, s: State, proposer: Address)
    requires GoodEnv(c, e) && GoodEnv(c, e')
    ensures FinishBlock(c, e, s, proposer) == FinishBlock(c, e', s, proposer)
  {
    hide Faithful;
    hide AllTypes;
    hide EndBlock;
    RowsAreListed(c, e.query, s, e.unbondOrder);
    RowsAreListed(c, e'.query, s, e'.unbondOrder);
    var ks, ks' := Rows(e.query, s.actors, e.unbondOrder), Rows(e'.query, s.actors, e'.unbondOrder);
    EndBlockOrder(c, s, proposer, ks, e.pauseOrder, ks', e'.pauseOrder);
  }

  /**
   * Leader and replica: a replica that starts from the leader's state accepts the leader's proposal
   * and reaches the leader's state, whatever order either of them saw its maps and rows in.
   */
  lemma ReplicaReachesLeaderState(c: Context, e: Env, e': Env, s: State, queue: seq<Raw>, maxTxBytes: nat, proposer: Address)
    requires GoodEnv(c, e) && GoodEnv(c, e') && Admitted(c, queue)
    requires CreateBlock(c, e, s, queue, maxTxBytes, proposer).Some?
    ensures var b := CreateBlock(c, e, s, queue, maxTxBytes, proposer).value;
            ApplyProposal(c, e', s, b.txs, proposer, c.stateHash(b.s)) == Some(b.s)
  {
    hide GoodEnv;
    hide FinishBlock;
    ReplayOfReap(c, s, queue, 0, 0, maxTxBytes);
    FinishBlockOrder(c, e, e', Reap(c, s, queue, 0, 0, maxTxBytes).s, proposer);
  }

  // ---------------------------------------------------------------- conservation

  /** A send to oneself: the credited amount is overwritten by the balance read before it. */
  predicate SelfSend(tx: Tx) {
    tx.msg.Some? && tx.msg.value.MessageSend? && tx.msg.value.from == tx.msg.value.to
  }

  /** What one transaction takes out of the ledger: the amount of a successful send to oneself. */
  function Burned(o: Outcome): int {
    if o.Accepted? && o.idx.ok && SelfSend(o.idx.tx) && o.idx.tx.msg.value.amount.Some? then o.idx.tx.msg.value.amount.value else 0
  }

  lemma FeeConserves(s: State, a: Address, fee: int)
    ensures Total(DeductFee(s, a, fee).balances) == Total(s.balances)
  {
    var b := Add(s.balances, Account(a), -fee);
    TotalSet(s.balances, Account(a), Get(s.balances, Account(a)) - fee);
    TotalSet(b, PoolOf(FeeCollector), Get(b, PoolOf(FeeCollector)) + fee);
  }

  lemma StakePoolConserves(s: State, a: Address, amount: int)
    ensures Total(ToStakePool(s, a, amount).balances) == Total(s.balances)
  {
    var b := Add(s.balances, Account(a), -amount);
    TotalSet(s.balances, Account(a), Get(s.balances, Account(a)) - amount);
    TotalSet(b, PoolOf(AppStake), Get(b, PoolOf(AppStake)) + amount);
  }

  lemma SendTotal(s: State, from: Address, to: Address, amount: int)
    ensures Total(Send(s, from, to, amount).balances) == Total(s.balances) - if from == to then amount else 0
  {
    var b := Add(s.balances, Account(to), amount);
    TotalSet(s.balances, Account(to), Get(s.balances, Account(to)) + amount);
    TotalSet(b, Account(from), Balance(s, from) - amount);
  }

  lemma MessageTotal(c: Context, s: State, msg: Message, signer: Address)
    ensures var r := HandleMessage(c, s, msg, signer);
            Total(r.s.balances) == Total(s.balances)
              - if r.ok && msg.MessageSend? && msg.from == msg.to then msg.amount.value else 0
    ensures var r := HandleMessage(c, s, msg, signer); r.ok && msg.MessageSend? ==> msg.amount.Some?
  {
    hide Total;
    hide Send;
    hide ToStakePool;
    match msg
    case MessageSend(from, to, amount) => if amount.Some? { SendTotal(s, from, to, amount.value); }
    case MessageStake(_, _, _, amount, _, _) => if amount.Some? { StakePoolConserves(s, signer, amount.value); }
    case MessageEditStake(t, a, amount, _, _) =>
      if CanEditStake(s, msg, signer) { StakePoolConserves(s, signer, amount.value - s.actors[ActorKey(t, a)].stake); }
    case _ =>
  }

  /** One transaction keeps the total, except for what a send to oneself burns. */
  lemma TransactionTotal(c: Context, s: State, tx: Tx, index: nat)
    ensures var o := HandleTransaction(c, s, tx, index);
            o.Accepted? ==> Total(o.s.balances) == Total(s.balances) - Burned(o)
  {
    hide Total;
    hide HandleMessage;
    hide DeductFee;
    if Admissible(c, s, tx) {
      var msg := tx.msg.value;
      var paid := DeductFee(s, tx.signer, FeeOf(s, msg).value);
      FeeConserves(s, tx.signer, FeeOf(s, msg).value);
      MessageTotal(c, paid, msg, tx.signer);
    }
  }

  /** What a proposal burns when it is replayed. */
  function BurnedBy(c: Context, s: State, txs: seq<Raw>, index: nat): int
    decreases |txs|
  {
    if txs == [] || c.decode(txs[0]).None? then 0
    else
      var o := HandleTransaction(c, s, c.decode(txs[0]).value, index);
      if o.Rejected? then 0 else Burned(o) + BurnedBy(c, IndexTx(o.s, o.idx), txs[1..], index + 1)
  }

  lemma {:induction false} ReplayTotal(c: Context, s: State, txs: seq<Raw>, index: nat)
    ensures var r := Replay(c, s, txs, index);
            r.Some? ==> Total(r.value.balances) == Total(s.balances) - BurnedBy(c, s, txs, index)
    decreases |txs|
  {
    hide Total;
    hide HandleTransaction;
    if txs != [] && c.decode(txs[0]).Some? {
      var o := HandleTransaction(c, s, c.decode(txs[0]).value, index);
      TransactionTotal(c, s, c.decode(txs[0]).value, index);
      if o.Accepted? {
        ReplayTotal(c, IndexTx(o.s, o.idx), txs[1..], index + 1);
      }
    }
  }

  lemma RewardsConserve(c: Context, s: State, proposer: Address)
    ensures var r := ProposerRewards(c, s, proposer); r.Some? ==> Total(r.value.balances) == Total(s.balances)
  {
    hide Total;
    var r := ProposerRewards(c, s, proposer);
    if r.Some? {
      var percentage := GetIntParam(s, ProposerPercentageOfFees).value;
      var fees := Get(s.balances, PoolOf(FeeCollector));
      var cut := c.cut(fees, percentage);
      var b := s.balances[PoolOf(FeeCollector) := 0];
      var b' := Add(b, Account(proposer), cut);
      TotalSet(s.balances, PoolOf(FeeCollector), 0);
      TotalSet(b, Account(proposer), Get(b, Account(proposer)) + cut);
      TotalSet(b', PoolOf(Dao), Get(b', PoolOf(Dao)) + fees - cut);
    }
  }

  lemma {:induction false} BeginUnstakingKeepsBalances(c: Context, s: State, order: seq<ActorType>)
    ensures var r := BeginUnstakingAll(c, s, order); r.Some? ==> r.value.balances == s.balances
    decreases |order|
  {
    if order != [] && HasPauseParams(s, order[0]) {
      BeginUnstakingKeepsBalances(c, BeginUnstaking(c, s, order[0]), order[1..]);
    }
  }

  lemma EndBlockConserves(c: Context, s: State, proposer: Address, ks: seq<ActorKey>, order: seq<ActorType>)
    requires forall k :: k in ks ==> k in s.actors
    ensures var r := EndBlock(c, s, proposer, ks, order); r.Some? ==> Total(r.value.balances) == Total(s.balances)
  {
    hide Total;
    var rewarded := ProposerRewards(c, s, proposer);
    if rewarded.Some? {
      RewardsConserve(c, s, proposer);
      MoveAllConserves(rewarded.value.balances, PayOuts(rewarded.value, ks));
      BeginUnstakingKeepsBalances(c, Unbond(rewarded.value, ks), order);
    }
  }

  lemma FinishBlockConserves(c: Context, e: Env, s: State, proposer: Address)
    ensures var r := FinishBlock(c, e, s, proposer); r.Some? ==> Total(r.value.balances) == Total(s.balances)
  {
    hide Total, EndBlock;
    var rows := Rows(e.query, s.actors, e.unbondOrder);
    if forall k :: k in rows ==> k in s.actors {
      EndBlockConserves(c, s, proposer, rows, e.pauseOrder);
    }
  }

  /**
   * Conservation over a block: whatever the rounding of the proposer's cut, the sum of all balances
   * changes by what successful sends to oneself burn, and by nothing else.
   */
  lemma BlockTotal(c: Context, e: Env, s: State, txs: seq<Raw>, proposer: Address, proposalHash: string)
    ensures var r := ApplyProposal(c, e, s, txs, proposer, proposalHash);
            r.Some? ==> Total(r.value.balances) == Total(s.balances) - BurnedBy(c, s, txs, 0)
  {
    hide Total;
    hide Replay;
    hide EndBlock;
    ReplayTotal(c, s, txs, 0);
    var r := Replay(c, s, txs, 0);
    if r.Some? {
      FinishBlockConserves(c, e, r.value, proposer);
    }
  }

  /** Without sends to oneself a block conserves value. */
  lemma {:induction false} NoSelfSendBurnsNothing(c: Context, s: State, txs: seq<Raw>, index: nat)
    requires forall i :: 0 <= i < |txs| && c.decode(txs[i]).Some? ==> !SelfSend(c.decode(txs[i]).value)
    ensures BurnedBy(c, s, txs, index) == 0
    decreases |txs|
  {
    hide HandleMessage;
    if txs != [] && c.decode(txs[0]).Some? {
      var o := HandleTransaction(c, s, c.decode(txs[0]).value, index);
      if o.Accepted? {
        NoSelfSendBurnsNothing(c, IndexTx(o.s, o.idx), txs[1..], index + 1);
      }
    }
  }

  /** One transaction conserves value exactly when it is not a successful send to oneself of a non-zero amount. */
  lemma ConservesIff(c: Context, s: State, tx: Tx, index: nat)
    requires Admissible(c, s, tx)
    ensures var o := HandleTransaction(c, s, tx, index);
            var msg := tx.msg.value;
            Total(o.s.balances) == Total(s.balances) <==>
            !(SelfSend(tx) && msg.amount.Some? && msg.amount.value != 0
              && Balance(DeductFee(s, tx.signer, FeeOf(s, msg).value), msg.from) >= msg.amount.value)
  {
    hide Total;
    TransactionTotal(c, s, tx, index);
  }

  /** Actors of `s` that `t` still has, with the same stake and the same output account. */
  ghost predicate StakesKept(s: State, t: State) {
    forall k :: k in s.actors ==> k in t.actors && t.actors[k].stake == s.actors[k].stake && t.actors[k].output == s.actors[k].output
  }

  /** No signature is accepted for an edit of a stake, so a transaction never changes the stake of an actor. */
  lemma TransactionKeepsStakes(c: Context, s: State, tx: Tx, index: nat)
    ensures var o := HandleTransaction(c, s, tx, index); o.Accepted? ==> StakesKept(s, o.s)
    ensures var o := HandleTransaction(c, s, tx, index); o.Accepted? ==> tx.msg.Some? && !tx.msg.value.MessageEditStake?
  {
  }

  lemma {:induction false} ReplayKeepsStakes(c: Context, s: State, txs: seq<Raw>, index: nat)
    ensures var r := Replay(c, s, txs, index); r.Some? ==> StakesKept(s, r.value)
    decreases |txs|
  {
    hide HandleTransaction;
    if txs != [] && c.decode(txs[0]).Some? {
      var o := HandleTransaction(c, s, c.decode(txs[0]).value, index);
      TransactionKeepsStakes(c, s, c.decode(txs[0]).value, index);
      if o.Accepted? {
        ReplayKeepsStakes(c, IndexTx(o.s, o.idx), txs[1..], index + 1);
      }
    }
  }

  lemma {:induction false} BeginUnstakingKeepsStakes(c: Context, s: State, order: seq<ActorType>)
    ensures var r := BeginUnstakingAll(c, s, order); r.Some? ==> StakesKept(s, r.value)
    decreases |order|
  {
    if order != [] && HasPauseParams(s, order[0]) {
      BeginUnstakingKeepsStakes(c, BeginUnstaking(c, s, order[0]), order[1..]);
    }
  }

  /** Over a whole block no actor disappears, and none changes its stake or output account: stakes are fixed for good. */
  lemma BlockKeepsStakes(c: Context, e: Env, s: State, txs: seq<Raw>, proposer: Address, proposalHash: string)
    ensures var r := ApplyProposal(c, e, s, txs, proposer, proposalHash); r.Some? ==> StakesKept(s, r.value)
  {
    hide Replay, BeginUnstakingAll;
    ReplayKeepsStakes(c, s, txs, 0);
    var r := Replay(c, s, txs, 0);
    if r.Some? && ProposerRewards(c, r.value, proposer).Some? {
      var rewarded := ProposerRewards(c, r.value, proposer).value;
      var rows := Rows(e.query, r.value.actors, e.unbondOrder);
      if forall k :: k in rows ==> k in rewarded.actors {
        BeginUnstakingKeepsStakes(c, Unbond(rewarded, rows), e.pauseOrder);
      }
    }
  }

  /** Sending four to oneself leaves six of ten. */
  lemma SelfSendBurns(c: Context)
    ensures var s := State(map[Account("a") := 10], map[], map[SendFee := StringParam(Some(0))], []);
            var tx := Tx("a", Some(MessageSend("a", "a", Some(4))), true);
            var o := HandleTransaction(c, s, tx, 0);
            o.Accepted? && o.idx.ok && Total(o.s.balances) == Total(s.balances) - 4
  {
    hide Total;
    var s := State(map[Account("a") := 10], map[], map[SendFee := StringParam(Some(0))], []);
    TransactionTotal(c, s, Tx("a", Some(MessageSend("a", "a", Some(4))), true), 0);
  }

  // ---------------------------------------------------------------- reaping

  /** `part` can be read off `whole` from front to back. */
  predicate Subsequence(part: seq<Raw>, whole: seq<Raw>) {
    if part == [] then true
    else if whole == [] then false
    else if part[0] == whole[0] then Subsequence(part[1..], whole[1..])
    else Subsequence(part, whole[1..])
  }

  lemma {:induction false} SubsequenceSkips(part: seq<Raw>, x: Raw, whole: seq<Raw>)
    requires Subsequence(part, whole)
    ensures Subsequence(part, [x] + whole)
    decreases |whole|, 1
  {
    assert ([x] + whole)[1..] == whole;
    if part != [] && part[0] == x {
      SubsequenceTail(part, whole);
    }
  }

  lemma {:induction false} SubsequenceTail(part: seq<Raw>, whole: seq<Raw>)
    requires part != [] && Subsequence(part, whole)
    ensures Subsequence(part[1..], whole)
    decreases |whole|, 0
  {
    if part[0] == whole[0] {
      assert whole == [whole[0]] + whole[1..];
      SubsequenceSkips(part[1..], whole[0], whole[1..]);
    } else {
      SubsequenceTail(part, whole[1..]);
      assert whole == [whole[0]] + whole[1..];
      SubsequenceSkips(part[1..], whole[0], whole[1..]);
    }
  }

  /** One pop of the reaping loop, for proofs that follow it. */
  lemma ReapStep(c: Context, s: State, raw: Raw, rest: seq<Raw>, total: nat, index: nat, maxTxBytes: nat)
    returns (accepted: bool, s': State, total': nat, index': nat)
    requires c.decode(raw).Some? && total + |raw| < maxTxBytes
    ensures total' < maxTxBytes && total' == if accepted then total + |raw| else total
    ensures |s'.indexed| == |s.indexed| + if accepted then 1 else 0
    ensures var r, q := Reap(c, s', rest, total', index', maxTxBytes), Reap(c, s, [raw] + rest, total, index, maxTxBytes);
            && (q.Reaped? <==> r.Reaped?)
            && (q.Reaped? ==> q == if accepted then r.(proposed := [raw] + r.proposed) else r.(rejected := [raw] + r.rejected))
  {
    hide HandleTransaction;
    assert ([raw] + rest)[1..] == rest;
    var o := HandleTransaction(c, s, c.decode(raw).value, index);
    if o.Rejected? {
      accepted, s', total', index' := false, s, total, index;
    } else {
      HandlingKeepsIndex(c, s, c.decode(raw).value, index);
      accepted, s', total', index' := true, IndexTx(o.s, o.idx), total + |raw|, index + 1;
    }
  }

  lemma HandlingKeepsIndex(c: Context, s: State, tx: Tx, index: nat)
    ensures var o := HandleTransaction(c, s, tx, index);
      o.Accepted? ==> o.s.indexed == s.indexed && o.idx.tx == tx && o.idx.height == c.height && o.idx.index == index
  {
  }

  /** The proposed transactions keep the order of the pool, fit the block, and are what was indexed. */
  lemma {:induction false} ReapProposes(c: Context, s: State, queue: seq<Raw>, total: nat, index: nat, maxTxBytes: nat)
    ensures var r := Reap(c, s, queue, total, index, maxTxBytes);
      r.Reaped? ==>
        && Subsequence(r.proposed, queue)
        && (r.proposed != [] ==> total + Size(r.proposed) < maxTxBytes)
        && |r.s.indexed| == |s.indexed| + |r.proposed|
    decreases |queue|
  {
    hide HandleTransaction;
    if queue != [] {
      var raw, rest := queue[0], queue[1..];
      assert queue == [raw] + rest;
      if c.decode(raw).Some? && total + |raw| < maxTxBytes {
        var accepted, s', total', index' := ReapStep(c, s, raw, rest, total, index, maxTxBytes);
        ReapProposes(c, s', rest, total', index', maxTxBytes);
        var r := Reap(c, s', rest, total', index', maxTxBytes);
        if r.Reaped? {
          SubsequenceSkips(r.proposed, raw, rest);
          assert ([raw] + r.proposed)[1..] == r.proposed;
        }
      }
    }
  }

  /** Each transaction of the pool ends in exactly one place: proposed, rejected or still pooled. */
  lemma {:induction false} ReapPartitions(c: Context, s: State, queue: seq<Raw>, total: nat, index: nat, maxTxBytes: nat)
    ensures var r := Reap(c, s, queue, total, index, maxTxBytes);
      r.Reaped? ==> multiset(queue) == multiset(r.proposed) + multiset(r.rejected) + multiset(r.left)
    decreases |queue|
  {
    hide HandleTransaction;
    if queue != [] {
      var raw, rest := queue[0], queue[1..];
      assert queue == [raw] + rest;
      if c.decode(raw).Some? && total + |raw| < maxTxBytes {
        var accepted, s', total', index' := ReapStep(c, s, raw, rest, total, index, maxTxBytes);
        ReapPartitions(c, s', rest, total', index', maxTxBytes);
      }
    }
  }

  /** A pool that is not emptied is left with a transaction that would not have fitted any more. */
  lemma {:induction false} ReapFillsBlock(c: Context, s: State, queue: seq<Raw>, total: nat, index: nat, maxTxBytes: nat)
    ensures var r := Reap(c, s, queue, total, index, maxTxBytes);
      r.Reaped? && r.left != [] ==> total + Size(r.proposed) + |r.left[|r.left| - 1]| >= maxTxBytes
    decreases |queue|
  {
    hide HandleTransaction;
    if queue != [] {
      var raw, rest := queue[0], queue[1..];
      assert queue == [raw] + rest;
      if c.decode(raw).Some? && total + |raw| < maxTxBytes {
        var accepted, s', total', index' := ReapStep(c, s, raw, rest, total, index, maxTxBytes);
        ReapFillsBlock(c, s', rest, total', index', maxTxBytes);
        var r := Reap(c, s', rest, total', index', maxTxBytes);
        if r.Reaped? {
          assert ([raw] + r.proposed)[1..] == r.proposed;
        }
      }
    }
  }

  /** The transaction is refused in the state that the first `j` proposed ones lead to. */
  ghost predicate RefusedAfter(c: Context, s: State, proposed: seq<Raw>, index: nat, raw: Raw, j: int) {
    && 0 <= j <= |proposed| && c.decode(raw).Some?
    && var r := Replay(c, s, proposed[..j], index);
       r.Some? && HandleTransaction(c, r.value, c.decode(raw).value, index + j).Rejected?
  }

  lemma RefusedLater(c: Context, s: State, first: Raw, proposed: seq<Raw>, index: nat, raw: Raw, j: int)
    requires c.decode(first).Some? && c.decode(first).value.valid && HandleTransaction(c, s, c.decode(first).value, index).Accepted?
    requires var o := HandleTransaction(c, s, c.decode(first).value, index); RefusedAfter(c, IndexTx(o.s, o.idx), proposed, index + 1, raw, j)
    ensures RefusedAfter(c, s, [first] + proposed, index, raw, j + 1)
  {
    hide HandleTransaction;
    var all := [first] + proposed;
    assert all[..j + 1][0] == first && all[..j + 1][1..] == proposed[..j];
  }

  /** A transaction is rejected only if it is refused in the state that the ones proposed before it lead to. */
  lemma {:induction false} ReapRejects(c: Context, s: State, queue: seq<Raw>, total: nat, index: nat, maxTxBytes: nat, i: nat)
    requires Admitted(c, queue)
    ensures var r := Reap(c, s, queue, total, index, maxTxBytes);
      r.Reaped? && i < |r.rejected| ==> exists j :: RefusedAfter(c, s, r.proposed, index, r.rejected[i], j)
    decreases |queue|
  {
    hide HandleTransaction;
    if queue != [] && total + |queue[0]| < maxTxBytes {
      var raw, rest := queue[0], queue[1..];
      assert Admitted(c, rest);
      var o := HandleTransaction(c, s, c.decode(raw).value, index);
      if o.Rejected? {
        var r, q := Reap(c, s, rest, total, index, maxTxBytes), Reap(c, s, queue, total, index, maxTxBytes);
        if r.Reaped? {
          assert q.proposed == r.proposed && q.rejected == [raw] + r.rejected;
          if i == 0 {
            assert r.proposed[..0] == [];
            assert RefusedAfter(c, s, q.proposed, index, q.rejected[0], 0);
          } else {
            ReapRejects(c, s, rest, total, index, maxTxBytes, i - 1);
            if i - 1 < |r.rejected| {
              var j :| RefusedAfter(c, s, r.proposed, index, r.rejected[i - 1], j);
              assert q.rejected[i] == r.rejected[i - 1];
            }
          }
        }
      } else {
        ReapRejects(c, IndexTx(o.s, o.idx), rest, total + |raw|, index + 1, maxTxBytes, i);
        var r := Reap(c, IndexTx(o.s, o.idx), rest, total + |raw|, index + 1, maxTxBytes);
        if r.Reaped? && i < |r.rejected| {
          var j :| RefusedAfter(c, IndexTx(o.s, o.idx), r.proposed, index + 1, r.rejected[i], j);
          RefusedLater(c, s, raw, r.proposed, index, r.rejected[i], j);
        }
      }
    }
  }
}
