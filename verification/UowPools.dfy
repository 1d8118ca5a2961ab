/** What blocks do to the pools of staked value: stakes of every type go into one pool and come out of four. */
module UowPools {
  import opened Collections
  import opened Common
  import opened Ledger
  import opened UowSpec
  import opened UowBlocks
  import opened UowLaws

  predicate IsStakePool(p: Pool) {
    p == AppStake || p == ServicerStake || p == FishermanStake || p == ValidatorStake
  }

  // ---------------------------------------------------------------- what comes in

  /** What one transaction adds to the pool of applications: the amount of a successful stake message of any type. */
  function Staked(o: Outcome): int {
    if o.Accepted? && o.idx.ok && o.idx.tx.msg.Some? && o.idx.tx.msg.value.MessageStake? && o.idx.tx.msg.value.amount.Some?
    then o.idx.tx.msg.value.amount.value else 0
  }

  lemma MessageFillsPool(c: Context, s: State, msg: Message, signer: Address, p: Pool)
    requires IsStakePool(p) && !msg.MessageEditStake?
    ensures var r := HandleMessage(c, s, msg, signer);
      Get(r.s.balances, PoolOf(p)) == Get(s.balances, PoolOf(p))
        + if p == AppStake && r.ok && msg.MessageStake? && msg.amount.Some? then msg.amount.value else 0
  {
  }

  /** A transaction adds to no pool of stakes but that of applications, whatever the type of the actor. */
  lemma TransactionFillsPool(c: Context, s: State, tx: Tx, index: nat, p: Pool)
    requires IsStakePool(p)
    ensures var o := HandleTransaction(c, s, tx, index);
      o.Accepted? ==> Get(o.s.balances, PoolOf(p)) == Get(s.balances, PoolOf(p)) + if p == AppStake then Staked(o) else 0
  {
    hide HandleMessage;
    if Admissible(c, s, tx) {
      var msg := tx.msg.value;
      var paid := DeductFee(s, tx.signer, FeeOf(s, msg).value);
      MessageFillsPool(c, paid, msg, tx.signer, p);
    }
  }

  /** What a proposal stakes when it is replayed. */
  function StakedBy(c: Context, s: State, txs: seq<Raw>, index: nat): int
    decreases |txs|
  {
    if txs == [] || c.decode(txs[0]).None? then 0
    else
      var o := HandleTransaction(c, s, c.decode(txs[0]).value, index);
      if o.Rejected? then 0 else Staked(o) + StakedBy(c, IndexTx(o.s, o.idx), txs[1..], index + 1)
  }

  lemma {:induction false} ReplayFillsPool(c: Context, s: State, txs: seq<Raw>, index: nat, p: Pool)
    requires IsStakePool(p)
    ensures var r := Replay(c, s, txs, index);
      r.Some? ==> Get(r.value.balances, PoolOf(p)) == Get(s.balances, PoolOf(p)) + if p == AppStake then StakedBy(c, s, txs, index) else 0
    decreases |txs|
  {
    hide HandleTransaction;
    if txs != [] && c.decode(txs[0]).Some? {
      var o := HandleTransaction(c, s, c.decode(txs[0]).value, index);
      TransactionFillsPool(c, s, c.decode(txs[0]).value, index, p);
      if o.Accepted? {
        ReplayFillsPool(c, IndexTx(o.s, o.idx), txs[1..], index + 1, p);
      }
    }
  }

  // ---------------------------------------------------------------- what goes out

  /** Which types of actors a pool pays. */
  predicate Pays(p: Pool, t: ActorType) {
    match p
    case AppStake => t == App || t == Unspecified
    case ServicerStake => t == Servicer
    case FishermanStake => t == Fisherman
    case ValidatorStake => t == Validator
    case _ => false
  }

  /** The stakes of those of the listed actors whose type is paid from the pool. */
  function StakesFrom(p: Pool, s: State, ks: seq<ActorKey>): int
    requires forall k :: k in ks ==> k in s.actors
    decreases |ks|
  {
    if ks == [] then 0
    else (if Pays(p, ks[0].actorType) then s.actors[ks[0]].stake else 0) + StakesFrom(p, s, ks[1..])
  }

  /** The stakes of those of the listed actors whose output account is the address. */
  function StakesTo(a: Address, s: State, ks: seq<ActorKey>): int
    requires forall k :: k in ks ==> k in s.actors
    decreases |ks|
  {
    if ks == [] then 0
    else (if s.actors[ks[0]].output == a then s.actors[ks[0]].stake else 0) + StakesTo(a, s, ks[1..])
  }

  /** Paying out a list of actors takes their stakes from the pools of their types. */

  lemma {:induction false} PayOutsDrainPool(b: Balances, s: State, ks: seq<ActorKey>, p: Pool)
    requires forall k :: k in ks ==> k in s.actors
    ensures Get(MoveAll(b, PayOuts(s, ks)), PoolOf(p)) == Get(b, PoolOf(p)) - StakesFrom(p, s, ks)
    decreases |ks|
  {
    if ks != [] {
      var t := PayOut(s, ks[0]);
      assert PayOuts(s, ks)[1..] == PayOuts(s, ks[1..]);
      PayOutsDrainPool(Move(b, t), s, ks[1..], p);
    }
  }

  /** Paying out a list of actors credits each output account with the stakes of its actors. */
  lemma {:induction false} PayOutsCreditOutputs(b: Balances, s: State, ks: seq<ActorKey>, a: Address)
    requires forall k :: k in ks ==> k in s.actors
    ensures Get(MoveAll(b, PayOuts(s, ks)), Account(a)) == Get(b, Account(a)) + StakesTo(a, s, ks)
    decreases |ks|
  {
    if ks != [] {
      var t := PayOut(s, ks[0]);
      assert PayOuts(s, ks)[1..] == PayOuts(s, ks[1..]);
      PayOutsCreditOutputs(Move(b, t), s, ks[1..], a);
    }
  }

  /** What the payout of a list of actors adds to a holder. */
  function PayGain(s: State, ks: seq<ActorKey>, h: Holder): int
    requires forall k :: k in ks ==> k in s.actors
  {
    match h
    case Account(a) => StakesTo(a, s, ks)
    case PoolOf(p) => -StakesFrom(p, s, ks)
  }

  /** The percentage of the collected fees that goes to the proposer. */
  predicate Percentage(s: State, percentage: int) {
    ProposerPercentageOfFees in s.params && s.params[ProposerPercentageOfFees] == IntParam(percentage) && 0 <= percentage <= 100
  }

  function ProposerShare(s: State): int {
    if ProposerPercentageOfFees in s.params && s.params[ProposerPercentageOfFees].IntParam? then s.params[ProposerPercentageOfFees].n else 0
  }

  /** What the rewards add to a holder: the proposer gets its cut of the collected fees, the DAO the rest. */
  function RewardGain(c: Context, s: State, proposer: Address, h: Holder): int {
    var fees, percentage := Get(s.balances, PoolOf(FeeCollector)), ProposerShare(s);
    if h == PoolOf(FeeCollector) then -fees
    else if h == Account(proposer) then c.cut(fees, percentage)
    else if h == PoolOf(Dao) then fees - c.cut(fees, percentage)
    else 0
  }

  lemma RewardsAfter(c: Context, s: State, proposer: Address, h: Holder)
    ensures ProposerRewards(c, s, proposer).Some? <==> Percentage(s, ProposerShare(s))
    ensures ProposerRewards(c, s, proposer).Some? ==>
      var t := ProposerRewards(c, s, proposer).value;
      Get(t.balances, h) == Get(s.balances, h) + RewardGain(c, s, proposer, h) && t == s.(balances := t.balances)
  {
  }

  /** Every balance after the end of a block: rewards and payouts, and nothing else. */
  lemma EndBlockBalances(c: Context, s: State, proposer: Address, ks: seq<ActorKey>, order: seq<ActorType>, h: Holder)
    requires forall k :: k in ks ==> k in s.actors
    ensures var r := EndBlock(c, s, proposer, ks, order);
      r.Some? ==> Get(r.value.balances, h) == Get(s.balances, h) + RewardGain(c, s, proposer, h) + PayGain(s, ks, h)
  {
    hide BeginUnstakingAll, MoveAll, StakesFrom, StakesTo, RewardGain;
    RewardsAfter(c, s, proposer, h);
    var rewarded := ProposerRewards(c, s, proposer);
    if rewarded.Some? {
      SameGains(s, rewarded.value, ks, h);
      match h {
        case Account(a) => PayOutsCreditOutputs(rewarded.value.balances, rewarded.value, ks, a);
        case PoolOf(p) => PayOutsDrainPool(rewarded.value.balances, rewarded.value, ks, p);
      }
      BeginUnstakingKeepsBalances(c, Unbond(rewarded.value, ks), order);
    }
  }

  lemma {:induction false} SameGains(s: State, t: State, ks: seq<ActorKey>, h: Holder)
    requires t.actors == s.actors && forall k :: k in ks ==> k in s.actors
    ensures PayGain(t, ks, h) == PayGain(s, ks, h)
    decreases |ks|
  {
    if ks != [] { SameGains(s, t, ks[1..], h); }
  }

  /** The end of a block succeeds exactly when the percentage is set and every type has its pause parameters. */
  lemma EndBlockSucceedsIff(c: Context, s: State, proposer: Address, ks: seq<ActorKey>, order: seq<ActorType>)
    requires AllTypes(order) && forall k :: k in ks ==> k in s.actors
    ensures EndBlock(c, s, proposer, ks, order).Some? <==>
      Percentage(s, ProposerShare(s)) && (forall t: ActorType {:trigger PauseRule(s, t)} :: t != Unspecified ==> PauseRule(s, t))
  {
    hide AllTypes, BeginUnstakingAll, MoveAll;
    RewardsAfter(c, s, proposer, PoolOf(Dao));
    var rewarded := ProposerRewards(c, s, proposer);
    if rewarded.Some? {
      var paid := Unbond(rewarded.value, ks);
      BeginUnstakingClosed(c, paid, order);
      TypesOfOrder(order);
      assert forall t :: t != Unspecified ==> (HasPauseParams(paid, t) <==> PauseRule(s, t));
    }
  }

  predicate PauseRule(s: State, t: ActorType) {
    MaxPauseBlocks(t) in s.params && s.params[MaxPauseBlocks(t)].IntParam? && UnstakingBlocks(t) in s.params && s.params[UnstakingBlocks(t)].IntParam?
  }

  lemma TypesOfOrder(order: seq<ActorType>)
    requires AllTypes(order)
    ensures forall t: ActorType :: t in Elements(order) <==> t != Unspecified
  {
    NoUnspecified(order);
  }

  /** Paused for longer than the type's limit when the block ends. */
  predicate PausedTooLong(c: Context, s: State, k: ActorKey)
    requires k in s.actors && PauseRule(s, k.actorType)
  {
    0 <= s.actors[k].pausedHeight && s.actors[k].pausedHeight + s.params[MaxPauseBlocks(k.actorType)].n < c.height
  }

  /** Every actor after the end of a block: one paused too long gets a new unstaking height, and nothing else changes. */
  lemma EndBlockActors(c: Context, s: State, proposer: Address, ks: seq<ActorKey>, order: seq<ActorType>, k: ActorKey)
    requires AllTypes(order) && forall k :: k in ks ==> k in s.actors
    ensures var r := EndBlock(c, s, proposer, ks, order);
      r.Some? ==>
        && (k in r.value.actors <==> k in s.actors) && r.value.params == s.params && r.value.indexed == s.indexed
        && (k in s.actors && k.actorType == Unspecified ==> r.value.actors[k] == s.actors[k])
        && (k in s.actors && k.actorType != Unspecified ==>
              && PauseRule(s, k.actorType)
              && r.value.actors[k] == if PausedTooLong(c, s, k)
                                      then s.actors[k].(unstakingHeight := c.height + s.params[UnstakingBlocks(k.actorType)].n)
                                      else s.actors[k])
  {
    hide AllTypes, BeginUnstakingAll, MoveAll;
    RewardsAfter(c, s, proposer, PoolOf(Dao));
    var rewarded := ProposerRewards(c, s, proposer);
    if rewarded.Some? {
      BeginUnstakingClosed(c, Unbond(rewarded.value, ks), order);
      TypesOfOrder(order);
    }
  }

  /** The end of a block pays the listed actors and leaves the pools alone otherwise. */
  lemma EndBlockDrainsPool(c: Context, s: State, proposer: Address, ks: seq<ActorKey>, order: seq<ActorType>, p: Pool)
    requires IsStakePool(p) && forall k :: k in ks ==> k in s.actors
    ensures var r := EndBlock(c, s, proposer, ks, order);
      r.Some? ==> Get(r.value.balances, PoolOf(p)) == Get(s.balances, PoolOf(p)) - StakesFrom(p, s, ks)
  {
    hide BeginUnstakingAll, MoveAll, StakesFrom;
    var rewarded := ProposerRewards(c, s, proposer);
    if rewarded.Some? {
      RewardsKeepPools(c, s, proposer, p);
      SameStakes(p, s, rewarded.value, ks);
      PayOutsDrainPool(rewarded.value.balances, rewarded.value, ks, p);
      BeginUnstakingKeepsBalances(c, Unbond(rewarded.value, ks), order);
    }
  }

  lemma RewardsKeepPools(c: Context, s: State, proposer: Address, p: Pool)
    requires IsStakePool(p)
    ensures var r := ProposerRewards(c, s, proposer);
      r.Some? ==> Get(r.value.balances, PoolOf(p)) == Get(s.balances, PoolOf(p)) && r.value.actors == s.actors
  {
  }

  lemma {:induction false} SameStakes(p: Pool, s: State, t: State, ks: seq<ActorKey>)
    requires t.actors == s.actors && forall k :: k in ks ==> k in s.actors
    ensures StakesFrom(p, t, ks) == StakesFrom(p, s, ks)
    decreases |ks|
  {
    if ks != [] { SameStakes(p, s, t, ks[1..]); }
  }

  // ---------------------------------------------------------------- blocks and chains

  /**
   Over a whole block the pools of servicers, fishermen and validators receive nothing, that of applications
   receives the stakes of all types, and each pays exactly the stakes of its type that are due, in whatever
   order the actors are listed.
   */
  lemma BlockPools(c: Context, e: Env, s: State, txs: seq<Raw>, proposer: Address, proposalHash: string, ks: seq<ActorKey>, p: Pool)
    requires IsStakePool(p) && GoodEnv(c, e)
    requires Replay(c, s, txs, 0).Some? && Lists(c, Replay(c, s, txs, 0).value, ks)
    ensures var r, after := Replay(c, s, txs, 0).value, ApplyProposal(c, e, s, txs, proposer, proposalHash);
      after.Some? ==>
        Get(after.value.balances, PoolOf(p))
        == Get(s.balances, PoolOf(p)) + (if p == AppStake then StakedBy(c, s, txs, 0) else 0) - StakesFrom(p, r, ks)
  {
    hide Replay, EndBlock, StakesFrom, StakedBy, Faithful, AllTypes;
    var r := Replay(c, s, txs, 0).value;
    ReplayFillsPool(c, s, txs, 0, p);
    RowsAreListed(c, e.query, r, e.unbondOrder);
    EndBlockOrder(c, r, proposer, Rows(e.query, r.actors, e.unbondOrder), e.pauseOrder, ks, e.pauseOrder);
    EndBlockDrainsPool(c, r, proposer, ks, e.pauseOrder, p);
  }

  /** What a proposal adds to a holder when it is replayed: fees, sends and stakes, transaction by transaction. */
  function GainsBy(c: Context, s: State, txs: seq<Raw>, index: nat, h: Holder): int
    decreases |txs|
  {
    if txs == [] || c.decode(txs[0]).None? || c.decode(txs[0]).value.msg.None? then 0
    else
      var tx := c.decode(txs[0]).value;
      var o := HandleTransaction(c, s, tx, index);
      if o.Rejected? then 0
      else
        FeeGain(tx.signer, PriceIn(s, tx.msg.value), h) + (if o.idx.ok then MessageGain(tx.msg.value, tx.signer, h) else 0)
        + GainsBy(c, IndexTx(o.s, o.idx), txs[1..], index + 1, h)
  }

  function PriceIn(s: State, msg: Message): int {
    if Price(msg) in s.params && s.params[Price(msg)].StringParam? && s.params[Price(msg)].amount.Some? then s.params[Price(msg)].amount.value else 0
  }

  lemma {:induction false} ReplayBalances(c: Context, s: State, txs: seq<Raw>, index: nat, h: Holder)
    ensures var r := Replay(c, s, txs, index);
      r.Some? ==> Get(r.value.balances, h) == Get(s.balances, h) + GainsBy(c, s, txs, index, h)
    decreases |txs|
  {
    hide HandleTransaction, FeeGain, MessageGain;
    if txs != [] && c.decode(txs[0]).Some? {
      var tx := c.decode(txs[0]).value;
      var o := HandleTransaction(c, s, tx, index);
      if o.Accepted? {
        AcceptedGain(c, s, tx, index, h);
        ReplayBalances(c, IndexTx(o.s, o.idx), txs[1..], index + 1, h);
      }
    }
  }

  lemma AcceptedGain(c: Context, s: State, tx: Tx, index: nat, h: Holder)
    requires HandleTransaction(c, s, tx, index).Accepted?
    ensures var o := HandleTransaction(c, s, tx, index);
      && tx.msg.Some?
      && Get(o.s.balances, h) == Get(s.balances, h) + FeeGain(tx.signer, PriceIn(s, tx.msg.value), h)
                                 + if o.idx.ok then MessageGain(tx.msg.value, tx.signer, h) else 0
  {
    hide HandleTransaction, FeeGain, MessageGain, ActorChange, SameActor, Succeeds, MaySign;
    AcceptedEffect(c, s, tx, index);
    var o := HandleTransaction(c, s, tx, index);
    var fee :| Effect(c, s, tx.msg.value, tx.signer, fee, o.idx.ok, o.s);
    assert fee == PriceIn(s, tx.msg.value);
  }

  /**
   Every balance after a block: what its transactions add, then the rewards out of the fees collected by
   then, then the stakes that are due, whatever the order of maps and rows.
   */
  lemma BlockBalances(c: Context, e: Env, s: State, txs: seq<Raw>, proposer: Address, proposalHash: string, ks: seq<ActorKey>, h: Holder)
    requires GoodEnv(c, e) && Replay(c, s, txs, 0).Some? && Lists(c, Replay(c, s, txs, 0).value, ks)
    ensures var r, after := Replay(c, s, txs, 0).value, ApplyProposal(c, e, s, txs, proposer, proposalHash);
      after.Some? ==>
        Get(after.value.balances, h)
        == Get(s.balances, h) + GainsBy(c, s, txs, 0, h) + RewardGain(c, r, proposer, h) + PayGain(r, ks, h)
  {
    hide Replay, EndBlock, GainsBy, RewardGain, PayGain, Faithful, AllTypes;
    var r := Replay(c, s, txs, 0).value;
    ReplayBalances(c, s, txs, 0, h);
    RowsAreListed(c, e.query, r, e.unbondOrder);
    EndBlockOrder(c, r, proposer, Rows(e.query, r.actors, e.unbondOrder), e.pauseOrder, ks, e.pauseOrder);
    EndBlockBalances(c, r, proposer, ks, e.pauseOrder, h);
  }

  datatype BlockInput = BlockInput(c: Context, e: Env, txs: seq<Raw>, proposer: Address, proposalHash: string)

  /** Blocks applied one after the other. */
  function Chain(s: State, blocks: seq<BlockInput>): Option<State> {
    if blocks == [] then Some(s) else
    var before, b := Chain(s, blocks[..|blocks| - 1]), blocks[|blocks| - 1];
    if before.None? then None else ApplyProposal(b.c, b.e, before.value, b.txs, b.proposer, b.proposalHash)
  }

  /** The stakes of a pool's types that one block pays out. */
  function PaidBy(p: Pool, s: State, b: BlockInput): int {
    var r := Replay(b.c, s, b.txs, 0);
    if r.None? then 0 else
    var rows := Rows(b.e.query, r.value.actors, b.e.unbondOrder);
    if forall k :: k in rows ==> k in r.value.actors then StakesFrom(p, r.value, rows) else 0
  }

  function PaidOver(p: Pool, s: State, blocks: seq<BlockInput>): int {
    if blocks == [] then 0 else
    var before := Chain(s, blocks[..|blocks| - 1]);
    PaidOver(p, s, blocks[..|blocks| - 1]) + if before.None? then 0 else PaidBy(p, before.value, blocks[|blocks| - 1])
  }

  function StakedOver(s: State, blocks: seq<BlockInput>): int {
    if blocks == [] then 0 else
    var before, b := Chain(s, blocks[..|blocks| - 1]), blocks[|blocks| - 1];
    StakedOver(s, blocks[..|blocks| - 1]) + if before.None? then 0 else StakedBy(b.c, before.value, b.txs, 0)
  }

  lemma BlockChangesPool(s: State, b: BlockInput, p: Pool)
    requires IsStakePool(p)
    ensures var r := ApplyProposal(b.c, b.e, s, b.txs, b.proposer, b.proposalHash);
      r.Some? ==>
        Get(r.value.balances, PoolOf(p))
        == Get(s.balances, PoolOf(p)) + (if p == AppStake then StakedBy(b.c, s, b.txs, 0) else 0) - PaidBy(p, s, b)
  {
    hide Replay, EndBlock, StakesFrom, StakedBy;
    ReplayFillsPool(b.c, s, b.txs, 0, p);
    var r := Replay(b.c, s, b.txs, 0);
    if r.Some? {
      var rows := Rows(b.e.query, r.value.actors, b.e.unbondOrder);
      if forall k :: k in rows ==> k in r.value.actors {
        EndBlockDrainsPool(b.c, r.value, b.proposer, rows, b.e.pauseOrder, p);
      }
    }
  }

  /**
   Over every chain of blocks: a pool of stakes holds what it held, with everything staked added to the pool
   of applications, less the stakes of its types paid out. So a pool of another type is below zero exactly
   when it has paid out more than it held at the start.
   */
  lemma {:induction false} ChainPools(s: State, blocks: seq<BlockInput>, p: Pool)
    requires IsStakePool(p)
    ensures var t := Chain(s, blocks);
      t.Some? ==>
        Get(t.value.balances, PoolOf(p))
        == Get(s.balances, PoolOf(p)) + (if p == AppStake then StakedOver(s, blocks) else 0) - PaidOver(p, s, blocks)
    ensures var t := Chain(s, blocks);
      t.Some? && p != AppStake ==> (Get(t.value.balances, PoolOf(p)) < 0 <==> PaidOver(p, s, blocks) > Get(s.balances, PoolOf(p)))
  {
    hide ApplyProposal, PaidBy, StakedBy;
    if blocks != [] {
      var n := |blocks| - 1;
      ChainPools(s, blocks[..n], p);
      var before := Chain(s, blocks[..n]);
      if before.Some? {
        BlockChangesPool(before.value, blocks[n], p);
      }
    }
  }

  /** A servicer with a stake of five, due at height seven, is paid from a pool that never received it. */
  lemma ServicerPoolOverdrawn(c: Context)
    requires c.height == 7
    ensures var k := ActorKey(Servicer, "s");
      var s := State(map[PoolOf(AppStake) := 5], map[k := Actor("o", 5, [], "", HEIGHT_NOT_USED, 7)], map[], []);
      && Ready(c, s.actors, k)
      && Get(Unbond(s, [k]).balances, PoolOf(ServicerStake)) == -5 && Get(Unbond(s, [k]).balances, PoolOf(AppStake)) == 5
  {
    var k := ActorKey(Servicer, "s");
    var s := State(map[PoolOf(AppStake) := 5], map[k := Actor("o", 5, [], "", HEIGHT_NOT_USED, 7)], map[], []);
    PayOutsDrainPool(s.balances, s, [k], ServicerStake);
    PayOutsDrainPool(s.balances, s, [k], AppStake);
    assert [k][1..] == [];
  }
}
