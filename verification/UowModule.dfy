/** utility/unit_of_work: the unit of work with its state updated in place, against UowSpec. */
module UowModule {
  import opened Common
  import opened Ledger
  import opened UowSpec
  import opened UowBlocks
  import opened UowLaws
  import opened UowPools
  import opened TxMempool

  class UnitOfWork {
    const c: Context
    var balances: Balances
    var actors: map<ActorKey, Actor>
    var params: map<ParamName, Param>
    var indexed: seq<IndexedTx>

    var proposalStateHash: string
    var proposalProposerAddr: Option<Address>
    var proposalBlockTxs: seq<Raw>
    var stateHash: string

    function View(): State
      reads this
    {
      State(balances, actors, params, indexed)
    }

    constructor (c: Context, s: State)
      ensures this.c == c && View() == s && proposalStateHash == "" && proposalProposerAddr == None
    {
      this.c := c;
      balances, actors, params, indexed := s.balances, s.actors, s.params, s.indexed;
      proposalStateHash, proposalProposerAddr, proposalBlockTxs, stateHash := "", None, [], "";
    }

    // ---------------------------------------------------------------- messages

    method HandleMessageSend(msg: Message, signer: Address) returns (ok: bool)
      requires msg.MessageSend?
      modifies this`balances
      ensures Handled(View(), ok) == HandleMessage(c, old(View()), msg, signer)
      ensures Total(balances) == Total(old(balances)) - if ok && msg.from == msg.to then msg.amount.value else 0
    {
      MessageTotal(c, View(), msg, signer);
      if msg.amount.None? { return false; }
      var amount := msg.amount.value;
      var fromAmount := Get(balances, Account(msg.from));
      fromAmount := fromAmount - amount;
      if fromAmount < 0 { return false; }
      balances := Add(balances, Account(msg.to), amount);
      balances := balances[Account(msg.from) := fromAmount];
      return true;
    }

    method CheckBelowMaxChains(t: ActorType, chains: seq<string>) returns (ok: bool)
      ensures ok <==> ChainsAllowed(View(), t, chains)
    {
      if t == Validator { return true; }
      if t == Unspecified { return false; }
      var maxChains := GetIntParam(View(), MaxChains(t));
      if maxChains.None? { return false; }
      return |chains| <= maxChains.value;
    }

    method HandleStakeMessage(msg: Message, signer: Address) returns (ok: bool)
      requires msg.MessageStake?
      modifies this`balances, this`actors
      ensures Handled(View(), ok) == HandleMessage(c, old(View()), msg, signer)
      ensures Total(balances) == Total(old(balances))
    {
      MessageTotal(c, View(), msg, signer);
      var t := msg.actorType;
      if msg.operator.None? || t == Unspecified { return false; }
      var minStake := BigIntParam(View(), MinimumStake(t));
      if minStake.None? || msg.amount.None? { return false; }
      var amount := msg.amount.value;
      if amount < minStake.value { return false; }
      var signerAmount := Get(balances, Account(signer)) - amount;
      if signerAmount < 0 { return false; }
      var allowed := CheckBelowMaxChains(t, msg.chains);
      if !allowed { return false; }
      var key := ActorKey(t, msg.operator.value);
      if key in actors { return false; }
      balances := balances[Account(signer) := signerAmount];
      balances := Add(balances, PoolOf(AppStake), amount);
      actors := actors[key := Actor(msg.output, amount, if t == Validator then [] else msg.chains,
                                    if t == App then "" else msg.serviceUrl, HEIGHT_NOT_USED, HEIGHT_NOT_USED)];
      return true;
    }

    method HandleEditStakeMessage(msg: Message, signer: Address) returns (ok: bool)
      requires msg.MessageEditStake?
      modifies this`balances, this`actors
      ensures Handled(View(), ok) == HandleMessage(c, old(View()), msg, signer)
      ensures Total(balances) == Total(old(balances)) && EditLaw(old(View()), msg, signer, ok, View())
    {
      MessageTotal(c, View(), msg, signer);
      EditStakeEffect(c, View(), msg, signer);
      hide EditLaw;
      var t, key := msg.actorType, ActorKey(msg.actorType, msg.address);
      if t == Unspecified || key !in actors { return false; }
      var current := actors[key];
      if msg.amount.None? { return false; }
      var amount := msg.amount.value - current.stake;
      if amount < 0 { return false; }
      var signerAmount := Get(balances, Account(signer)) - amount;
      if signerAmount < 0 { return false; }
      var allowed := CheckBelowMaxChains(t, msg.chains);
      if !allowed { return false; }
      balances := balances[Account(signer) := signerAmount];
      balances := Add(balances, PoolOf(AppStake), amount);
      actors := actors[key := current.(stake := msg.amount.value,
                                       chains := if t == Validator then current.chains else msg.chains,
                                       serviceUrl := if t == App then current.serviceUrl else msg.serviceUrl)];
      return true;
    }

    method HandleUnstakeMessage(msg: Message, signer: Address) returns (ok: bool)
      requires msg.MessageUnstake?
      modifies this`actors
      ensures Handled(View(), ok) == HandleMessage(c, old(View()), msg, signer)
    {
      var t, key := msg.actorType, ActorKey(msg.actorType, msg.address);
      if t == Unspecified || key !in actors { return false; }
      if StatusOf(c, actors[key]) != Staked { return false; }
      var period := GetIntParam(View(), UnstakingBlocks(t));
      if period.None? { return false; }
      actors := actors[key := actors[key].(unstakingHeight := c.height + period.value)];
      return true;
    }

    method HandleUnpauseMessage(msg: Message, signer: Address) returns (ok: bool)
      requires msg.MessageUnpause?
      modifies this`actors
      ensures Handled(View(), ok) == HandleMessage(c, old(View()), msg, signer)
    {
      var t, key := msg.actorType, ActorKey(msg.actorType, msg.address);
      if t == Unspecified || key !in actors { return false; }
      var pausedHeight := actors[key].pausedHeight;
      if pausedHeight == HEIGHT_NOT_USED { return false; }
      var minPauseBlocks := GetIntParam(View(), MinimumPauseBlocks(t));
      if minPauseBlocks.None? { return false; }
      if c.height < minPauseBlocks.value + pausedHeight { return false; }
      actors := actors[key := actors[key].(pausedHeight := HEIGHT_NOT_USED)];
      return true;
    }

    method Handle(msg: Message, signer: Address) returns (ok: bool)
      modifies this`balances, this`actors, this`params
      ensures Handled(View(), ok) == HandleMessage(c, old(View()), msg, signer)
    {
      match msg
      case MessageSend(_, _, _) => ok := HandleMessageSend(msg, signer);
      case MessageStake(_, _, _, _, _, _) => ok := HandleStakeMessage(msg, signer);
      case MessageEditStake(_, _, _, _, _) => ok := HandleEditStakeMessage(msg, signer);
      case MessageUnstake(_, _) => ok := HandleUnstakeMessage(msg, signer);
      case MessageUnpause(_, _) => ok := HandleUnpauseMessage(msg, signer);
      case MessageChangeParameter(key, value) =>
        if value.None? { return false; }
        params := params[key := value.value];
        ok := true;
    }

    // ---------------------------------------------------------------- transactions

    method ValidateTxSignature(address: Address, msg: Message) returns (ok: bool)
      ensures ok <==> SignerCandidates(c, View(), msg).Some? && address in SignerCandidates(c, View(), msg).value
    {
      var candidates := SignerCandidates(c, View(), msg);
      if candidates.None? { return false; }
      for i := 0 to |candidates.value|
        invariant address !in candidates.value[..i]
      {
        if candidates.value[i] == address { return true; }
      }
      return false;
    }

    method ValidateAndDeductTxFees(address: Address, msg: Message) returns (ok: bool)
      modifies this`balances
      ensures ok <==> FeeOf(old(View()), msg).Some? && Balance(old(View()), address) - FeeOf(old(View()), msg).value >= 0
      ensures View() == if ok then DeductFee(old(View()), address, FeeOf(old(View()), msg).value) else old(View())
      ensures Total(balances) == Total(old(balances))
    {
      var fee := FeeOf(View(), msg);
      if fee.None? { return false; }
      FeeConserves(View(), address, fee.value);
      var amount := Get(balances, Account(address)) - fee.value;
      if amount < 0 { return false; }
      balances := balances[Account(address) := amount];
      balances := Add(balances, PoolOf(FeeCollector), fee.value);
      return true;
    }

    /** A rejected transaction leaves no trace; a failed message leaves only its fee. */
    method Process(tx: Tx, index: nat) returns (idx: Option<IndexedTx>)
      modifies this`balances, this`actors, this`params
      ensures var o := HandleTransaction(c, old(View()), tx, index);
              if idx.None? then o.Rejected? && View() == old(View()) else o == Accepted(View(), idx.value)
      ensures Total(balances) == Total(old(balances)) - Burned(HandleTransaction(c, old(View()), tx, index))
      ensures idx.Some? <==>
        && tx.msg.Some? && MaySign(c, old(View()), tx.msg.value, tx.signer)
        && exists fee :: Costs(old(View()), tx.msg.value, fee) && fee <= Get(old(balances), Account(tx.signer))
      ensures idx.Some? ==> TransactionLaw(c, old(View()), tx, index, idx.value, View())
    {
      hide HandleMessage, Total, TransactionLaw, MaySign, Costs;
      TransactionTotal(c, View(), tx, index);
      AcceptedIff(c, View(), tx, index);
      AcceptedEffect(c, View(), tx, index);
      if tx.msg.None? { return None; }
      var msg := tx.msg.value;
      var signed := ValidateTxSignature(tx.signer, msg);
      if !signed { return None; }
      var paid := ValidateAndDeductTxFees(tx.signer, msg);
      if !paid { return None; }
      var ok := Handle(msg, tx.signer);
      return Some(IndexedTx(tx, c.height, index, ok));
    }

    method IndexTransaction(idx: IndexedTx)
      modifies this`indexed
      ensures View() == IndexTx(old(View()), idx)
    {
      indexed := indexed + [idx];
    }

    // ---------------------------------------------------------------- end of block

    method HandleProposerRewards(proposer: Address) returns (ok: bool)
      modifies this`balances
      ensures ok <==> ProposerRewards(c, old(View()), proposer).Some?
      ensures ok ==> View() == ProposerRewards(c, old(View()), proposer).value
      ensures ok ==> Total(balances) == Total(old(balances)) && Get(balances, PoolOf(FeeCollector)) == 0
      ensures ok ==> forall h :: Get(balances, h) == Get(old(balances), h) + RewardGain(c, old(View()), proposer, h)
    {
      RewardsConserve(c, View(), proposer);
      hide Total;
      var fees := Get(balances, PoolOf(FeeCollector));
      balances := balances[PoolOf(FeeCollector) := 0];
      var percentage := GetIntParam(View(), ProposerPercentageOfFees);
      if percentage.None? { return false; }
      var daoCut := 100 - percentage.value;
      if daoCut < 0 || daoCut > 100 { return false; }
      var amountToProposer := c.cut(fees, percentage.value);
      var amountToDao := fees - amountToProposer;
      balances := Add(balances, Account(proposer), amountToProposer);
      balances := Add(balances, PoolOf(Dao), amountToDao);
      return true;
    }

    /** The balances are those of `s` after paying out a list of actors. */
    ghost predicate PaidOut(s: State, done: seq<ActorKey>)
      reads this
    {
      actors == s.actors && (forall k :: k in done ==> k in s.actors) && balances == MoveAll(s.balances, PayOuts(s, done))
    }

    /** Pay out the stake of every actor whose unstaking height is this block's. */
    method UnbondUnstakingActors(e: Env)
      requires GoodEnv(c, e)
      modifies this`balances
      ensures var rows := Rows(e.query, actors, e.unbondOrder);
              (forall k :: k in rows ==> k in actors) && View() == Unbond(old(View()), rows)
      ensures var rows := Rows(e.query, actors, e.unbondOrder);
              forall h :: Get(balances, h) == Get(old(balances), h) + PayGain(old(View()), rows, h)
    {
      hide GoodEnv, PayGain;
      hide PaidOut;
      hide MoveAll;
      ghost var s := View();
      ghost var rows := Rows(e.query, actors, e.unbondOrder);
      AllRowsExist(e);
      NothingPaid(s);
      for i := 0 to |e.unbondOrder|
        invariant PaidOut(s, Rows(e.query, actors, e.unbondOrder[..i]))
      {
        var t := e.unbondOrder[i];
        var readyToUnbond := e.query(actors, t);
        RowsSplit(e.query, actors, e.unbondOrder, i);
        UnbondType(t, readyToUnbond, s, Rows(e.query, actors, e.unbondOrder[..i]), rows);
      }
      assert e.unbondOrder[..|e.unbondOrder|] == e.unbondOrder;
      AllPaid(s, rows);
      forall h ensures Get(balances, h) == Get(s.balances, h) + PayGain(s, rows, h) {
        PaidHolder(s, rows, h);
      }
    }

    lemma AllRowsExist(e: Env)
      requires GoodEnv(c, e)
      ensures forall k :: k in Rows(e.query, actors, e.unbondOrder) ==> k in actors
    {
      RowsAreListed(c, e.query, View(), e.unbondOrder);
    }

    lemma NothingPaid(s: State)
      requires View() == s
      ensures PaidOut(s, [])
    {
      NoPayOuts(s);
    }

    lemma AllPaid(s: State, rows: seq<ActorKey>)
      requires PaidOut(s, rows) && params == s.params && indexed == s.indexed
      ensures (forall k :: k in rows ==> k in s.actors) && View() == Unbond(s, rows)
    {
    }

    /** The inner loop: the actors of one type. */
    method UnbondType(t: ActorType, readyToUnbond: seq<Address>, ghost s: State, ghost before: seq<ActorKey>, ghost rows: seq<ActorKey>)
      requires PaidOut(s, before) && forall k :: k in rows ==> k in s.actors
      requires forall i :: 0 <= i < |readyToUnbond| ==> ActorKey(t, readyToUnbond[i]) in rows
      modifies this`balances
      ensures PaidOut(s, before + KeysOf(t, readyToUnbond))
    {
      hide PayOuts;
      hide MoveAll;
      assert before + KeysOf(t, readyToUnbond)[..0] == before;
      for j := 0 to |readyToUnbond|
        invariant PaidOut(s, before + KeysOf(t, readyToUnbond)[..j])
      {
        var k := ActorKey(t, readyToUnbond[j]);
        ghost var done := before + KeysOf(t, readyToUnbond)[..j];
        assert before + KeysOf(t, readyToUnbond)[..j + 1] == done + [k];
        var stakeAmount, output := actors[k].stake, actors[k].output;
        PayOutNext(s, done, k);
        balances := Add(balances, PoolOf(StakePool(t)), -stakeAmount);
        balances := Add(balances, Account(output), stakeAmount);
      }
      assert KeysOf(t, readyToUnbond)[..|readyToUnbond|] == KeysOf(t, readyToUnbond);
    }

    /** Actors paused for too long start unstaking, type by type. */
    method BeginUnstakingMaxPausedActors(order: seq<ActorType>) returns (ok: bool)
      modifies this`actors
      ensures ok <==> BeginUnstakingAll(c, old(View()), order).Some?
      ensures ok ==> View() == BeginUnstakingAll(c, old(View()), order).value
    {
      hide BeginUnstaking;
      for i := 0 to |order|
        invariant BeginUnstakingAll(c, old(View()), order) == BeginUnstakingAll(c, View(), order[i..])
      {
        var t := order[i];
        assert order[i..][0] == t && order[i..][1..] == order[i + 1..];
        if t == Unspecified { return false; }
        var maxPausedBlocks := GetIntParam(View(), MaxPauseBlocks(t));
        if maxPausedBlocks.None? { return false; }
        var maxPauseHeight := c.height - maxPausedBlocks.value;
        if maxPauseHeight < 0 { maxPauseHeight := 0; }
        var unstakingBlocks := GetIntParam(View(), UnstakingBlocks(t));
        if unstakingBlocks.None? { return false; }
        SetUnstakingIfPausedBefore(t, maxPauseHeight, c.height + unstakingBlocks.value);
      }
      return true;
    }

    /** The database update behind beginUnstakingActorsPausedBefore. */
    method SetUnstakingIfPausedBefore(t: ActorType, pausedBefore: int, unbondingHeight: int)
      requires HasPauseParams(View(), t) && pausedBefore == PauseLimit(c, View(), t)
      requires unbondingHeight == c.height + GetIntParam(View(), UnstakingBlocks(t)).value
      modifies this`actors
      ensures View() == BeginUnstaking(c, old(View()), t)
    {
      actors := map k | k in actors :: if k.actorType == t && 0 <= actors[k].pausedHeight < pausedBefore
        then actors[k].(unstakingHeight := unbondingHeight) else actors[k];
    }

    method EndOfBlock(e: Env, proposer: Address) returns (ok: bool)
      requires GoodEnv(c, e)
      modifies this`balances, this`actors
      ensures ok <==> FinishBlock(c, e, old(View()), proposer).Some?
      ensures ok ==> View() == FinishBlock(c, e, old(View()), proposer).value
      ensures ok ==> Total(balances) == Total(old(balances))
      ensures var s, rows := old(View()), Rows(e.query, old(actors), e.unbondOrder);
        && (forall k :: k in rows ==> k in s.actors)
        && (ok ==> forall h :: Get(balances, h) == Get(s.balances, h) + RewardGain(c, s, proposer, h) + PayGain(s, rows, h))
    {
      hide Total, RewardGain, PayGain;
      ghost var s, rows := View(), Rows(e.query, actors, e.unbondOrder);
      FinishBlockConserves(c, e, View(), proposer);
      hide GoodEnv;
      hide BeginUnstakingAll;
      hide Rows;
      AllRowsExist(e);
      ok := HandleProposerRewards(proposer);
      if !ok { return; }
      forall h ensures PayGain(View(), rows, h) == PayGain(s, rows, h) { SameGains(s, View(), rows, h); }
      UnbondUnstakingActors(e);
      ok := BeginUnstakingMaxPausedActors(e.pauseOrder);
    }

    // ---------------------------------------------------------------- the leader's side

    /** Execute transactions from the front of the pool until it is empty or the block is full. */
    method ReapMempool(pool: TxFifoMempool, maxTxBytes: nat) returns (ok: bool, txs: seq<Raw>)
      requires pool.Valid()
      modifies this`balances, this`actors, this`params, this`indexed, pool
      ensures pool.Valid()
      ensures var r := Reap(c, old(View()), old(pool.queue), 0, 0, maxTxBytes);
              && (ok <==> r.Reaped?)
              && (ok ==> View() == r.s && txs == r.proposed && (old(pool.Fits()) ==> pool.queue == r.left))
    {
      hide HandleTransaction, Total, Burned, TransactionLaw, MaySign, Costs;
      hide Reap;
      hide Reaping;
      hide pool.Fits;
      hide pool.HasRoom;
      ghost var all := Reap(c, View(), pool.queue, 0, 0, maxTxBytes);
      ghost var rejected: seq<Raw> := [];
      txs := [];
      var total: nat, index: nat := 0, 0;
      var full := false;
      ReapingStarts(c, View(), pool.queue, maxTxBytes);
      while pool.queue != [] && !full
        invariant pool.Valid() && (old(pool.Fits()) ==> pool.Fits())
        invariant !full ==> Reaping(c, View(), all, pool.queue, total, index, maxTxBytes, txs, rejected)
        invariant full ==> all.Reaped? && View() == all.s && txs == all.proposed && (old(pool.Fits()) ==> pool.queue == all.left)
        decreases !full, |pool.queue|
      {
        ghost var queue := pool.queue;
        var popped := pool.PopTx();
        var raw := popped.value;
        assert raw == queue[0] && queue[1..] == pool.queue;
        var tx := c.decode(raw);
        ReapingStep(c, View(), all, queue, total, index, maxTxBytes, txs, rejected);
        if tx.None? { return false, []; }
        total := total + |raw|;
        if total >= maxTxBytes {
          full := true;
          var added := pool.AddTx(raw);
        } else {
          var idx := Process(tx.value, index);
          if idx.None? {
            total := total - |raw|;
            rejected := rejected + [raw];
          } else {
            IndexTransaction(idx.value);
            txs := txs + [raw];
            index := index + 1;
          }
        }
      }
      if !full { ReapingEnds(c, View(), all, total, index, maxTxBytes, txs, rejected); }
      return true, txs;
    }

    method CreateProposalBlock(e: Env, pool: TxFifoMempool, proposer: Address, maxTxBytes: nat)
      returns (ok: bool, hash: string, txs: seq<Raw>)
      requires GoodEnv(c, e) && pool.Valid()
      modifies this`balances, this`actors, this`params, this`indexed, pool
      ensures pool.Valid()
      ensures var b := CreateBlock(c, e, old(View()), old(pool.queue), maxTxBytes, proposer);
              && (ok <==> b.Some?)
              && (ok ==> View() == b.value.s && txs == b.value.txs && hash == c.stateHash(b.value.s))
              && (ok && old(pool.Fits()) ==> pool.queue == b.value.left)
      ensures ok && Admitted(c, old(pool.queue)) ==> Total(balances) == Total(old(balances)) - BurnedBy(c, old(View()), txs, 0)
    {
      hide Total, BurnedBy;
      if Admitted(c, pool.queue) {
        ReplayOfReap(c, View(), pool.queue, 0, 0, maxTxBytes);
        ReplayTotal(c, View(), Reap(c, View(), pool.queue, 0, 0, maxTxBytes).proposed, 0);
      }
      hide GoodEnv;
      hide Reap;
      hide FinishBlock;
      hash := "";
      ok, txs := ReapMempool(pool, maxTxBytes);
      if !ok { return; }
      ok := EndOfBlock(e, proposer);
      if !ok { return; }
      hash := c.stateHash(View());
    }

    // ---------------------------------------------------------------- the replica's side

    method SetProposalBlock(blockHash: string, proposerAddr: Option<Address>, txs: seq<Raw>)
      modifies this`proposalStateHash, this`proposalProposerAddr, this`proposalBlockTxs
      ensures proposalStateHash == blockHash && proposalProposerAddr == proposerAddr && proposalBlockTxs == txs
    {
      proposalStateHash, proposalProposerAddr, proposalBlockTxs := blockHash, proposerAddr, txs;
    }

    /** Replay the proposal; what it applied leaves the pool. */
    method ProcessProposalBlockTransactions(pool: TxFifoMempool) returns (ok: bool)
      requires pool.Valid()
      modifies this`balances, this`actors, this`params, this`indexed, pool
      ensures pool.Valid()
      ensures ok <==> Replay(c, old(View()), proposalBlockTxs, 0).Some?
      ensures ok ==> View() == Replay(c, old(View()), proposalBlockTxs, 0).value
      ensures ok <==> forall i :: 0 <= i < |proposalBlockTxs| ==> Replays(c, old(View()), proposalBlockTxs, 0, i)
      ensures ok ==> old(indexed) <= indexed && Indexes(c, proposalBlockTxs, 0, indexed[|old(indexed)|..])
      ensures ok ==> forall raw :: raw in proposalBlockTxs ==> pool.hash(raw) !in pool.hashes
    {
      hide HandleTransaction, Total, Burned, TransactionLaw, MaySign, Costs, Replays, Indexes;
      ReplayTakesAll(c, View(), proposalBlockTxs, 0);
      ReplayIndexes(c, View(), proposalBlockTxs, 0);
      for i := 0 to |proposalBlockTxs|
        invariant pool.Valid()
        invariant Replay(c, old(View()), proposalBlockTxs, 0) == Replay(c, View(), proposalBlockTxs[i..], i)
        invariant forall raw :: raw in proposalBlockTxs[..i] ==> pool.hash(raw) !in pool.hashes
      {
        var raw := proposalBlockTxs[i];
        assert proposalBlockTxs[i..][0] == raw && proposalBlockTxs[i..][1..] == proposalBlockTxs[i + 1..];
        var tx := c.decode(raw);
        if tx.None? { return false; }
        if !tx.value.valid { return false; }
        var idx := Process(tx.value, i);
        if idx.None? { return false; }
        var pooled := pool.Contains(pool.hash(raw));
        if pooled {
          pool.RemoveTx(raw);
        }
        IndexTransaction(idx.value);
        assert proposalBlockTxs[..i + 1] == proposalBlockTxs[..i] + [raw];
      }
      return true;
    }

    method ApplyBlock(e: Env, pool: TxFifoMempool) returns (ok: bool)
      requires GoodEnv(c, e) && pool.Valid()
      modifies this`balances, this`actors, this`params, this`indexed, this`stateHash, pool
      ensures pool.Valid()
      ensures ok <==> proposalStateHash != "" && proposalProposerAddr.Some?
                      && ApplyProposal(c, e, old(View()), proposalBlockTxs, proposalProposerAddr.value, proposalStateHash).Some?
      ensures ok ==> View() == ApplyProposal(c, e, old(View()), proposalBlockTxs, proposalProposerAddr.value, proposalStateHash).value
      ensures ok ==> proposalStateHash == IGNORE_HASH || proposalStateHash == c.stateHash(View())
      ensures ok ==> old(indexed) <= indexed && Indexes(c, proposalBlockTxs, 0, indexed[|old(indexed)|..])
      ensures ok ==> stateHash == c.stateHash(View()) && forall raw :: raw in proposalBlockTxs ==> pool.hash(raw) !in pool.hashes
      ensures ok ==> Total(balances) == Total(old(balances)) - BurnedBy(c, old(View()), proposalBlockTxs, 0)
    {
      hide Total, BurnedBy, Indexes;
      if proposalProposerAddr.Some? {
        BlockTotal(c, e, View(), proposalBlockTxs, proposalProposerAddr.value, proposalStateHash);
      }
      hide GoodEnv;
      hide Replay;
      hide FinishBlock;
      if proposalStateHash == "" || proposalProposerAddr.None? { return false; }
      ok := ProcessProposalBlockTransactions(pool);
      if !ok { return; }
      ok := EndOfBlock(e, proposalProposerAddr.value);
      if !ok { return; }
      var hash := c.stateHash(View());
      if proposalStateHash != IGNORE_HASH {
        if proposalStateHash != hash { return false; }
      }
      stateHash := hash;
    }
  }

  /** How far the reaping loop has come: what remains to be reaped completes what was reaped so far. */
  ghost predicate Reaping(c: Context, s: State, all: Reaped, queue: seq<Raw>, total: nat, index: nat, maxTxBytes: nat,
                          txs: seq<Raw>, rejected: seq<Raw>)
  {
    var r := Reap(c, s, queue, total, index, maxTxBytes);
    && (all.Reaped? <==> r.Reaped?)
    && (r.Reaped? ==> all == Reaped(r.s, txs + r.proposed, rejected + r.rejected, r.left))
  }

  lemma ReapingStarts(c: Context, s: State, queue: seq<Raw>, maxTxBytes: nat)
    ensures Reaping(c, s, Reap(c, s, queue, 0, 0, maxTxBytes), queue, 0, 0, maxTxBytes, [], [])
  {
  }

  lemma ReapingEnds(c: Context, s: State, all: Reaped, total: nat, index: nat, maxTxBytes: nat, txs: seq<Raw>, rejected: seq<Raw>)
    requires Reaping(c, s, all, [], total, index, maxTxBytes, txs, rejected)
    ensures all == Reaped(s, txs, rejected, [])
  {
  }

  lemma ReapingStep(c: Context, s: State, all: Reaped, queue: seq<Raw>, total: nat, index: nat, maxTxBytes: nat,
                    txs: seq<Raw>, rejected: seq<Raw>)
    requires queue != [] && Reaping(c, s, all, queue, total, index, maxTxBytes, txs, rejected)
    ensures c.decode(queue[0]).None? ==> all.ReapFailed?
    ensures c.decode(queue[0]).Some? && total + |queue[0]| >= maxTxBytes ==> all == Reaped(s, txs, rejected, queue[1..] + [queue[0]])
    ensures c.decode(queue[0]).Some? && total + |queue[0]| < maxTxBytes ==>
      var o := HandleTransaction(c, s, c.decode(queue[0]).value, index);
      if o.Rejected? then Reaping(c, s, all, queue[1..], total, index, maxTxBytes, txs, rejected + [queue[0]])
      else Reaping(c, IndexTx(o.s, o.idx), all, queue[1..], total + |queue[0]|, index + 1, maxTxBytes, txs + [queue[0]], rejected)
  {
    hide HandleTransaction;
  }

  lemma PaidHolder(s: State, rows: seq<ActorKey>, h: Holder)
    requires forall k :: k in rows ==> k in s.actors
    ensures Get(Unbond(s, rows).balances, h) == Get(s.balances, h) + PayGain(s, rows, h)
  {
    match h
    case Account(a) => PayOutsCreditOutputs(s.balances, s, rows, a);
    case PoolOf(p) => PayOutsDrainPool(s.balances, s, rows, p);
  }

  lemma NoPayOuts(s: State)
    ensures PayOuts(s, []) == []
  {
  }

  lemma {:induction false} RowsAppend(query: Query, actors: map<ActorKey, Actor>, order: seq<ActorType>, t: ActorType)
    ensures Rows(query, actors, order + [t]) == Rows(query, actors, order) + KeysOf(t, query(actors, t))
    decreases |order|
  {
    if order == [] {
      assert Rows(query, actors, [t]) == KeysOf(t, query(actors, t)) + Rows(query, actors, []);
    } else {
      assert (order + [t])[1..] == order[1..] + [t];
      RowsAppend(query, actors, order[1..], t);
    }
  }

  lemma RowsSplit(query: Query, actors: map<ActorKey, Actor>, order: seq<ActorType>, i: nat)
    requires i < |order|
    ensures Rows(query, actors, order[..i + 1]) == Rows(query, actors, order[..i]) + KeysOf(order[i], query(actors, order[i]))
    ensures forall j :: 0 <= j < |query(actors, order[i])| ==> ActorKey(order[i], query(actors, order[i])[j]) in Rows(query, actors, order)
    decreases |order|
  {
    assert order[..i + 1] == order[..i] + [order[i]];
    RowsAppend(query, actors, order[..i], order[i]);
    RowsInclude(query, actors, order, i);
  }

  lemma {:induction false} RowsInclude(query: Query, actors: map<ActorKey, Actor>, order: seq<ActorType>, i: nat)
    requires i < |order|
    ensures forall j :: 0 <= j < |query(actors, order[i])| ==> ActorKey(order[i], query(actors, order[i])[j]) in Rows(query, actors, order)
    decreases i
  {
    var here := KeysOf(order[0], query(actors, order[0]));
    if i > 0 {
      RowsInclude(query, actors, order[1..], i - 1);
    } else {
      forall j | 0 <= j < |query(actors, order[0])| ensures ActorKey(order[0], query(actors, order[0])[j]) in Rows(query, actors, order) {
        assert here[j] in here;
      }
    }
  }

  lemma {:induction false} MoveLast(b: Balances, ts: seq<Transfer>, t: Transfer)
    ensures MoveAll(b, ts + [t]) == Move(MoveAll(b, ts), t)
    decreases |ts|
  {
    if ts == [] {
      assert (ts + [t])[1..] == [];
    } else {
      assert (ts + [t])[1..] == ts[1..] + [t];
      MoveLast(Move(b, ts[0]), ts[1..], t);
    }
  }

  lemma PayOutNext(s: State, done: seq<ActorKey>, k: ActorKey)
    requires (forall x :: x in done ==> x in s.actors) && k in s.actors
    ensures MoveAll(s.balances, PayOuts(s, done + [k])) == Move(MoveAll(s.balances, PayOuts(s, done)), PayOut(s, k))
  {
    assert PayOuts(s, done + [k]) == PayOuts(s, done) + [PayOut(s, k)];
    MoveLast(s.balances, PayOuts(s, done), PayOut(s, k));
  }
}
