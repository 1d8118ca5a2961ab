/**
 What one transaction and the end of a block do, holder by holder and actor by actor: laws on the states
 before and after, read off the stored parameters and balances.
 */
module UowLaws {
  import opened Collections
  import opened Common
  import opened Ledger
  import opened UowSpec
  import opened UowBlocks

  // ---------------------------------------------------------------- who may sign, and for what fee

  /** Who may sign a message: the payer, the staker or its output, the actor or its output, the parameter's owner. */
  predicate MaySign(c: Context, s: State, msg: Message, signer: Address) {
    match msg
    case MessageSend(from, _, _) => signer == from
    case MessageStake(_, operator, output, _, _, _) => operator.Some? && (signer == output || signer == operator.value)
    case MessageEditStake(_, _, _, _, _) => false
    case MessageUnstake(t, a) => t != Unspecified && ActorKey(t, a) in s.actors && (signer == a || signer == s.actors[ActorKey(t, a)].output)
    case MessageUnpause(t, a) => t != Unspecified && ActorKey(t, a) in s.actors && (signer == a || signer == s.actors[ActorKey(t, a)].output)
    case MessageChangeParameter(key, _) =>
      && c.owner(key).Some? && c.owner(key).value in s.params && s.params[c.owner(key).value] == BytesParam(signer)
  }

  /** The governance parameter that prices a message. */
  function Price(msg: Message): ParamName {
    match msg
    case MessageSend(_, _, _) => SendFee
    case MessageStake(t, _, _, _, _, _) => StakeFee(t)
    case MessageEditStake(t, _, _, _, _) => EditStakeFee(t)
    case MessageUnstake(t, _) => UnstakeFee(t)
    case MessageUnpause(t, _) => UnpauseFee(t)
    case MessageChangeParameter(_, _) => ChangeParameterFee
  }

  predicate Costs(s: State, msg: Message, fee: int) {
    Price(msg) in s.params && s.params[Price(msg)] == StringParam(Some(fee)) && (msg.MessageStake? ==> msg.actorType != Unspecified)
  }

  /** A transaction is accepted exactly when one that may sign it can pay its price. */
  lemma AcceptedIff(c: Context, s: State, tx: Tx, index: nat)
    ensures HandleTransaction(c, s, tx, index).Accepted? <==>
      && tx.msg.Some? && MaySign(c, s, tx.msg.value, tx.signer)
      && exists fee :: Costs(s, tx.msg.value, fee) && fee <= Get(s.balances, Account(tx.signer))
  {
    hide HandleMessage;
    if tx.msg.Some? && FeeOf(s, tx.msg.value).Some? && MaySign(c, s, tx.msg.value, tx.signer) {
      assert Costs(s, tx.msg.value, FeeOf(s, tx.msg.value).value);
    }
  }

  // ---------------------------------------------------------------- balances

  /** What the fee adds to a holder: it leaves the signer for the fee collector. */
  function FeeGain(signer: Address, fee: int, h: Holder): int {
    if h == Account(signer) then -fee else if h == PoolOf(FeeCollector) then fee else 0
  }

  /** What a successful message adds to a holder. */
  function MessageGain(msg: Message, signer: Address, h: Holder): int {
    match msg
    case MessageSend(from, to, amount) =>
      if amount.None? then 0
      else if h == Account(from) then -amount.value
      else if h == Account(to) then amount.value
      else 0
    case MessageStake(_, _, _, amount, _, _) =>
      if amount.None? then 0
      else if h == Account(signer) then -amount.value
      else if h == PoolOf(AppStake) then amount.value
      else 0
    case _ => 0
  }

  // ---------------------------------------------------------------- actors and parameters

  /** The actor that a stake message makes. */
  predicate MadeBy(msg: Message, a: Actor)
    requires msg.MessageStake?
  {
    && a.output == msg.output && msg.amount == Some(a.stake) && a.pausedHeight == -1 && a.unstakingHeight == -1
    && (msg.actorType == Validator ==> a.chains == []) && (msg.actorType != Validator ==> a.chains == msg.chains)
    && (msg.actorType == App ==> a.serviceUrl == "") && (msg.actorType != App ==> a.serviceUrl == msg.serviceUrl)
  }

  /** What a successful message does to the actor of a key. */
  predicate ActorChange(c: Context, s: State, msg: Message, k: ActorKey, t: State) {
    match msg
    case MessageStake(at, operator, _, _, _, _) =>
      if operator.Some? && k == ActorKey(at, operator.value) then k !in s.actors && k in t.actors && MadeBy(msg, t.actors[k])
      else SameActor(s, k, t)
    case MessageUnstake(at, a) =>
      if k == ActorKey(at, a) then
        && k in s.actors && k in t.actors && s.actors[k].unstakingHeight == -1
        && UnstakingBlocks(at) in s.params && s.params[UnstakingBlocks(at)].IntParam?
        && t.actors[k] == s.actors[k].(unstakingHeight := c.height + s.params[UnstakingBlocks(at)].n)
      else SameActor(s, k, t)
    case MessageUnpause(at, a) =>
      if k == ActorKey(at, a) then
        && k in s.actors && k in t.actors && s.actors[k].pausedHeight != -1
        && MinimumPauseBlocks(at) in s.params && s.params[MinimumPauseBlocks(at)].IntParam?
        && s.actors[k].pausedHeight + s.params[MinimumPauseBlocks(at)].n <= c.height
        && t.actors[k] == s.actors[k].(pausedHeight := -1)
      else SameActor(s, k, t)
    case _ => SameActor(s, k, t)
  }

  predicate SameActor(s: State, k: ActorKey, t: State) {
    (k in t.actors <==> k in s.actors) && (k in s.actors ==> t.actors[k] == s.actors[k])
  }

  /** Only a successful change of a parameter changes one, and only that one. */
  predicate ParamsChange(s: State, msg: Message, ok: bool, t: State) {
    if ok && msg.MessageChangeParameter? then msg.value.Some? && t.params == s.params[msg.key := msg.value.value]
    else t.params == s.params
  }

  /** When a message succeeds, its fee paid. */
  predicate Succeeds(c: Context, s: State, msg: Message, signer: Address, fee: int) {
    match msg
    case MessageSend(from, _, amount) => amount.Some? && amount.value <= Get(s.balances, Account(from)) - fee
    case MessageStake(t, operator, _, amount, chains, _) =>
      && operator.Some? && amount.Some? && amount.value <= Get(s.balances, Account(signer)) - fee
      && MinimumStake(t) in s.params && s.params[MinimumStake(t)].StringParam? && s.params[MinimumStake(t)].amount.Some?
      && s.params[MinimumStake(t)].amount.value <= amount.value
      && (t != Validator ==> MaxChains(t) in s.params && s.params[MaxChains(t)].IntParam? && |chains| <= s.params[MaxChains(t)].n)
      && ActorKey(t, operator.value) !in s.actors
    case MessageEditStake(_, _, _, _, _) => false
    case MessageUnstake(t, a) =>
      && ActorKey(t, a) in s.actors && s.actors[ActorKey(t, a)].unstakingHeight == -1
      && UnstakingBlocks(t) in s.params && s.params[UnstakingBlocks(t)].IntParam?
    case MessageUnpause(t, a) =>
      && ActorKey(t, a) in s.actors && s.actors[ActorKey(t, a)].pausedHeight != -1
      && MinimumPauseBlocks(t) in s.params && s.params[MinimumPauseBlocks(t)].IntParam?
      && s.actors[ActorKey(t, a)].pausedHeight + s.params[MinimumPauseBlocks(t)].n <= c.height
    case MessageChangeParameter(_, value) => value.Some?
  }

  /** The whole effect of an accepted transaction with a fee. */
  ghost predicate Effect(c: Context, s: State, msg: Message, signer: Address, fee: int, ok: bool, t: State) {
    && Costs(s, msg, fee) && fee <= Get(s.balances, Account(signer)) && MaySign(c, s, msg, signer)
    && (ok <==> Succeeds(c, s, msg, signer, fee))
    && (forall h {:trigger Get(t.balances, h)} ::
          Get(t.balances, h) == Get(s.balances, h) + FeeGain(signer, fee, h) + if ok then MessageGain(msg, signer, h) else 0)
    && (forall k {:trigger SameActor(s, k, t)} {:trigger ActorChange(c, s, msg, k, t)} ::
          if ok then ActorChange(c, s, msg, k, t) else SameActor(s, k, t))
    && ParamsChange(s, msg, ok, t) && t.indexed == s.indexed
  }

  /** What became of a transaction, as it is indexed. */
  ghost predicate TransactionLaw(c: Context, s: State, tx: Tx, index: nat, idx: IndexedTx, t: State) {
    && idx.tx == tx && idx.height == c.height && idx.index == index && tx.msg.Some?
    && exists fee :: Effect(c, s, tx.msg.value, tx.signer, fee, idx.ok, t)
  }

  lemma BalancesAfter(c: Context, s: State, msg: Message, signer: Address, fee: int, h: Holder)
    requires MaySign(c, s, msg, signer)
    ensures var paid := DeductFee(s, signer, fee); var r := HandleMessage(c, paid, msg, signer);
      Get(r.s.balances, h) == Get(s.balances, h) + FeeGain(signer, fee, h) + if r.ok then MessageGain(msg, signer, h) else 0
  {
  }

  lemma ActorsAfter(c: Context, s: State, msg: Message, signer: Address, fee: int, k: ActorKey)
    requires MaySign(c, s, msg, signer)
    ensures var paid := DeductFee(s, signer, fee); var r := HandleMessage(c, paid, msg, signer);
      if r.ok then ActorChange(c, s, msg, k, r.s) else SameActor(s, k, r.s)
  {
  }

  lemma SuccessAfter(c: Context, s: State, msg: Message, signer: Address, fee: int)
    requires MaySign(c, s, msg, signer) && Costs(s, msg, fee)
    ensures var r := HandleMessage(c, DeductFee(s, signer, fee), msg, signer);
      (r.ok <==> Succeeds(c, s, msg, signer, fee)) && ParamsChange(s, msg, r.ok, r.s) && r.s.indexed == s.indexed
  {
  }

  // ---------------------------------------------------------------- a changed stake

  /** When a stake can be changed: not lowered, the difference at hand, the chains within their limit. */
  predicate CanRestake(s: State, msg: Message, signer: Address)
    requires msg.MessageEditStake?
  {
    var t, k := msg.actorType, ActorKey(msg.actorType, msg.address);
    && t != Unspecified && k in s.actors && msg.amount.Some?
    && 0 <= msg.amount.value - s.actors[k].stake <= Get(s.balances, Account(signer))
    && (t != Validator ==> MaxChains(t) in s.params && s.params[MaxChains(t)].IntParam? && |msg.chains| <= s.params[MaxChains(t)].n)
  }

  predicate Restaked(msg: Message, a: Actor, b: Actor)
    requires msg.MessageEditStake?
  {
    && msg.amount == Some(b.stake) && b.output == a.output && b.pausedHeight == a.pausedHeight && b.unstakingHeight == a.unstakingHeight
    && b.chains == (if msg.actorType == Validator then a.chains else msg.chains)
    && b.serviceUrl == if msg.actorType == App then a.serviceUrl else msg.serviceUrl
  }

  /** The difference leaves the signer for the stake pool; nothing but the actor's stake, chains and address changes. */
  ghost predicate EditLaw(s: State, msg: Message, signer: Address, ok: bool, t: State)
    requires msg.MessageEditStake?
  {
    var k := ActorKey(msg.actorType, msg.address);
    && (ok <==> CanRestake(s, msg, signer))
    && (if !ok then t == s else
        && (forall h {:trigger Get(t.balances, h)} :: Get(t.balances, h) == Get(s.balances, h) +
              if h == Account(signer) then s.actors[k].stake - msg.amount.value
              else if h == PoolOf(AppStake) then msg.amount.value - s.actors[k].stake else 0)
        && (forall j {:trigger SameActor(s, j, t)} :: j != k ==> SameActor(s, j, t))
        && k in t.actors && Restaked(msg, s.actors[k], t.actors[k])
        && t.params == s.params && t.indexed == s.indexed)
  }

  lemma EditStakeEffect(c: Context, s: State, msg: Message, signer: Address)
    requires msg.MessageEditStake?
    ensures var r := HandleMessage(c, s, msg, signer); EditLaw(s, msg, signer, r.ok, r.s)
  {
  }

  // ---------------------------------------------------------------- transactions

  /** Every accepted transaction obeys the law. */
  lemma AcceptedEffect(c: Context, s: State, tx: Tx, index: nat)
    ensures var o := HandleTransaction(c, s, tx, index); o.Accepted? ==> TransactionLaw(c, s, tx, index, o.idx, o.s)
  {
    hide HandleMessage, DeductFee, FeeGain, MessageGain, ActorChange, SameActor, ParamsChange, Succeeds;
    AcceptedIff(c, s, tx, index);
    var o := HandleTransaction(c, s, tx, index);
    if o.Accepted? {
      var msg, fee := tx.msg.value, FeeOf(s, tx.msg.value).value;
      SuccessAfter(c, s, msg, tx.signer, fee);
      forall h ensures Get(o.s.balances, h) == Get(s.balances, h) + FeeGain(tx.signer, fee, h) + if o.idx.ok then MessageGain(msg, tx.signer, h) else 0 {
        BalancesAfter(c, s, msg, tx.signer, fee, h);
      }
      forall k ensures if o.idx.ok then ActorChange(c, s, msg, k, o.s) else SameActor(s, k, o.s) {
        ActorsAfter(c, s, msg, tx.signer, fee, k);
      }
      assert Effect(c, s, msg, tx.signer, fee, o.idx.ok, o.s);
    }
  }
}
