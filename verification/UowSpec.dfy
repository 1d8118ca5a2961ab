/**
 * utility/unit_of_work: what one transaction and the end of a block do to the ledger, the
 * actors, the parameters and the indexed transactions, as functions from state to state.
 */
module UowSpec {
  import opened Collections
  import opened Common
  import opened Ledger

  datatype ActorType = Unspecified | App | Servicer | Fisherman | Validator

  const HEIGHT_NOT_USED := -1

  datatype StakeStatus = Unstaking | Staked | Unstaked

  datatype Actor = Actor(output: Address, stake: int, chains: seq<string>, serviceUrl: string, pausedHeight: int, unstakingHeight: int)

  datatype ActorKey = ActorKey(actorType: ActorType, address: Address)

  datatype ParamName =
    | SendFee | ChangeParameterFee
    | StakeFee(actorType: ActorType) | EditStakeFee(actorType: ActorType)
    | UnstakeFee(actorType: ActorType) | UnpauseFee(actorType: ActorType)
    | MinimumStake(actorType: ActorType) | MaxChains(actorType: ActorType) | UnstakingBlocks(actorType: ActorType)
    | MinimumPauseBlocks(actorType: ActorType) | MaxPauseBlocks(actorType: ActorType)
    | ProposerPercentageOfFees
    | Other(name: string)

  /** A string parameter stands for a big integer when its text is one. */
  datatype Param = IntParam(n: int) | StringParam(amount: Option<int>) | BytesParam(address: Address)

  /** Amounts are decimal strings in the source; None stands for one that is no number. */
  datatype Message =
    | MessageSend(from: Address, to: Address, amount: Option<int>)
    | MessageStake(actorType: ActorType, operator: Option<Address>, output: Address, amount: Option<int>,
                   chains: seq<string>, serviceUrl: string)
    | MessageEditStake(actorType: ActorType, address: Address, amount: Option<int>, chains: seq<string>, serviceUrl: string)
    | MessageUnstake(actorType: ActorType, address: Address)
    | MessageUnpause(actorType: ActorType, address: Address)
    | MessageChangeParameter(key: ParamName, value: Option<Param>)

  /** `signer` is the address of the signature's key; `valid` is what ValidateBasic answers. */
  datatype Tx = Tx(signer: Address, msg: Option<Message>, valid: bool)

  datatype IndexedTx = IndexedTx(tx: Tx, height: int, index: nat, ok: bool)

  datatype State = State(balances: Balances, actors: map<ActorKey, Actor>, params: map<ParamName, Param>, indexed: seq<IndexedTx>)

  /** Height of the block, owners of parameters, decoder, state hash, and how a proposer's cut is rounded. */
  datatype Context = Context(
    height: int,
    owner: ParamName -> Option<ParamName>,
    decode: Raw -> Option<Tx>,
    stateHash: State -> string,
    cut: (int, int) -> int)

  // ---------------------------------------------------------------- reads

  function BigIntParam(s: State, name: ParamName): Option<int> {
    if name in s.params && s.params[name].StringParam? then s.params[name].amount else None
  }

  function GetIntParam(s: State, name: ParamName): Option<int> {
    if name in s.params && s.params[name].IntParam? then Some(s.params[name].n) else None
  }

  function BytesParamOf(s: State, name: ParamName): Option<Address> {
    if name in s.params && s.params[name].BytesParam? then Some(s.params[name].address) else None
  }

  function Balance(s: State, a: Address): int {
    Get(s.balances, Account(a))
  }

  /** GetActorStatus derives the status from the unstaking height. */
  function StatusOf(c: Context, a: Actor): StakeStatus {
    if a.unstakingHeight == HEIGHT_NOT_USED then Staked else if a.unstakingHeight > c.height then Unstaking else Unstaked
  }

  function OutputOf(s: State, t: ActorType, a: Address): Option<Address> {
    var k := ActorKey(t, a);
    if t != Unspecified && k in s.actors then Some(s.actors[k].output) else None
  }

  // ---------------------------------------------------------------- transactions

  function SignerCandidates(c: Context, s: State, msg: Message): Option<seq<Address>> {
    match msg
    case MessageSend(from, _, _) => Some([from])
    case MessageStake(_, operator, output, _, _, _) => if operator.None? then None else Some([output, operator.value])
    case MessageEditStake(_, _, _, _, _) => None
    case MessageUnstake(t, a) => if OutputOf(s, t, a).None? then None else Some([OutputOf(s, t, a).value, a])
    case MessageUnpause(t, a) => if OutputOf(s, t, a).None? then None else Some([OutputOf(s, t, a).value, a])
    case MessageChangeParameter(key, _) =>
      if c.owner(key).None? then None
      else var owner := BytesParamOf(s, c.owner(key).value); if owner.None? then None else Some([owner.value])
  }

  function FeeOf(s: State, msg: Message): Option<int> {
    match msg
    case MessageSend(_, _, _) => BigIntParam(s, SendFee)
    case MessageStake(t, _, _, _, _, _) => if t == Unspecified then None else BigIntParam(s, StakeFee(t))
    case MessageEditStake(t, _, _, _, _) => if t == Unspecified then None else BigIntParam(s, EditStakeFee(t))
    case MessageUnstake(t, _) => if t == Unspecified then None else BigIntParam(s, UnstakeFee(t))
    case MessageUnpause(t, _) => if t == Unspecified then None else BigIntParam(s, UnpauseFee(t))
    case MessageChangeParameter(_, _) => BigIntParam(s, ChangeParameterFee)
  }

  function DeductFee(s: State, a: Address, fee: int): State {
    s.(balances := Add(Add(s.balances, Account(a), -fee), PoolOf(FeeCollector), fee))
  }

  /** The recipient is credited before the sender's new balance, read at the start, is written. */
  function Send(s: State, from: Address, to: Address, amount: int): State {
    s.(balances := Add(s.balances, Account(to), amount)[Account(from) := Balance(s, from) - amount])
  }

  predicate ChainsAllowed(s: State, t: ActorType, chains: seq<string>) {
    t == Validator || (t != Unspecified && GetIntParam(s, MaxChains(t)).Some? && |chains| <= GetIntParam(s, MaxChains(t)).value)
  }

  /** Validators have no chains and applications no service address; whatever the type, the stake goes to the pool of applications. */
  function ToStakePool(s: State, signer: Address, amount: int): State {
    s.(balances := Add(Add(s.balances, Account(signer), -amount), PoolOf(AppStake), amount))
  }

  predicate CanStake(s: State, msg: Message, signer: Address)
    requires msg.MessageStake?
  {
    var t := msg.actorType;
    && msg.operator.Some? && t != Unspecified
    && BigIntParam(s, MinimumStake(t)).Some? && msg.amount.Some? && msg.amount.value >= BigIntParam(s, MinimumStake(t)).value
    && Balance(s, signer) >= msg.amount.value
    && ChainsAllowed(s, t, msg.chains)
    && ActorKey(t, msg.operator.value) !in s.actors
  }

  function Stake(s: State, msg: Message, signer: Address): State
    requires msg.MessageStake? && CanStake(s, msg, signer)
  {
    var key := ActorKey(msg.actorType, msg.operator.value);
    var actor := Actor(msg.output, msg.amount.value, if msg.actorType == Validator then [] else msg.chains,
                       if msg.actorType == App then "" else msg.serviceUrl, HEIGHT_NOT_USED, HEIGHT_NOT_USED);
    ToStakePool(s, signer, msg.amount.value).(actors := s.actors[key := actor])
  }

  predicate CanEditStake(s: State, msg: Message, signer: Address)
    requires msg.MessageEditStake?
  {
    var t, key := msg.actorType, ActorKey(msg.actorType, msg.address);
    && t != Unspecified && key in s.actors
    && msg.amount.Some? && msg.amount.value >= s.actors[key].stake
    && Balance(s, signer) >= msg.amount.value - s.actors[key].stake
    && ChainsAllowed(s, t, msg.chains)
  }

  function EditStake(s: State, msg: Message, signer: Address): State
    requires msg.MessageEditStake? && CanEditStake(s, msg, signer)
  {
    var key := ActorKey(msg.actorType, msg.address);
    var actor := s.actors[key].(stake := msg.amount.value,
                                chains := if msg.actorType == Validator then s.actors[key].chains else msg.chains,
                                serviceUrl := if msg.actorType == App then s.actors[key].serviceUrl else msg.serviceUrl);
    ToStakePool(s, signer, msg.amount.value - s.actors[key].stake).(actors := s.actors[key := actor])
  }

  predicate CanUnstake(c: Context, s: State, t: ActorType, a: Address) {
    && t != Unspecified && ActorKey(t, a) in s.actors && StatusOf(c, s.actors[ActorKey(t, a)]) == Staked
    && GetIntParam(s, UnstakingBlocks(t)).Some?
  }

  function Unstake(c: Context, s: State, t: ActorType, a: Address): State
    requires CanUnstake(c, s, t, a)
  {
    var key := ActorKey(t, a);
    s.(actors := s.actors[key := s.actors[key].(unstakingHeight := c.height + GetIntParam(s, UnstakingBlocks(t)).value)])
  }

  predicate CanUnpause(c: Context, s: State, t: ActorType, a: Address) {
    && t != Unspecified && ActorKey(t, a) in s.actors
    && s.actors[ActorKey(t, a)].pausedHeight != HEIGHT_NOT_USED
    && GetIntParam(s, MinimumPauseBlocks(t)).Some?
    && c.height >= GetIntParam(s, MinimumPauseBlocks(t)).value + s.actors[ActorKey(t, a)].pausedHeight
  }

  function Unpause(c: Context, s: State, t: ActorType, a: Address): State
    requires CanUnpause(c, s, t, a)
  {
    var key := ActorKey(t, a);
    s.(actors := s.actors[key := s.actors[key].(pausedHeight := HEIGHT_NOT_USED)])
  }

  datatype Handled = Handled(s: State, ok: bool)

  /** The effect of a message, after its fee was paid. */
  function HandleMessage(c: Context, s: State, msg: Message, signer: Address): Handled {
    match msg
    case MessageSend(from, to, amount) =>
      if amount.None? || Balance(s, from) - amount.value < 0 then Handled(s, false) else Handled(Send(s, from, to, amount.value), true)
    case MessageStake(_, _, _, _, _, _) =>
      if CanStake(s, msg, signer) then Handled(Stake(s, msg, signer), true) else Handled(s, false)
    case MessageEditStake(_, _, _, _, _) =>
      if CanEditStake(s, msg, signer) then Handled(EditStake(s, msg, signer), true) else Handled(s, false)
    case MessageUnstake(t, a) =>
      if CanUnstake(c, s, t, a) then Handled(Unstake(c, s, t, a), true) else Handled(s, false)
    case MessageUnpause(t, a) =>
      if CanUnpause(c, s, t, a) then Handled(Unpause(c, s, t, a), true) else Handled(s, false)
    case MessageChangeParameter(key, value) =>
      if value.None? then Handled(s, false) else Handled(s.(params := s.params[key := value.value]), true)
  }

  /** The transaction names its signer among the candidates and that account can pay the fee. */
  predicate Admissible(c: Context, s: State, tx: Tx) {
    && tx.msg.Some?
    && var msg := tx.msg.value;
       && SignerCandidates(c, s, msg).Some? && tx.signer in SignerCandidates(c, s, msg).value
       && FeeOf(s, msg).Some? && Balance(s, tx.signer) - FeeOf(s, msg).value >= 0
  }

  datatype Outcome = Rejected | Accepted(s: State, idx: IndexedTx)

  function HandleTransaction(c: Context, s: State, tx: Tx, index: nat): Outcome {
    if !Admissible(c, s, tx) then Rejected
    else
      var r := HandleMessage(c, DeductFee(s, tx.signer, FeeOf(s, tx.msg.value).value), tx.msg.value, tx.signer);
      Accepted(r.s, IndexedTx(tx, c.height, index, r.ok))
  }

  function IndexTx(s: State, idx: IndexedTx): State {
    s.(indexed := s.indexed + [idx])
  }

  // ---------------------------------------------------------------- end of block

  function FeesAfter(c: Context, s: State, proposer: Address, percentage: int): State {
    var fees := Get(s.balances, PoolOf(FeeCollector));
    var b := s.balances[PoolOf(FeeCollector) := 0];
    s.(balances := Add(Add(b, Account(proposer), c.cut(fees, percentage)), PoolOf(Dao), fees - c.cut(fees, percentage)))
  }

  function ProposerRewards(c: Context, s: State, proposer: Address): Option<State> {
    var percentage := GetIntParam(s, ProposerPercentageOfFees);
    if percentage.None? || !(0 <= percentage.value <= 100) then None
    else Some(FeesAfter(c, s, proposer, percentage.value))
  }

  function StakePool(t: ActorType): Pool {
    match t
    case Servicer => ServicerStake
    case Fisherman => FishermanStake
    case Validator => ValidatorStake
    case _ => AppStake
  }

  /** An actor's stake is paid out at the block whose height it waits for. */
  predicate Ready(c: Context, actors: map<ActorKey, Actor>, k: ActorKey) {
    k in actors && k.actorType != Unspecified && actors[k].unstakingHeight == c.height
  }

  function PayOut(s: State, k: ActorKey): Transfer
    requires k in s.actors
  {
    Transfer(StakePool(k.actorType), s.actors[k].output, s.actors[k].stake)
  }

  function PayOuts(s: State, ks: seq<ActorKey>): (r: seq<Transfer>)
    requires forall k :: k in ks ==> k in s.actors
    ensures |r| == |ks| && forall i :: 0 <= i < |ks| ==> r[i] == PayOut(s, ks[i])
  {
    seq(|ks|, i requires 0 <= i < |ks| => PayOut(s, ks[i]))
  }

  /** The rows of the four queries, in the order in which they come: every ready actor once. */
  ghost predicate Lists(c: Context, s: State, ks: seq<ActorKey>) {
    && (forall k :: k in ks <==> Ready(c, s.actors, k))
    && Distinct(ks)
  }

  /** The database's answer to "which actors of this type are ready", in some order. */
  type Query = (map<ActorKey, Actor>, ActorType) -> seq<Address>

  /** The query returns every ready actor of a type once. */
  ghost predicate Faithful(c: Context, query: Query) {
    forall actors, t {:trigger query(actors, t)} :: t != Unspecified ==>
      && (forall a :: a in query(actors, t) <==> Ready(c, actors, ActorKey(t, a)))
      && Distinct(query(actors, t))
  }

  function KeysOf(t: ActorType, addresses: seq<Address>): (r: seq<ActorKey>)
    ensures |r| == |addresses| && forall i :: 0 <= i < |r| ==> r[i] == ActorKey(t, addresses[i])
  {
    seq(|addresses|, i requires 0 <= i < |addresses| => ActorKey(t, addresses[i]))
  }

  /** All rows, type by type in the order of the map iteration. */
  function Rows(query: Query, actors: map<ActorKey, Actor>, order: seq<ActorType>): seq<ActorKey>
    decreases |order|
  {
    if order == [] then [] else KeysOf(order[0], query(actors, order[0])) + Rows(query, actors, order[1..])
  }

  function Unbond(s: State, ks: seq<ActorKey>): State
    requires forall k :: k in ks ==> k in s.actors
  {
    s.(balances := MoveAll(s.balances, PayOuts(s, ks)))
  }

  function PauseLimit(c: Context, s: State, t: ActorType): int
    requires GetIntParam(s, MaxPauseBlocks(t)).Some?
  {
    var h := c.height - GetIntParam(s, MaxPauseBlocks(t)).value;
    if h < 0 then 0 else h
  }

  predicate HasPauseParams(s: State, t: ActorType) {
    t != Unspecified && GetIntParam(s, MaxPauseBlocks(t)).Some? && GetIntParam(s, UnstakingBlocks(t)).Some?
  }

  /** Actors of one type that were paused before the limit start unstaking. */
  function BeginUnstaking(c: Context, s: State, t: ActorType): State
    requires HasPauseParams(s, t)
  {
    var limit, unbonding := PauseLimit(c, s, t), c.height + GetIntParam(s, UnstakingBlocks(t)).value;
    s.(actors := map k | k in s.actors :: if k.actorType == t && 0 <= s.actors[k].pausedHeight < limit
      then s.actors[k].(unstakingHeight := unbonding) else s.actors[k])
  }

  /** The loop over the actor types, in whatever order they come. */
  function BeginUnstakingAll(c: Context, s: State, order: seq<ActorType>): Option<State>
    decreases |order|
  {
    if order == [] then Some(s)
    else if !HasPauseParams(s, order[0]) then None
    else BeginUnstakingAll(c, BeginUnstaking(c, s, order[0]), order[1..])
  }

  /** Each actor type once, in some order. */
  predicate AllTypes(order: seq<ActorType>) {
    |order| == 4 && App in order && Servicer in order && Fisherman in order && Validator in order
  }

  /** `ks` and `order` are what the database and the map iteration happened to give. */
  function EndBlock(c: Context, s: State, proposer: Address, ks: seq<ActorKey>, order: seq<ActorType>): Option<State>
    requires forall k :: k in ks ==> k in s.actors
  {
    var rewarded := ProposerRewards(c, s, proposer);
    if rewarded.None? then None
    else BeginUnstakingAll(c, Unbond(rewarded.value, ks), order)
  }

  // ---------------------------------------------------------------- blocks

  datatype Reaped = ReapFailed | Reaped(s: State, proposed: seq<Raw>, rejected: seq<Raw>, left: seq<Raw>)

  /** Popping the pool until it is empty or the block is full; a transaction that does not fit goes to the back. */
  function Reap(c: Context, s: State, queue: seq<Raw>, total: nat, index: nat, maxTxBytes: nat): Reaped
    decreases |queue|
  {
    if queue == [] then Reaped(s, [], [], [])
    else
      var raw, rest := queue[0], queue[1..];
      if c.decode(raw).None? then ReapFailed
      else if total + |raw| >= maxTxBytes then Reaped(s, [], [], rest + [raw])
      else
        var o := HandleTransaction(c, s, c.decode(raw).value, index);
        if o.Rejected? then
          var r := Reap(c, s, rest, total, index, maxTxBytes);
          if r.ReapFailed? then r else r.(rejected := [raw] + r.rejected)
        else
          var r := Reap(c, IndexTx(o.s, o.idx), rest, total + |raw|, index + 1, maxTxBytes);
          if r.ReapFailed? then r else r.(proposed := [raw] + r.proposed)
  }

  /** Replaying a proposal: any transaction that does not decode, validate or apply refuses the block. */
  function Replay(c: Context, s: State, txs: seq<Raw>, index: nat): Option<State>
    decreases |txs|
  {
    if txs == [] then Some(s)
    else if c.decode(txs[0]).None? || !c.decode(txs[0]).value.valid then None
    else
      var o := HandleTransaction(c, s, c.decode(txs[0]).value, index);
      if o.Rejected? then None else Replay(c, IndexTx(o.s, o.idx), txs[1..], index + 1)
  }

  /** What the environment decides for one node: query results and two map iteration orders. */
  datatype Env = Env(query: Query, unbondOrder: seq<ActorType>, pauseOrder: seq<ActorType>)

  ghost predicate GoodEnv(c: Context, e: Env) {
    Faithful(c, e.query) && AllTypes(e.unbondOrder) && AllTypes(e.pauseOrder)
  }

  /** The rewards leave the actors alone, so the rows are those of the state before them. */
  function FinishBlock(c: Context, e: Env, s: State, proposer: Address): Option<State> {
    var rows := Rows(e.query, s.actors, e.unbondOrder);
    if forall k :: k in rows ==> k in s.actors then EndBlock(c, s, proposer, rows, e.pauseOrder) else None
  }

  datatype Block = Block(s: State, txs: seq<Raw>, left: seq<Raw>)

  /** CreateProposalBlock. */
  function CreateBlock(c: Context, e: Env, s: State, queue: seq<Raw>, maxTxBytes: nat, proposer: Address): Option<Block> {
    var r := Reap(c, s, queue, 0, 0, maxTxBytes);
    if r.ReapFailed? then None
    else
      var end := FinishBlock(c, e, r.s, proposer);
      if end.None? then None else Some(Block(end.value, r.proposed, r.left))
  }

  /** ApplyBlock. */
  function ApplyProposal(c: Context, e: Env, s: State, txs: seq<Raw>, proposer: Address, proposalHash: string): Option<State> {
    var r := Replay(c, s, txs, 0);
    if r.None? then None
    else
      var end := FinishBlock(c, e, r.value, proposer);
      if end.None? || (proposalHash != IGNORE_HASH && proposalHash != c.stateHash(end.value)) then None else end
  }
}
