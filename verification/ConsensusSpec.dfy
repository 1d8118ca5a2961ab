/**
 The transitions of one consensus module as functions from state to state: pacemaker,
 leader handlers and replica handlers.
 */
module ConsensusSpec {
  import opened Common
  import opened ConsensusTypes
  import opened LeaderElection

  // ---------------------------------------------------------------- message pool

  function Pool(s: State, step: int): seq<Msg> {
    if step in s.pool then s.pool[step] else []
  }

  function SetPool(s: State, step: int, msgs: seq<Msg>): State {
    s.(pool := s.pool[step := msgs])
  }

  function Push(s: State, step: int, msg: Msg, overflows: bool): State {
    var q := Pool(s, step) + [msg];
    SetPool(s, step, if overflows then q[1..] else q)
  }

  // ---------------------------------------------------------------- sending

  function Panic(s: State): State {
    s.(panicked := true)
  }

  function Broadcast(s: State, msg: Msg): State {
    s.(sent := s.sent + [msg])
  }

  function VoteMsg(c: Config, s: State, step: int, block: Block): Msg {
    var payload := Payload(s.height, step, s.round, Some(block));
    Msg(VOTE, s.height, step, s.round, Some(block), Partial(PartialSig(Signed(c.self, payload), c.self)))
  }

  function ProposeMsg(s: State, step: int, block: Block, qc: Option<QC>): Msg {
    Msg(PROPOSE, s.height, step, s.round, Some(block), if qc.Some? then Certificate(qc.value) else NoJustification)
  }

  /** Sign a vote for the current block and send it to the leader; no block or no leader means no vote. */
  function CastVote(c: Config, s: State, step: int): State {
    if s.block.None? || s.leaderId.None? then s else Broadcast(s, VoteMsg(c, s, step, s.block.value))
  }

  // ---------------------------------------------------------------- pacemaker

  predicate IsLeader(c: Config, s: State) {
    s.leaderId == Some(c.nodeId)
  }

  function ResetRound(s: State, isNewHeight: bool): State {
    var t := s.(leaderId := None, pool := map[], step := 0);
    if isNewHeight then t.(round := 0, block := None, prepareQC := None, lockedQC := None) else t
  }

  function StartNextView(s: State, qc: Option<QC>): State {
    var t := ResetRound(s, false).(uow := None, step := NEWROUND);
    Broadcast(t, Msg(PROPOSE, t.height, NEWROUND, t.round, None, if qc.Some? then Certificate(qc.value) else NoJustification))
  }

  function NextRound(round: uint64): uint64 {
    if round == MAX_UINT64 then 0 else round + 1
  }

  function InterruptRound(s: State): State {
    StartNextView(s.(round := NextRound(s.round)), s.prepareQC)
  }

  function NewHeight(s: State): State {
    StartNextView(ResetRound(s, true).(height := s.height + 1), None)
  }

  /** The outcome of an operation that can stop the handler (`Halted`), kill the process or let it go on. */
  datatype Flow = Continue(s: State) | Halted(s: State)

  function ElectNextLeader(c: Config, s: State, msg: Msg): Flow {
    var n := |c.validators(msg.height)|;
    var t := s.(leaderId := None);
    if n == 0 then Halted(Panic(t)) else
    var id := ElectedId(msg.height, msg.round, msg.step, n);
    if id == 0 then Continue(t)
    else if 1 <= id <= |c.validators(s.height)| then Continue(t.(leaderId := Some(id)))
    else Halted(t)
  }

  function ShouldHandleMessage(c: Config, s: State, msg: Msg): Flow {
    if msg.height != s.height then Halted(s)
    else if IsLeader(c, s) && msg.kind == PROPOSE && msg.step != NEWROUND then Halted(s)
    else if msg.round < s.round || (msg.round == s.round && msg.step < s.step) then Halted(s)
    else if msg.round == s.round && msg.step == s.step then Continue(s)
    else
      var t := s.(step := msg.step % 256, round := msg.round);
      if s.round != msg.round || s.leaderId.None? then ElectNextLeader(c, t, msg) else Continue(t)
  }

  // ---------------------------------------------------------------- shared checks

  predicate ThresholdMet(num: int, n: int) {
    3 * num > 2 * n
  }

  predicate ValidMessageBlock(c: Config, s: State, msg: Msg) {
    if msg.block.None? then msg.step == NEWROUND
    else
      && msg.step != NEWROUND
      && c.blocksFit
      && (s.block.Some? ==> s.block.value.stateHash == msg.block.value.stateHash)
  }

  predicate ValidSig(vals: seq<Address>, payload: Payload, sig: PartialSig) {
    sig.address in vals && sig.signature == Signed(sig.address, payload)
  }

  function CountValid(vals: seq<Address>, payload: Payload, sigs: seq<PartialSig>): nat {
    if sigs == [] then 0
    else CountValid(vals, payload, sigs[..|sigs| - 1]) + (if ValidSig(vals, payload, sigs[|sigs| - 1]) then 1 else 0)
  }

  function QCPayload(qc: QC): Payload {
    Payload(qc.height, qc.step, qc.round, qc.block)
  }

  predicate ValidQC(vals: seq<Address>, qc: QC) {
    qc.block.Some? && qc.sigs != [] && ThresholdMet(CountValid(vals, QCPayload(qc), qc.sigs), |vals|)
  }

  predicate ValidCert(c: Config, s: State, cert: Option<QC>) {
    cert.Some? && ValidQC(c.validators(s.height), cert.value)
  }

  function RefreshUow(c: Config, s: State): State {
    s.(uow := Some(Uow(s.height, IsLeader(c, s), None)))
  }

  datatype Applied = AppliedOk(s: State) | AppliedError(s: State) | AppliedFatal(s: State)

  function ApplyBlock(s: State, block: Block, env: Env): Applied {
    if s.uow.None? then AppliedError(s)
    else if block.stateHash == "" || block.proposer.None? || env.applied.None? then AppliedError(s)
    else if env.applied.value == block.stateHash then AppliedOk(s.(uow := Some(s.uow.value.(computed := env.applied))))
    else if block.stateHash == IGNORE_HASH then AppliedError(s.(uow := Some(s.uow.value.(computed := env.applied))))
    else AppliedFatal(s)
  }

  /** Record the certificate in the block, commit the unit of work and move to the next height. */
  function CommitBlock(s: State, qc: QC): State {
    if s.block.None? then Panic(s) else
    var block := s.block.value.(cert := Some(qc));
    var t := s.(block := Some(block));
    if t.uow.None? then InterruptRound(t)
    else NewHeight(t.(uow := None, commits := t.commits + [Commit(t.uow.value.height, t.round, block, t.uow.value.computed)]))
  }

  // ---------------------------------------------------------------- replica

  function ReplicaNewRound(c: Config, s: State, msg: Msg): State {
    if !ValidMessageBlock(c, s, msg) then s else RefreshUow(c, s).(step := PREPARE)
  }

  datatype Verdict = Accepted | Rejected | NilDereference

  function ValidateProposal(c: Config, s: State, msg: Msg): Verdict {
    if !(msg.kind == PROPOSE && msg.step == PREPARE) then Rejected
    else if msg.Cert().Some? && !ValidCert(c, s, msg.Cert()) then Rejected
    else if s.lockedQC.None? then Accepted
    else if msg.Cert().None? then NilDereference
    else if s.lockedQC.value.block == msg.Cert().value.block then Accepted
    else Rejected
  }

  function ReplicaPrepare(c: Config, s: State, msg: Msg, env: Env): State {
    if !ValidMessageBlock(c, s, msg) || msg.block.None? then s else
    match ValidateProposal(c, s, msg)
    case Rejected => InterruptRound(s)
    case NilDereference => Panic(s)
    case Accepted =>
      match ApplyBlock(s, msg.block.value, env)
      case AppliedError(t) => InterruptRound(t)
      case AppliedFatal(t) => Panic(t)
      case AppliedOk(t) => CastVote(c, t.(block := msg.block, step := PRECOMMIT), PREPARE)
  }

  function ReplicaPrecommit(c: Config, s: State, msg: Msg): State {
    if !ValidMessageBlock(c, s, msg) then s
    else if !ValidCert(c, s, msg.Cert()) then InterruptRound(s)
    else CastVote(c, s.(step := COMMIT, prepareQC := msg.Cert()), PRECOMMIT)
  }

  function ReplicaCommit(c: Config, s: State, msg: Msg): State {
    if !ValidMessageBlock(c, s, msg) then s
    else if !ValidCert(c, s, msg.Cert()) then InterruptRound(s)
    else CastVote(c, s.(step := DECIDE, lockedQC := msg.Cert()), COMMIT)
  }

  function ReplicaDecide(c: Config, s: State, msg: Msg): State {
    if !ValidMessageBlock(c, s, msg) then s
    else if !ValidCert(c, s, msg.Cert()) then InterruptRound(s)
    else CommitBlock(s, msg.Cert().value)
  }

  // ---------------------------------------------------------------- leader

  predicate ValidMessageSignature(c: Config, s: State, msg: Msg) {
    msg.step == NEWROUND || msg.kind == PROPOSE
    || (msg.PartialSignature().Some?
        && var sig := msg.PartialSignature().value;
        sig.address != "" && ValidSig(c.validators(s.height), msg.Signable(), sig))
  }

  /** Checks a message and stores it in the pool of its step. */
  function LeaderAnte(c: Config, s: State, msg: Msg, env: Env): Flow {
    if !ValidMessageBlock(c, s, msg) || !ValidMessageSignature(c, s, msg) then Halted(s)
    else if !(NEWROUND <= msg.kind <= DECIDE) then Halted(Panic(s))
    else if env.poolFull then Halted(s)
    else Continue(Push(s, msg.step, msg, env.poolOverflows))
  }

  predicate EnoughMessages(c: Config, s: State, step: int) {
    ThresholdMet(|Pool(s, step)|, |c.validators(s.height)|)
  }

  predicate Matching(s: State, step: int, msg: Msg) {
    && msg.PartialSignature().Some?
    && msg.height == s.height && msg.step == step && msg.round == s.round
    && msg.PartialSignature().value.signature != NoSignature
    && msg.PartialSignature().value.address != ""
  }

  function Signatures(s: State, step: int, msgs: seq<Msg>): seq<PartialSig> {
    if msgs == [] then [] else
    var last := msgs[|msgs| - 1];
    Signatures(s, step, msgs[..|msgs| - 1]) + (if Matching(s, step, last) then [last.PartialSignature().value] else [])
  }

  function QuorumCertificate(c: Config, s: State, step: int): Option<QC> {
    var sigs := Signatures(s, step, Pool(s, step));
    if ThresholdMet(|sigs|, |c.validators(s.height)|) then Some(QC(s.height, s.round, step, s.block, sigs)) else None
  }

  function HighQC(msgs: seq<Msg>): Option<QC> {
    if msgs == [] then None
    else
      var qc := HighQC(msgs[..|msgs| - 1]);
      var next := msgs[|msgs| - 1].Cert();
      if next.Some? && (qc.None? || next.value.height > qc.value.height) then next else qc
  }

  predicate ShouldPrepareNewBlock(s: State, high: Option<QC>) {
    high.None? || high.value.height < s.height || high.value.round < s.round || high.value.block.None?
  }

  /** A new block reaped from the mempool, or the block of the certificate found in the NewRound messages. */
  function LeaderBlock(c: Config, s: State, high: Option<QC>, env: Env): Applied {
    if ShouldPrepareNewBlock(s, high) then
      if env.proposal.None? || s.uow.None? || !s.uow.value.forLeader then AppliedError(s)
      else
        var (hash, txs) := env.proposal.value;
        AppliedOk(s.(uow := Some(s.uow.value.(computed := Some(hash))), block := Some(Block(s.height, hash, Some(c.self), txs, high))))
    else
      match ApplyBlock(s, high.value.block.value, env)
      case AppliedOk(t) => AppliedOk(t.(block := high.value.block))
      case AppliedError(t) => AppliedError(t)
      case AppliedFatal(t) => AppliedFatal(t)
  }

  /** Broadcast the proposal of a step and cast the leader's own vote; a missing block ends the round. */
  function Propose(c: Config, s: State, step: int, qc: Option<QC>, votes: bool): State {
    if s.block.None? then InterruptRound(s) else
    var t := Broadcast(s, ProposeMsg(s, step, s.block.value, qc));
    if votes then CastVote(c, t, step) else t
  }

  /** Open a unit of work, settle on a block and propose it. */
  function OpenRound(c: Config, s: State, high: Option<QC>, env: Env): State {
    match LeaderBlock(c, RefreshUow(c, s), high, env)
    case AppliedError(t) => InterruptRound(t)
    case AppliedFatal(t) => Panic(t)
    case AppliedOk(t) => Propose(c, SetPool(t.(step := PREPARE), NEWROUND, []), PREPARE, high, true)
  }

  function LeaderNewRound(c: Config, s: State, msg: Msg, env: Env): State {
    match LeaderAnte(c, s, msg, env)
    case Halted(t) => t
    case Continue(t) =>
      if !EnoughMessages(c, t, NEWROUND) then t else OpenRound(c, t, HighQC(Pool(t, NEWROUND)), env)
  }

  function LeaderPrepare(c: Config, s: State, msg: Msg, env: Env): State {
    match LeaderAnte(c, s, msg, env)
    case Halted(t) => t
    case Continue(t) =>
      if !EnoughMessages(c, t, PREPARE) then t else
      var qc := QuorumCertificate(c, t, PREPARE);
      var u := SetPool(t, PREPARE, []);
      if qc.None? then u else Propose(c, u.(step := PRECOMMIT, prepareQC := qc), PRECOMMIT, qc, true)
  }

  function LeaderPrecommit(c: Config, s: State, msg: Msg, env: Env): State {
    match LeaderAnte(c, s, msg, env)
    case Halted(t) => t
    case Continue(t) =>
      if !EnoughMessages(c, t, PRECOMMIT) then t else
      var qc := QuorumCertificate(c, t, PRECOMMIT);
      var u := SetPool(t, PRECOMMIT, []);
      if qc.None? then u else Propose(c, u.(step := COMMIT, lockedQC := qc), COMMIT, qc, true)
  }

  function LeaderCommit(c: Config, s: State, msg: Msg, env: Env): State {
    match LeaderAnte(c, s, msg, env)
    case Halted(t) => t
    case Continue(t) =>
      if !EnoughMessages(c, t, COMMIT) then t else
      var qc := QuorumCertificate(c, t, COMMIT);
      var u := SetPool(t, COMMIT, []);
      if qc.None? then u
      else if u.block.None? then InterruptRound(u.(step := DECIDE))
      else CommitBlock(Propose(c, u.(step := DECIDE), DECIDE, qc, false), qc.value)
  }

  function LeaderDecide(c: Config, s: State, msg: Msg, env: Env): State {
    LeaderAnte(c, s, msg, env).s
  }

  // ---------------------------------------------------------------- dispatch

  function Dispatch(c: Config, s: State, msg: Msg, env: Env): State {
    if IsLeader(c, s) then
      if msg.step == NEWROUND then LeaderNewRound(c, s, msg, env)
      else if msg.step == PREPARE then LeaderPrepare(c, s, msg, env)
      else if msg.step == PRECOMMIT then LeaderPrecommit(c, s, msg, env)
      else if msg.step == COMMIT then LeaderCommit(c, s, msg, env)
      else if msg.step == DECIDE then LeaderDecide(c, s, msg, env)
      else Panic(s)
    else
      if msg.step == NEWROUND then ReplicaNewRound(c, s, msg)
      else if msg.step == PREPARE then ReplicaPrepare(c, s, msg, env)
      else if msg.step == PRECOMMIT then ReplicaPrecommit(c, s, msg)
      else if msg.step == COMMIT then ReplicaCommit(c, s, msg)
      else if msg.step == DECIDE then ReplicaDecide(c, s, msg)
      else Panic(s)
  }

  /** Elect a leader when the node is in NewRound without one. */
  function EnsureLeader(c: Config, s: State, msg: Msg): Flow {
    if s.step == NEWROUND && s.leaderId.None? then ElectNextLeader(c, s, msg) else Continue(s)
  }

  function HandleMessage(c: Config, s: State, msg: Msg, env: Env): State {
    match ShouldHandleMessage(c, s, msg)
    case Halted(t) => t
    case Continue(t) =>
      match EnsureLeader(c, t, msg)
      case Halted(u) => u
      case Continue(u) => Dispatch(c, u, msg, env)
  }

  function Step(c: Config, s: State, ev: Event): State {
    if s.panicked then s
    else match ev
      case Deliver(msg, env) => HandleMessage(c, s, msg, env)
      case Timeout => InterruptRound(s)
  }

  /** A node that has just started at `height`. */
  function Init(height: nat): State {
    State(height, 0, NEWROUND, None, None, None, None, None, map[], false, [], [])
  }

  /** The state after a sequence of deliveries and timeouts, in any order and with any content. */
  function Run(c: Config, height: nat, evs: seq<Event>): State {
    if evs == [] then Init(height)
    else Step(c, Run(c, height, evs[..|evs| - 1]), evs[|evs| - 1])
  }
}
