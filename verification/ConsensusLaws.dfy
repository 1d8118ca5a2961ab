/** What a node puts on the network in a step and whom it follows, read off the states before and after. */
module ConsensusLaws {
  import opened Common
  import opened ConsensusTypes
  import opened ConsensusSpec
  import opened ConsensusRuns
  import opened ConsensusCerts
  import opened LeaderElection

  // ---------------------------------------------------------------- the end of a round

  ghost predicate SaysNoNewRound(before: seq<Msg>, t: State) {
    before <= t.sent && forall i :: |before| <= i < |t.sent| ==> t.sent[i].step != NEWROUND
  }

  /** The last message, and no other, announces the view that the node has come to, justified by a certificate. */
  ghost predicate Announces(before: seq<Msg>, t: State, cert: Option<QC>) {
    && before <= t.sent && |t.sent| > |before|
    && (forall i :: |before| <= i < |t.sent| - 1 ==> t.sent[i].step != NEWROUND)
    && t.sent[|t.sent| - 1] ==
       Msg(PROPOSE, t.height, NEWROUND, t.round, None, if cert.Some? then Certificate(cert.value) else NoJustification)
  }

  /** The step ends its round without a commit: a timeout, or a message that makes the handler interrupt the round. */
  predicate Interrupted(c: Config, s: State, ev: Event) {
    && !s.panicked
    && match ev
       case Timeout => true
       case Deliver(msg, env) => Handling(c, s, msg).Continue? && Interrupts(c, Handling(c, s, msg).s, msg, env)
  }

  /** At the start of a view: no leader, no unit of work, no pooled message. */
  predicate Fresh(t: State) {
    t.step == NEWROUND && t.leaderId.None? && t.uow.None? && t.pool == map[]
  }

  /** What a step leads to that ends round `r`, and whether it does. */
  ghost predicate RoundEnd(s: State, t: State, r: uint64, interrupted: bool) {
    if t.commits != s.commits then
      && Fresh(t) && t.height == s.height + 1 && t.round == 0 && t.block.None? && t.prepareQC.None? && t.lockedQC.None?
      && Announces(s.sent, t, None)
    else if interrupted then
      && Fresh(t) && t.height == s.height && t.round == (if r == MAX_UINT64 then 0 else r + 1)
      && Announces(s.sent, t, t.prepareQC)
    else SaysNoNewRound(s.sent, t)
  }

  /** The round in which an event is handled. */
  function RoundOf(s: State, ev: Event): uint64 {
    if ev.Deliver? then ev.msg.round else s.round
  }

  predicate Reopened(s: State, t: State) {
    && Fresh(t) && t.height == s.height && t.round == (if s.round == MAX_UINT64 then 0 else s.round + 1)
    && t.commits == s.commits && t.prepareQC == s.prepareQC && |t.sent| == |s.sent| + 1
  }

  lemma EndingFacts()
    ensures forall s: State {:trigger InterruptRound(s)} :: var t := InterruptRound(s); Reopened(s, t) && Announces(s.sent, t, s.prepareQC)
    ensures forall s, qc {:trigger CommitBlock(s, qc)} :: var t := CommitBlock(s, qc);
      if s.block.None? then t == Panic(s)
      else if s.uow.None? then Reopened(s, t) && Announces(s.sent, t, s.prepareQC)
      else
        && Fresh(t) && t.height == s.height + 1 && t.round == 0 && t.block.None? && t.prepareQC.None? && t.lockedQC.None?
        && |t.commits| == |s.commits| + 1 && Announces(s.sent, t, None) && |t.sent| == |s.sent| + 1
    ensures forall c, s: State, step {:trigger CastVote(c, s, step)} :: step != NEWROUND ==>
      SaysNoNewRound(s.sent, CastVote(c, s, step)) && CastVote(c, s, step).commits == s.commits
  {
  }

  lemma ProposeEnds(c: Config, s: State, step: int, qc: Option<QC>, votes: bool)
    requires step != NEWROUND
    ensures var t := Propose(c, s, step, qc, votes);
      && t.commits == s.commits && t.height == s.height && t.prepareQC == s.prepareQC
      && if s.block.None? then Reopened(s, t) && Announces(s.sent, t, s.prepareQC)
         else SaysNoNewRound(s.sent, t) && t.block == s.block && t.uow == s.uow && t.round == s.round
  {
  }

  lemma ReplicaPrepareEnds(c: Config, s: State, msg: Msg, env: Env)
    requires msg.step == PREPARE
    ensures var t := ReplicaPrepare(c, s, msg, env);
      RoundEnd(s, t, s.round, ReplicaInterrupts(c, s, msg, env)) && (ReplicaInterrupts(c, s, msg, env) ==> t.prepareQC == s.prepareQC)
  {
    hide InterruptRound, CommitBlock, CastVote, ValidQC, Announces;
    EndingFacts();
  }

  lemma ReplicaEnds(c: Config, s: State, msg: Msg, env: Env)
    requires !IsLeader(c, s)
    ensures RoundEnd(s, Dispatch(c, s, msg, env), s.round, ReplicaInterrupts(c, s, msg, env))
    ensures ReplicaInterrupts(c, s, msg, env) ==> Dispatch(c, s, msg, env).prepareQC == s.prepareQC
  {
    hide InterruptRound, CommitBlock, CastVote, ValidQC, Announces, ReplicaPrepare;
    EndingFacts();
    if msg.step == PREPARE {
      ReplicaPrepareEnds(c, s, msg, env);
    }
  }

  lemma LeaderNewRoundEnds(c: Config, s: State, msg: Msg, env: Env)
    requires IsLeader(c, s) && msg.step == NEWROUND
    ensures var t := LeaderNewRound(c, s, msg, env); RoundEnd(s, t, s.round, LeaderInterrupts(c, s, msg, env)) && t.prepareQC == s.prepareQC
  {
    hide InterruptRound, Propose, HighQC, ValidMessageSignature, Announces;
    EndingFacts();
    AnteKeepsView(c, s, msg, env);
    var ante := LeaderAnte(c, s, msg, env);
    if ante.Continue? && EnoughMessages(c, ante.s, NEWROUND) {
      var t, high := RefreshUow(c, ante.s), HighQC(Pool(ante.s, NEWROUND));
      var made := LeaderBlock(c, t, high, env);
      assert made.s == t.(block := made.s.block, uow := made.s.uow);
      if made.AppliedOk? {
        ProposeEnds(c, SetPool(made.s.(step := PREPARE), NEWROUND, []), PREPARE, high, true);
      }
    }
  }

  lemma LeaderCommitEnds(c: Config, s: State, msg: Msg, env: Env)
    requires IsLeader(c, s) && msg.step == COMMIT
    ensures var t := LeaderCommit(c, s, msg, env); RoundEnd(s, t, s.round, LeaderInterrupts(c, s, msg, env))
    ensures LeaderInterrupts(c, s, msg, env) ==> LeaderCommit(c, s, msg, env).prepareQC == s.prepareQC
  {
    AnteKeepsView(c, s, msg, env);
    hide InterruptRound, CommitBlock, Propose, QuorumCertificate, EnoughMessages, LeaderAnte;
    EndingFacts();
    var ante := LeaderAnte(c, s, msg, env);
    if ante.Continue? {
      var qc := QuorumCertificate(c, ante.s, COMMIT);
      var u := SetPool(ante.s, COMMIT, []).(step := DECIDE);
      if qc.Some? && ante.s.block.Some? {
        ProposeEnds(c, u, DECIDE, qc, false);
        var v := Propose(c, u, DECIDE, qc, false);
        AfterQuiet(s, v, CommitBlock(v, qc.value));
      }
    }
  }

  lemma AfterQuiet(s: State, v: State, t: State)
    requires SaysNoNewRound(s.sent, v) && v.sent <= t.sent
    ensures |t.sent| == |v.sent| + 1 ==> forall cert {:trigger Announces(s.sent, t, cert)} :: Announces(v.sent, t, cert) ==> Announces(s.sent, t, cert)
  {
    assert forall i :: 0 <= i < |v.sent| ==> t.sent[i] == v.sent[i];
  }

  lemma LeaderEnds(c: Config, s: State, msg: Msg, env: Env)
    requires IsLeader(c, s)
    ensures RoundEnd(s, Dispatch(c, s, msg, env), s.round, LeaderInterrupts(c, s, msg, env))
    ensures LeaderInterrupts(c, s, msg, env) && !(msg.step == PREPARE && s.block.None?) ==> Dispatch(c, s, msg, env).prepareQC == s.prepareQC
  {
    AnteKeepsView(c, s, msg, env);
    hide LeaderNewRound, LeaderCommit, Propose, QuorumCertificate, EnoughMessages, LeaderAnte, Announces;
    if msg.step == NEWROUND {
      LeaderNewRoundEnds(c, s, msg, env);
    } else if msg.step == COMMIT {
      LeaderCommitEnds(c, s, msg, env);
    } else if PREPARE <= msg.step <= PRECOMMIT {
      var ante := LeaderAnte(c, s, msg, env);
      var qc := QuorumCertificate(c, ante.s, msg.step);
      var u := SetPool(ante.s, msg.step, []);
      ProposeEnds(c, u.(step := PRECOMMIT, prepareQC := qc), PRECOMMIT, qc, true);
      ProposeEnds(c, u.(step := COMMIT, lockedQC := qc), COMMIT, qc, true);
    }
  }

  /** The leader has collected Prepare votes without a block: the one interrupt after a new prepare certificate. */
  predicate LostItsBlock(c: Config, s: State, ev: Event) {
    && ev.Deliver? && ev.msg.step == PREPARE
    && var f := Handling(c, s, ev.msg).s; IsLeader(c, f) && f.block.None?
  }

  /**
   A step that ends a round within a height opens the next one afresh and sends, last, one NewRound message of the
   view it comes to, with the prepare certificate of the node; one that commits opens round 0 of the next height,
   holding nothing, with a NewRound message that has none; any other step sends no NewRound message.
   */
  lemma RoundEndIsAnnounced(c: Config, s: State, ev: Event)
    ensures RoundEnd(s, Step(c, s, ev), RoundOf(s, ev), Interrupted(c, s, ev))
    ensures Interrupted(c, s, ev) && Step(c, s, ev).commits == s.commits && !LostItsBlock(c, s, ev) ==> Step(c, s, ev).prepareQC == s.prepareQC
  {
    hide Dispatch, Handling, InterruptRound, LeaderInterrupts, ReplicaInterrupts;
    EndingFacts();
    if !s.panicked && ev.Deliver? {
      StepIsDispatch(c, s, ev.msg, ev.env);
      HandlingSilent(c, s, ev.msg);
      var f := Handling(c, s, ev.msg);
      if f.Continue? {
        if IsLeader(c, f.s) {
          LeaderEnds(c, f.s, ev.msg, ev.env);
        } else {
          ReplicaEnds(c, f.s, ev.msg, ev.env);
        }
      }
    }
  }

  lemma HandlingSilent(c: Config, s: State, msg: Msg)
    ensures var t := Handling(c, s, msg).s;
      && t == s.(step := t.step, round := t.round, leaderId := t.leaderId, panicked := t.panicked)
      && (Handling(c, s, msg).Continue? ==> t.round == msg.round)
  {
  }

  /** In every run a height is opened without a certificate, a round within it with the prepare certificate held before. */
  lemma RunAnnouncesRounds(c: Config, h0: nat, evs: seq<Event>, k: nat)
    requires k < |evs|
    ensures var s, t, ev := Run(c, h0, evs[..k]), Run(c, h0, evs[..k + 1]), evs[k];
      if t.height > s.height then t.height == s.height + 1 && t.round == 0 && Fresh(t) && Announces(s.sent, t, None)
      else if Interrupted(c, s, ev) then
        t.height == s.height && Fresh(t) && Announces(s.sent, t, if LostItsBlock(c, s, ev) then t.prepareQC else s.prepareQC)
      else SaysNoNewRound(s.sent, t)
  {
    var s := Run(c, h0, evs[..k]);
    assert evs[..k + 1][..k] == evs[..k];
    var t := Run(c, h0, evs[..k + 1]);
    assert t == Step(c, s, evs[k]);
    hide Step, Interrupted, LostItsBlock, Announces, SaysNoNewRound;
    CommitsAreConsecutive(c, h0, evs[..k]);
    CommitsAreConsecutive(c, h0, evs[..k + 1]);
    RoundEndIsAnnounced(c, s, evs[k]);
    StepExtends(c, s, evs[k]);
  }

  // ---------------------------------------------------------------- votes and proposals

  /** A vote for the node's block in its view, under its own signature; a replica has moved on to the next step. */
  predicate ProperVote(c: Config, t: State, m: Msg) {
    && m.kind == VOTE && m.height == t.height && m.round == t.round && m.block == t.block && m.block.Some?
    && PREPARE <= m.step <= COMMIT && m.step == (if IsLeader(c, t) then t.step else t.step - 1)
    && m.justification == Partial(PartialSig(Signed(c.self, Payload(m.height, m.step, m.round, m.block)), c.self))
  }

  /** A proposal of the leader's block in its view, with the certificate that the step before has led to. */
  predicate ProperProposal(c: Config, t: State, m: Msg) {
    && m.kind == PROPOSE && m.height == t.height && m.round == t.round && m.step == t.step && m.block == t.block && m.block.Some?
    && IsLeader(c, t) && PREPARE <= m.step <= COMMIT
    && (m.step == PRECOMMIT ==> m.Cert() == t.prepareQC) && (m.step == COMMIT ==> m.Cert() == t.lockedQC)
  }

  /** The Decide message of a leader: its block with the certificate that it commits under, if it can commit. */
  predicate ProperDecision(s: State, t: State, m: Msg) {
    && m.kind == PROPOSE && m.step == DECIDE && m.height == s.height && m.block == s.block && m.block.Some? && m.Cert().Some?
    && (t.commits != s.commits ==> |t.commits| == |s.commits| + 1 && t.commits[|s.commits|].round == m.round
                                   && t.commits[|s.commits|].block == m.block.value.(cert := m.Cert()))
  }

  /** Everything new that is said is a proper vote, a proper proposal or decision, or the announcement of a view. */
  ghost predicate Spoken(c: Config, s: State, t: State) {
    && s.sent <= t.sent
    && forall i :: |s.sent| <= i < |t.sent| ==>
         || ProperVote(c, t, t.sent[i]) || ProperProposal(c, t, t.sent[i])
         || ProperDecision(s, t, t.sent[i]) || (t.sent[i].kind == PROPOSE && t.sent[i].step == NEWROUND)
  }

  predicate OneAnnouncement(before: seq<Msg>, after: seq<Msg>) {
    && before <= after && |after| == |before| + 1
    && after[|before|].kind == PROPOSE && after[|before|].step == NEWROUND
  }

  lemma QuietEndings()
    ensures forall s: State {:trigger InterruptRound(s)} :: OneAnnouncement(s.sent, InterruptRound(s).sent)
    ensures forall s, qc {:trigger CommitBlock(s, qc)} ::
      var t := CommitBlock(s, qc); if s.block.Some? then OneAnnouncement(s.sent, t.sent) else t.sent == s.sent
  {
  }

  lemma CastSpeaks(c: Config, s: State, step: int)
    requires PREPARE <= step <= COMMIT && step == (if IsLeader(c, s) then s.step else s.step - 1)
    ensures var t := CastVote(c, s, step);
      Spoken(c, s, t) && forall i :: |s.sent| <= i < |t.sent| ==> t.sent[i].step == step
  {
  }

  lemma ProposeSpeaks(c: Config, s: State, step: int, qc: Option<QC>)
    requires PREPARE <= step <= COMMIT && step == s.step && IsLeader(c, s)
    requires (step == PRECOMMIT ==> qc == s.prepareQC) && (step == COMMIT ==> qc == s.lockedQC)
    ensures var t := Propose(c, s, step, qc, true);
      Spoken(c, s, t) && forall i :: |s.sent| <= i < |t.sent| ==> t.sent[i].step != DECIDE
  {
    hide InterruptRound;
    QuietEndings();
    if s.block.Some? {
      var m := ProposeMsg(s, step, s.block.value, qc);
      var t := Propose(c, s, step, qc, true);
      assert t.sent[|s.sent|] == m && ProperProposal(c, t, m);
    }
  }

  /** Without a decision among the new messages the block held before does not matter. */
  lemma BlockTaken(c: Config, s: State, u: State, t: State)
    requires Spoken(c, u, t) && u.sent == s.sent
    requires forall i :: |s.sent| <= i < |t.sent| ==> t.sent[i].step != DECIDE
    ensures Spoken(c, s, t)
  {
  }

  lemma ReplicaSpeaks(c: Config, s: State, msg: Msg, env: Env)
    requires !IsLeader(c, s)
    ensures Spoken(c, s, Dispatch(c, s, msg, env))
  {
    hide InterruptRound, CommitBlock, CastVote, ValidQC, ProperVote, ProperProposal, ProperDecision;
    QuietEndings();
    if PREPARE <= msg.step <= COMMIT && (msg.step == PREPARE ==> msg.block.Some?) {
      var t := if msg.step == PREPARE then ApplyBlock(s, msg.block.value, env).s.(block := msg.block, step := PRECOMMIT)
               else if msg.step == PRECOMMIT then s.(step := COMMIT, prepareQC := msg.Cert())
               else s.(step := DECIDE, lockedQC := msg.Cert());
      CastSpeaks(c, t, msg.step);
      BlockTaken(c, s, t, CastVote(c, t, msg.step));
    }
  }

  lemma LeaderCommitSpeaks(c: Config, s: State, msg: Msg, env: Env)
    requires IsLeader(c, s) && msg.step == COMMIT
    ensures Spoken(c, s, LeaderCommit(c, s, msg, env))
  {
    AnteKeepsView(c, s, msg, env);
    hide InterruptRound, QuorumCertificate, EnoughMessages, LeaderAnte;
    QuietEndings();
    var ante := LeaderAnte(c, s, msg, env);
    if ante.Continue? && ante.s.block.Some? {
      var qc := QuorumCertificate(c, ante.s, COMMIT);
      if qc.Some? {
        var u := SetPool(ante.s, COMMIT, []).(step := DECIDE);
        DecisionIsProper(s, u, qc);
        var v := Propose(c, u, DECIDE, qc, false);
        assert v.sent == s.sent + [ProposeMsg(u, DECIDE, u.block.value, qc)];
      }
    }
  }

  lemma DecisionIsProper(s: State, u: State, qc: Option<QC>)
    requires u.sent == s.sent && u.height == s.height && u.commits == s.commits && u.block == s.block && s.block.Some? && qc.Some?
    ensures var m := ProposeMsg(u, DECIDE, u.block.value, qc);
      ProperDecision(s, CommitBlock(Broadcast(u, m), qc.value), m)
  {
  }

  lemma LeaderSpeaks(c: Config, s: State, msg: Msg, env: Env)
    requires IsLeader(c, s)
    ensures Spoken(c, s, Dispatch(c, s, msg, env))
  {
    AnteKeepsView(c, s, msg, env);
    hide LeaderNewRound, LeaderCommit, Propose, QuorumCertificate, EnoughMessages, LeaderAnte, ProperVote, ProperProposal, ProperDecision;
    if msg.step == NEWROUND {
      LeaderNewRoundSpeaks(c, s, msg, env);
    } else if msg.step == COMMIT {
      LeaderCommitSpeaks(c, s, msg, env);
    } else if PREPARE <= msg.step <= PRECOMMIT {
      var ante := LeaderAnte(c, s, msg, env);
      var qc := QuorumCertificate(c, ante.s, msg.step);
      var u := SetPool(ante.s, msg.step, []);
      var t := if msg.step == PREPARE then u.(step := PRECOMMIT, prepareQC := qc) else u.(step := COMMIT, lockedQC := qc);
      ProposeSpeaks(c, t, msg.step + 1, qc);
      BlockTaken(c, s, t, Propose(c, t, msg.step + 1, qc, true));
    }
  }

  lemma LeaderNewRoundSpeaks(c: Config, s: State, msg: Msg, env: Env)
    requires IsLeader(c, s) && msg.step == NEWROUND
    ensures Spoken(c, s, LeaderNewRound(c, s, msg, env))
  {
    hide InterruptRound, Propose, HighQC, ValidMessageSignature, ProperVote, ProperProposal, ProperDecision;
    QuietEndings();
    AnteKeepsView(c, s, msg, env);
    var ante := LeaderAnte(c, s, msg, env);
    if ante.Continue? && EnoughMessages(c, ante.s, NEWROUND) {
      var t, high := RefreshUow(c, ante.s), HighQC(Pool(ante.s, NEWROUND));
      var made := LeaderBlock(c, t, high, env);
      assert made.s == t.(block := made.s.block, uow := made.s.uow);
      if made.AppliedOk? {
        var u := SetPool(made.s.(step := PREPARE), NEWROUND, []);
        ProposeSpeaks(c, u, PREPARE, high);
        BlockTaken(c, s, u, Propose(c, u, PREPARE, high, true));
      }
    }
  }

  /** Everything that a node says in a step is proper, whatever the state and whatever it is told. */
  lemma StepIsSpoken(c: Config, s: State, ev: Event)
    ensures Spoken(c, s, Step(c, s, ev))
  {
    hide Dispatch, Handling, InterruptRound, ProperVote, ProperProposal;
    QuietEndings();
    if !s.panicked && ev.Deliver? {
      StepIsDispatch(c, s, ev.msg, ev.env);
      HandlingSilent(c, s, ev.msg);
      var f := Handling(c, s, ev.msg);
      if f.Continue? {
        if IsLeader(c, f.s) {
          LeaderSpeaks(c, f.s, ev.msg, ev.env);
        } else {
          ReplicaSpeaks(c, f.s, ev.msg, ev.env);
        }
      }
    }
  }

  /** In every run every vote sent is for a block, under the node's own signature over just this vote. */
  lemma {:induction false} RunSignsItsVotes(c: Config, h0: nat, evs: seq<Event>, i: nat)
    requires i < |Run(c, h0, evs).sent| && Run(c, h0, evs).sent[i].kind == VOTE
    ensures var m := Run(c, h0, evs).sent[i];
      m.block.Some? && m.justification == Partial(PartialSig(Signed(c.self, Payload(m.height, m.step, m.round, m.block)), c.self))
  {
    if evs != [] {
      var s, ev := Run(c, h0, evs[..|evs| - 1]), evs[|evs| - 1];
      hide Step;
      StepIsSpoken(c, s, ev);
      if i < |s.sent| {
        RunSignsItsVotes(c, h0, evs[..|evs| - 1], i);
      }
    }
  }

  // ---------------------------------------------------------------- which messages are handled, and under which leader

  /** Of another height or an earlier view, or a proposal of some leader that reaches the leader. */
  predicate Unwanted(c: Config, s: State, msg: Msg) {
    || msg.height != s.height || msg.round < s.round || (msg.round == s.round && msg.step < s.step)
    || (s.leaderId == Some(c.nodeId) && msg.kind == PROPOSE && msg.step != NEWROUND)
  }

  /** A message of the node's round leaves its leader in place; a missing one is elected on a new step or in NewRound. */
  predicate KeepsLeader(s: State, msg: Msg) {
    msg.round == s.round && (s.leaderId.Some? || (msg.step == s.step && msg.step != NEWROUND))
  }

  lemma UnwantedIsIgnored(c: Config, s: State, msg: Msg, env: Env)
    requires !s.panicked && Unwanted(c, s, msg)
    ensures Step(c, s, Deliver(msg, env)) == s
  {
    hide Dispatch;
  }

  /** Any other message is handled in its own view, under the leader kept or the one that its view elects. */
  lemma HandledUnderElected(c: Config, s: State, msg: Msg)
    requires !s.panicked && !Unwanted(c, s, msg)
    ensures var f, n := Handling(c, s, msg), |c.validators(s.height)|;
      && (f.Continue? <==> KeepsLeader(s, msg) || (n > 0 && ElectedId(s.height, msg.round, msg.step, n) >= 0))
      && (f.Continue? ==>
            && f.s == s.(round := msg.round, step := f.s.step, leaderId := f.s.leaderId)
            && (0 <= msg.step < 256 ==> f.s.step == msg.step)
            && f.s.leaderId == if KeepsLeader(s, msg) then s.leaderId
                               else if ElectedId(s.height, msg.round, msg.step, n) == 0 then None
                               else Some(ElectedId(s.height, msg.round, msg.step, n)))
  {
    hide ElectedId;
    if c.validators(s.height) != [] {
      ElectedAtMost(msg.height, msg.round, msg.step, |c.validators(s.height)|);
    }
  }

  // ---------------------------------------------------------------- what a replica does

  /** The block of a message fits: same state hash as the block held, if one is held. */
  predicate Fits(c: Config, s: State, msg: Msg) {
    msg.block.Some? && c.blocksFit && (s.block.Some? ==> s.block.value.stateHash == msg.block.value.stateHash)
  }

  predicate Certified(c: Config, s: State, cert: Option<QC>) {
    cert.Some? && ValidQC(c.validators(s.height), cert.value)
  }

  /** Executing the block in the node's unit of work gave the state hash that it names. */
  predicate Reproduced(s: State, block: Block, env: Env) {
    s.uow.Some? && block.stateHash != "" && block.proposer.Some? && env.applied == Some(block.stateHash)
  }

  /** Executing the block gave another state hash than a definite one that it names: the process stops. */
  predicate Diverged(block: Block, env: Env) {
    && block.stateHash != "" && block.stateHash != IGNORE_HASH && block.proposer.Some?
    && env.applied.Some? && env.applied.value != block.stateHash
  }

  /** A replica votes on a message. */
  predicate Persuaded(c: Config, s: State, msg: Msg, env: Env) {
    && Fits(c, s, msg) && s.leaderId.Some?
    && if msg.step == PREPARE then
         && msg.kind == PROPOSE && (msg.Cert().None? || Certified(c, s, msg.Cert()))
         && (s.lockedQC.None? || (msg.Cert().Some? && msg.Cert().value.block == s.lockedQC.value.block))
         && Reproduced(s, msg.block.value, env)
       else PRECOMMIT <= msg.step <= COMMIT && Certified(c, s, msg.Cert()) && s.block.Some?
  }

  predicate Votes(s: State, t: State, step: int) {
    |t.sent| == |s.sent| + 1 && s.sent <= t.sent && t.sent[|s.sent|].kind == VOTE && t.sent[|s.sent|].step == step
  }

  /**
   A replica votes on a message exactly when it is persuaded, and then takes up the block of a Prepare, the
   prepare certificate of a PreCommit or the lock of a Commit proposal and moves on to the next step.
   */
  lemma ReplicaVotesIff(c: Config, s: State, msg: Msg, env: Env)
    requires !IsLeader(c, s)
    ensures var t := Dispatch(c, s, msg, env);
      && (Votes(s, t, msg.step) <==> Persuaded(c, s, msg, env))
      && (Persuaded(c, s, msg, env) ==>
            && t.step == msg.step + 1 && t.height == s.height && t.round == s.round
            && t.block == (if msg.step == PREPARE then msg.block else s.block)
            && t.prepareQC == (if msg.step == PRECOMMIT then msg.Cert() else s.prepareQC)
            && t.lockedQC == if msg.step == COMMIT then msg.Cert() else s.lockedQC)
  {
    hide InterruptRound, CommitBlock, ValidQC;
    QuietEndings();
  }

  /**
   A live replica dies on a step that has no handler, on a Prepare proposal without a certificate while it is
   locked or with a block that executes to another state hash, and on a certified Decide message without a block.
   */
  lemma ReplicaDiesIff(c: Config, s: State, msg: Msg, env: Env)
    requires !IsLeader(c, s) && !s.panicked
    ensures Dispatch(c, s, msg, env).panicked <==>
      || !(NEWROUND <= msg.step <= DECIDE)
      || (&& msg.step == PREPARE && Fits(c, s, msg) && msg.kind == PROPOSE && (msg.Cert().None? || Certified(c, s, msg.Cert()))
          && if s.lockedQC.Some? && msg.Cert().None? then true
             else (s.lockedQC.None? || msg.Cert().value.block == s.lockedQC.value.block) && s.uow.Some? && Diverged(msg.block.value, env))
      || (msg.step == DECIDE && Fits(c, s, msg) && Certified(c, s, msg.Cert()) && s.block.None?)
  {
    hide ValidQC, InterruptRound, CommitBlock, CastVote;
    EndingRecords();
  }

  /** What the endings of a handler do to the commits, and when they kill the node. */
  lemma EndingRecords()
    ensures forall s: State {:trigger InterruptRound(s)} :: InterruptRound(s).panicked == s.panicked && InterruptRound(s).commits == s.commits
    ensures forall c, s: State, step {:trigger CastVote(c, s, step)} :: CastVote(c, s, step).panicked == s.panicked && CastVote(c, s, step).commits == s.commits
    ensures forall s: State, qc {:trigger CommitBlock(s, qc)} :: var t := CommitBlock(s, qc);
      && t.panicked == (s.panicked || s.block.None?)
      && t.commits == s.commits + if s.block.None? || s.uow.None? then [] else
           [Commit(s.uow.value.height, s.round, s.block.value.(cert := Some(qc)), s.uow.value.computed)]
  {
  }

  /** A replica commits exactly the block it holds, on a certified Decide message, with an open unit of work. */
  lemma ReplicaCommitsIff(c: Config, s: State, msg: Msg, env: Env)
    requires !IsLeader(c, s)
    ensures var t := Dispatch(c, s, msg, env);
      if msg.step == DECIDE && Fits(c, s, msg) && Certified(c, s, msg.Cert()) && s.block.Some? && s.uow.Some?
      then t.commits == s.commits + [Commit(s.uow.value.height, s.round, s.block.value.(cert := msg.Cert()), s.uow.value.computed)]
      else t.commits == s.commits
  {
    hide InterruptRound, CommitBlock, CastVote, ValidQC;
    EndingRecords();
  }

  /** A replica enters Prepare with a fresh unit of work on a NewRound message without a block. */
  lemma ReplicaOpensIff(c: Config, s: State, msg: Msg, env: Env)
    requires !IsLeader(c, s) && msg.step == NEWROUND
    ensures Dispatch(c, s, msg, env) == if msg.block.None? then s.(step := PREPARE, uow := Some(Uow(s.height, false, None))) else s
  {
  }

  // ---------------------------------------------------------------- what a leader does

  /** A NewRound message without a block, or a fitting one that is a proposal or a vote signed by a validator. */
  predicate Storable(c: Config, s: State, msg: Msg) {
    && (if msg.step == NEWROUND then msg.block.None? else Fits(c, s, msg))
    && (msg.step == NEWROUND || msg.kind == PROPOSE ||
        exists a :: msg.justification == Partial(PartialSig(Signed(a, Payload(msg.height, msg.step, msg.round, msg.block)), a))
                    && a != "" && a in c.validators(s.height))
  }

  /**
   The leader pools a storable message behind the others of its step, if there is room, and changes nothing
   else; a message type that cannot be stored kills it.
   */
  lemma LeaderStoresIff(c: Config, s: State, msg: Msg, env: Env)
    ensures var f := LeaderAnte(c, s, msg, env);
      && (f.Continue? <==> Storable(c, s, msg) && 1 <= msg.kind <= 5 && !env.poolFull)
      && f.s == s.(pool := f.s.pool, panicked := s.panicked || (Storable(c, s, msg) && !(1 <= msg.kind <= 5)))
      && forall k {:trigger Pool(f.s, k)} :: Pool(f.s, k) ==
           if f.Continue? && k == msg.step then (Pool(s, k) + [msg])[if env.poolOverflows then 1 else 0..] else Pool(s, k)
  {
    if msg.PartialSignature().Some? {
      assert msg.justification == Partial(PartialSig(msg.justification.sig.signature, msg.justification.sig.address));
    }
  }

  /** The first of the certificates of greatest height. */
  ghost predicate IsFirstHighest(msgs: seq<Msg>, i: nat) {
    && i < |msgs| && msgs[i].Cert().Some?
    && (forall j :: 0 <= j < |msgs| && msgs[j].Cert().Some? ==> msgs[j].Cert().value.height <= msgs[i].Cert().value.height)
    && (forall j :: 0 <= j < i && msgs[j].Cert().Some? ==> msgs[j].Cert().value.height < msgs[i].Cert().value.height)
  }

  ghost predicate IsHighest(msgs: seq<Msg>, qc: Option<QC>) {
    if qc.None? then forall i :: 0 <= i < |msgs| ==> msgs[i].Cert().None?
    else exists i :: 0 <= i < |msgs| && msgs[i].Cert() == qc && IsFirstHighest(msgs, i)
  }

  /** The leader takes up the block of a certificate that is not of an earlier height or round. */
  predicate TakesUp(s: State, high: Option<QC>) {
    high.Some? && high.value.height >= s.height && high.value.round >= s.round && high.value.block.Some?
  }

  /** The block a leader opens its round with, and whether it comes by it. */
  function RoundBlock(c: Config, s: State, high: Option<QC>, env: Env): Option<Block> {
    if TakesUp(s, high) then
      var b := high.value.block.value;
      if b.stateHash != "" && b.proposer.Some? && env.applied == Some(b.stateHash) then Some(b) else None
    else if env.proposal.Some? then Some(Block(s.height, env.proposal.value.0, Some(c.self), env.proposal.value.1, high))
    else None
  }

  lemma {:induction false} HighQCIsHighest(msgs: seq<Msg>)
    ensures IsHighest(msgs, HighQC(msgs))
  {
    if msgs != [] {
      var n := |msgs| - 1;
      HighQCIsHighest(msgs[..n]);
      var qc := HighQC(msgs[..n]);
      if HighQC(msgs) == qc && qc.Some? {
        var i :| 0 <= i < n && msgs[..n][i].Cert() == qc && IsFirstHighest(msgs[..n], i);
        assert msgs[i].Cert() == qc && IsFirstHighest(msgs, i);
      } else if HighQC(msgs).Some? {
        assert msgs[n].Cert() == HighQC(msgs) && IsFirstHighest(msgs, n);
      }
    }
  }

  /** The leader sends a proposal of a step with a certificate, and then its own vote for it. */
  predicate ProposesAndVotes(s: State, t: State, step: int, block: Block, qc: Option<QC>) {
    && s.sent <= t.sent && |t.sent| == |s.sent| + 2 && t.step == step && t.block == Some(block)
    && t.sent[|s.sent|] == Msg(PROPOSE, s.height, step, s.round, Some(block), if qc.Some? then Certificate(qc.value) else NoJustification)
    && t.sent[|s.sent| + 1].kind == VOTE && t.sent[|s.sent| + 1].step == step && t.sent[|s.sent| + 1].block == Some(block)
  }

  lemma SettledOn(c: Config, s: State, high: Option<QC>, env: Env)
    requires IsLeader(c, s)
    ensures var made, b := LeaderBlock(c, RefreshUow(c, s), high, env), RoundBlock(c, s, high, env);
      if b.Some? then made == AppliedOk(s.(block := b, uow := Some(Uow(s.height, true, Some(b.value.stateHash)))))
      else
        && !made.AppliedOk? && made.s.block == s.block && made.s.panicked == s.panicked
        && (made.AppliedFatal? <==> TakesUp(s, high) && Diverged(high.value.block.value, env))
  {
  }

  lemma ProposedAndVoted(c: Config, s: State, step: int, qc: Option<QC>)
    requires IsLeader(c, s) && s.step == step && s.block.Some?
    ensures ProposesAndVotes(s, Propose(c, s, step, qc, true), step, s.block.value, qc) && Propose(c, s, step, qc, true).uow == s.uow
  {
  }

  lemma OpenedWith(c: Config, s: State, high: Option<QC>, env: Env)
    requires IsLeader(c, s)
    ensures var t, b := OpenRound(c, s, high, env), RoundBlock(c, s, high, env);
      if b.Some? then ProposesAndVotes(s, t, PREPARE, b.value, high) && t.uow == Some(Uow(s.height, true, Some(b.value.stateHash)))
      else
        && t.block == s.block && (t.panicked || t.step == NEWROUND)
        && (t.panicked <==> s.panicked || (TakesUp(s, high) && Diverged(high.value.block.value, env)))
  {
    SettledOn(c, s, high, env);
    var made := LeaderBlock(c, RefreshUow(c, s), high, env);
    if made.AppliedOk? {
      var u := SetPool(made.s.(step := PREPARE), NEWROUND, []);
      ProposedAndVoted(c, u, PREPARE, high);
      SameOpening(c, s, u, high, env, Propose(c, u, PREPARE, high, true));
    }
    hide LeaderBlock, Propose, ProposesAndVotes, RoundBlock, TakesUp, Diverged;
  }

  lemma SameOpening(c: Config, s: State, t: State, high: Option<QC>, env: Env, u: State)
    requires t.height == s.height && t.round == s.round && t.sent == s.sent
    ensures RoundBlock(c, t, high, env) == RoundBlock(c, s, high, env) && TakesUp(t, high) == TakesUp(s, high)
    ensures forall step, b, qc {:trigger ProposesAndVotes(s, u, step, b, qc)} :: ProposesAndVotes(s, u, step, b, qc) == ProposesAndVotes(t, u, step, b, qc)
  {
  }

  /**
   With enough NewRound messages the leader settles on a block: that of the first certificate of greatest height
   among them, if it is not of an earlier view and executes, or else a new one over that certificate. It proposes
   this block with that certificate and votes for it, or ends the round; without enough messages it says nothing.
   */
  lemma LeaderOpensRound(c: Config, s: State, msg: Msg, env: Env) returns (high: Option<QC>)
    requires IsLeader(c, s) && msg.step == NEWROUND
    ensures var f := LeaderAnte(c, s, msg, env); var msgs := Pool(f.s, NEWROUND);
      var enough := f.Continue? && 3 * |msgs| > 2 * |c.validators(s.height)|;
      var t, b := Dispatch(c, s, msg, env), RoundBlock(c, s, high, env);
      && IsHighest(msgs, high)
      && if !enough then t == f.s
         else if b.Some? then ProposesAndVotes(s, t, PREPARE, b.value, high) && t.uow == Some(Uow(s.height, true, Some(b.value.stateHash)))
         else
           && t.block == s.block && (t.panicked || t.step == NEWROUND)
           && (t.panicked <==> s.panicked || (TakesUp(s, high) && Diverged(high.value.block.value, env)))
  {
    var f := LeaderAnte(c, s, msg, env);
    AnteKeepsView(c, s, msg, env);
    hide LeaderAnte, HighQC, IsHighest, OpenRound, ProposesAndVotes, RoundBlock, Diverged;
    high := HighQC(Pool(f.s, NEWROUND));
    OpenedWith(c, f.s, high, env);
    SameOpening(c, s, f.s, high, env, Dispatch(c, s, msg, env));
    HighQCIsHighest(Pool(f.s, NEWROUND));
  }

  /**
   With enough usable signatures of a step the leader builds a certificate and proposes the next step with it,
   taking it as its prepare certificate or its lock, or commits its block under it; without them it says nothing.
   */
  lemma LeaderAdvances(c: Config, s: State, msg: Msg, env: Env)
    requires IsLeader(c, s) && PREPARE <= msg.step <= COMMIT
    ensures var f := LeaderAnte(c, s, msg, env); var t := Dispatch(c, s, msg, env);
      var enough := f.Continue? && 3 * |Pool(f.s, msg.step)| > 2 * |c.validators(s.height)|;
      var qc := if enough then QuorumCertificate(c, f.s, msg.step) else None;
      if qc.None? then t == f.s.(pool := t.pool)
      else if s.block.None? then t.block.None? && t.step == NEWROUND && t.commits == s.commits
      else if msg.step == COMMIT then
        t.commits == s.commits + if s.uow.None? then [] else
          [Commit(s.uow.value.height, s.round, s.block.value.(cert := qc), s.uow.value.computed)]
      else
        && ProposesAndVotes(s, t, msg.step + 1, s.block.value, qc) && t.commits == s.commits
        && t.prepareQC == (if msg.step == PREPARE then qc else s.prepareQC)
        && t.lockedQC == if msg.step == PRECOMMIT then qc else s.lockedQC
  {
    AnteKeepsView(c, s, msg, env);
    hide LeaderAnte, QuorumCertificate;
  }
}
