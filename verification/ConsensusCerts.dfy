/** Where certificates come from, which ones a node holds, and why replicas accept the leader's. */
module ConsensusCerts {
  import opened Common
  import opened ConsensusTypes
  import opened ConsensusSpec
  import Runs = ConsensusRuns

  // ---------------------------------------------------------------- the leader's certificates

  /** Every pooled message sits in the pool of its step and passed the signature check at this height. */
  ghost predicate PoolChecked(c: Config, s: State) {
    forall k, i :: k in s.pool && 0 <= i < |s.pool[k]| ==> s.pool[k][i].step == k && ValidMessageSignature(c, s, s.pool[k][i])
  }

  lemma AnteKeepsPool(c: Config, s: State, msg: Msg, env: Env)
    requires PoolChecked(c, s)
    ensures PoolChecked(c, LeaderAnte(c, s, msg, env).s)
    ensures LeaderAnte(c, s, msg, env).s.height == s.height
  {
    if LeaderAnte(c, s, msg, env).Continue? {
      assert forall i :: 0 <= i < |Pool(s, msg.step)| ==> ValidMessageSignature(c, s, Pool(s, msg.step)[i]);
    }
  }

  /** `t` has dropped all pooled messages, or is at the same height with the same ones. */
  predicate SamePool(s: State, t: State) {
    t.pool == map[] || (t.height == s.height && t.pool == s.pool)
  }

  lemma SamePoolIsChecked(c: Config, s: State, t: State)
    requires PoolChecked(c, s) && SamePool(s, t)
    ensures PoolChecked(c, t)
  {
  }

  /** Ending a round drops the pools; a commit drops them or dies. */
  lemma RoundEndPools()
    ensures forall s {:trigger InterruptRound(s)} :: InterruptRound(s).pool == map[]
    ensures forall s, qc {:trigger CommitBlock(s, qc)} :: SamePool(s, CommitBlock(s, qc))
    ensures forall c, s, step {:trigger CastVote(c, s, step)} :: SamePool(s, CastVote(c, s, step))
  {
  }

  lemma ReplicaPool(c: Config, s: State, msg: Msg, env: Env)
    requires !IsLeader(c, s)
    ensures SamePool(s, Dispatch(c, s, msg, env))
  {
    hide InterruptRound, CommitBlock, CastVote, ValidQC;
    RoundEndPools();
  }

  lemma OpenRoundPool(c: Config, s: State, high: Option<QC>, env: Env)
    ensures SamePool(s, OpenRound(c, s, high, env)) || SamePool(SetPool(s, NEWROUND, []), OpenRound(c, s, high, env))
  {
    var t := RefreshUow(c, s);
    var made := LeaderBlock(c, t, high, env);
    assert made.s == t.(block := made.s.block, uow := made.s.uow);
  }

  /** After storing the message a leader handler keeps the pools, empties one or drops them all. */
  lemma LeaderPool(c: Config, s: State, msg: Msg, env: Env)
    requires IsLeader(c, s)
    ensures var t := LeaderAnte(c, s, msg, env).s; var u := Dispatch(c, s, msg, env);
      SamePool(t, u) || SamePool(s, u) || SamePool(SetPool(t, msg.step, []), u)
  {
    hide InterruptRound, CommitBlock, QuorumCertificate, OpenRound, LeaderAnte;
    RoundEndPools();
    var ante := LeaderAnte(c, s, msg, env);
    if msg.step == NEWROUND && ante.Continue? && EnoughMessages(c, ante.s, NEWROUND) {
      OpenRoundPool(c, ante.s, HighQC(Pool(ante.s, NEWROUND)), env);
    }
  }

  lemma StepKeepsPool(c: Config, s: State, ev: Event)
    requires PoolChecked(c, s)
    ensures PoolChecked(c, Step(c, s, ev))
  {
    hide Dispatch;
    if !s.panicked && ev.Deliver? {
      var filtered := ShouldHandleMessage(c, s, ev.msg);
      assert SamePool(s, filtered.s);
      if filtered.Continue? {
        var elected := EnsureLeader(c, filtered.s, ev.msg);
        assert SamePool(s, elected.s);
        SamePoolIsChecked(c, s, elected.s);
        if elected.Continue? {
          DispatchKeepsPool(c, elected.s, ev.msg, ev.env);
        }
      }
    }
  }

  lemma DispatchKeepsPool(c: Config, s: State, msg: Msg, env: Env)
    requires PoolChecked(c, s)
    ensures PoolChecked(c, Dispatch(c, s, msg, env))
  {
    hide Dispatch;
    if IsLeader(c, s) {
      AnteKeepsPool(c, s, msg, env);
      LeaderPool(c, s, msg, env);
    } else {
      ReplicaPool(c, s, msg, env);
    }
  }

  lemma {:induction false} RunKeepsPool(c: Config, h0: nat, evs: seq<Event>)
    ensures PoolChecked(c, Run(c, h0, evs))
  {
    if evs != [] {
      RunKeepsPool(c, h0, evs[..|evs| - 1]);
      StepKeepsPool(c, Run(c, h0, evs[..|evs| - 1]), evs[|evs| - 1]);
    }
  }

  /** A usable pooled message counts for the node's own block: a vote for it, or a signature over it in a Propose message. */
  predicate CountsForOwn(c: Config, s: State, step: int, m: Msg) {
    && Matching(s, step, m)
    && if m.kind == PROPOSE then ValidSig(c.validators(s.height), Payload(s.height, step, s.round, s.block), m.PartialSignature().value)
       else m.block == s.block
  }

  function OwnVotes(c: Config, s: State, step: int, msgs: seq<Msg>): nat {
    if msgs == [] then 0
    else OwnVotes(c, s, step, msgs[..|msgs| - 1]) + if CountsForOwn(c, s, step, msgs[|msgs| - 1]) then 1 else 0
  }

  lemma VerifiesIffOwn(c: Config, s: State, step: int, m: Msg)
    requires step != NEWROUND && m.step == step && ValidMessageSignature(c, s, m) && Matching(s, step, m)
    ensures ValidSig(c.validators(s.height), Payload(s.height, step, s.round, s.block), m.PartialSignature().value) <==> CountsForOwn(c, s, step, m)
  {
  }

  /** Of the signatures collected from checked messages, those verify that count for the node's own block. */
  lemma {:induction false} CollectedSignaturesCount(c: Config, s: State, step: int, msgs: seq<Msg>)
    requires step != NEWROUND
    requires forall i :: 0 <= i < |msgs| ==> msgs[i].step == step && ValidMessageSignature(c, s, msgs[i])
    ensures var sigs := Signatures(s, step, msgs);
      |sigs| <= |msgs| && CountValid(c.validators(s.height), Payload(s.height, step, s.round, s.block), sigs) == OwnVotes(c, s, step, msgs)
  {
    hide ValidSig, CountsForOwn, ValidMessageSignature, Matching;
    if msgs != [] {
      var n := |msgs| - 1;
      CollectedSignaturesCount(c, s, step, msgs[..n]);
      var before := Signatures(s, step, msgs[..n]);
      var sigs := Signatures(s, step, msgs);
      if Matching(s, step, msgs[n]) {
        VerifiesIffOwn(c, s, step, msgs[n]);
        assert sigs[..|sigs| - 1] == before;
      } else {
        NotMatching(c, s, step, msgs[n]);
        assert sigs == before;
      }
    }
  }

  lemma NotMatching(c: Config, s: State, step: int, m: Msg)
    requires !Matching(s, step, m)
    ensures !CountsForOwn(c, s, step, m)
  {
  }

  lemma BuiltIsAcceptedIff(c: Config, s: State, step: int)
    requires PoolChecked(c, s) && step != NEWROUND && s.block.Some? && QuorumCertificate(c, s, step).Some?
    ensures EnoughMessages(c, s, step)
    ensures ValidQC(c.validators(s.height), QuorumCertificate(c, s, step).value) <==>
            ThresholdMet(OwnVotes(c, s, step, Pool(s, step)), |c.validators(s.height)|)
  {
    hide ValidMessageSignature;
    CollectedSignaturesCount(c, s, step, Pool(s, step));
  }

  /** The leader that a delivered message finds, once it has stored the message. */
  function Collecting(c: Config, s: State, msg: Msg, env: Env): Flow {
    var f := Runs.Handling(c, s, msg);
    if f.Halted? || !IsLeader(c, f.s) then Halted(f.s) else LeaderAnte(c, f.s, msg, env)
  }

  lemma ProposeSends()
    ensures forall c, s: State, step, qc, votes {:trigger Propose(c, s, step, qc, votes)} :: s.block.Some? ==>
      |Propose(c, s, step, qc, votes).sent| > |s.sent| && Propose(c, s, step, qc, votes).sent[|s.sent|].Cert() == qc
  {
  }

  /** A leader with a block that collects enough signatures proposes the certificate over them. */
  lemma ProposesCertificate(c: Config, s: State, msg: Msg, env: Env)
    requires !s.panicked && PREPARE <= msg.step <= COMMIT && Collecting(c, s, msg, env).Continue?
    requires var t := Collecting(c, s, msg, env).s;
      t.block.Some? && EnoughMessages(c, t, msg.step) && QuorumCertificate(c, t, msg.step).Some?
    ensures var t, u := Collecting(c, s, msg, env).s, Step(c, s, Deliver(msg, env));
      |u.sent| > |s.sent| && u.sent[|s.sent|].Cert() == QuorumCertificate(c, t, msg.step)
  {
    hide QuorumCertificate, EnoughMessages, Runs.Handling, Propose, CommitBlock;
    ProposeSends();
    Runs.RoundEndExtends();
    Runs.StepIsDispatch(c, s, msg, env);
    Runs.HandlingExtends(c, s, msg);
    var f := Runs.Handling(c, s, msg);
    Runs.AnteExtends(c, f.s, msg, env);
    hide LeaderAnte;
  }

  /**
   In every run the certificate that a leader builds, and proposes, passes the replicas' validation if and
   only if the messages it counted for its own block reach the threshold.
   */
  lemma LeaderCertificateIsAcceptedIff(c: Config, h0: nat, evs: seq<Event>, msg: Msg, env: Env)
    requires !Run(c, h0, evs).panicked && PREPARE <= msg.step <= COMMIT && Collecting(c, Run(c, h0, evs), msg, env).Continue?
    requires var t := Collecting(c, Run(c, h0, evs), msg, env).s; t.block.Some? && QuorumCertificate(c, t, msg.step).Some?
    ensures var s := Run(c, h0, evs);
      var t, u, vals := Collecting(c, s, msg, env).s, Step(c, s, Deliver(msg, env)), c.validators(s.height);
      && |u.sent| > |s.sent| && u.sent[|s.sent|].Cert().Some?
      && (ValidQC(vals, u.sent[|s.sent|].Cert().value) <==> ThresholdMet(OwnVotes(c, t, msg.step, Pool(t, msg.step)), |vals|))
  {
    hide ValidQC, PoolChecked, QuorumCertificate, EnoughMessages;
    var s := Run(c, h0, evs);
    RunKeepsPool(c, h0, evs);
    CollectingKeepsPool(c, s, msg, env);
    BuiltIsAcceptedIff(c, Collecting(c, s, msg, env).s, msg.step);
    ProposesCertificate(c, s, msg, env);
  }

  lemma CollectingKeepsPool(c: Config, s: State, msg: Msg, env: Env)
    requires PoolChecked(c, s)
    ensures PoolChecked(c, Collecting(c, s, msg, env).s) && Collecting(c, s, msg, env).s.height == s.height
  {
    hide LeaderAnte;
    var f := Runs.Handling(c, s, msg);
    assert SamePool(s, f.s) && f.s.height == s.height;
    SamePoolIsChecked(c, s, f.s);
    AnteKeepsPool(c, f.s, msg, env);
  }

  // ---------------------------------------------------------------- the certificates a node holds

  /** How one step may change the certificate a node holds for a phase, short of a new height. */
  ghost predicate TakenFrom(c: Config, s: State, ev: Event, qc: Option<QC>, carriedBy: int, builtFrom: int) {
    && ev.Deliver? && qc.Some?
    && (|| (ev.msg.step == carriedBy && qc == ev.msg.Cert() && ValidQC(c.validators(s.height), qc.value))
        || (ev.msg.step == builtFrom && qc.value.height == s.height && qc.value.round == ev.msg.round && qc.value.step == builtFrom
            && ThresholdMet(|qc.value.sigs|, |c.validators(s.height)|)))
  }

  predicate SameCerts(s: State, t: State) {
    t.height == s.height ==> t.prepareQC == s.prepareQC && t.lockedQC == s.lockedQC
  }

  lemma RoundEndCerts()
    ensures forall s {:trigger InterruptRound(s)} :: SameCerts(s, InterruptRound(s)) && InterruptRound(s).height == s.height
    ensures forall s, qc {:trigger CommitBlock(s, qc)} :: SameCerts(s, CommitBlock(s, qc)) && CommitBlock(s, qc).height >= s.height
    ensures forall c, s, step {:trigger CastVote(c, s, step)} ::
      CastVote(c, s, step).height == s.height && CastVote(c, s, step).prepareQC == s.prepareQC && CastVote(c, s, step).lockedQC == s.lockedQC
    ensures forall c, s, step, qc, votes {:trigger Propose(c, s, step, qc, votes)} ::
      SameCerts(s, Propose(c, s, step, qc, votes)) && Propose(c, s, step, qc, votes).height == s.height
  {
  }

  lemma OpenRoundCerts(c: Config, s: State, high: Option<QC>, env: Env)
    ensures SameCerts(s, OpenRound(c, s, high, env))
  {
    var t := RefreshUow(c, s);
    var made := LeaderBlock(c, t, high, env);
    assert made.s == t.(block := made.s.block, uow := made.s.uow);
  }

  /**
   A prepare certificate is taken from a PreCommit proposal or built from Prepare votes, a lock from
   a Commit proposal or built from PreCommit votes; nothing else changes either within a height.
   */
  ghost predicate CertsTaken(c: Config, s: State, ev: Event, t: State) {
    t.height == s.height ==>
      && (t.prepareQC != s.prepareQC ==> TakenFrom(c, s, ev, t.prepareQC, PRECOMMIT, PREPARE))
      && (t.lockedQC != s.lockedQC ==> TakenFrom(c, s, ev, t.lockedQC, COMMIT, PRECOMMIT))
  }

  lemma ReplicaTakesCerts(c: Config, s: State, msg: Msg, env: Env)
    requires !IsLeader(c, s)
    ensures CertsTaken(c, s, Deliver(msg, env), Dispatch(c, s, msg, env))
  {
    hide InterruptRound, CommitBlock, CastVote, ValidQC;
    RoundEndCerts();
  }

  lemma LeaderTakesCerts(c: Config, s: State, msg: Msg, env: Env)
    requires IsLeader(c, s) && msg.round == s.round
    ensures CertsTaken(c, s, Deliver(msg, env), Dispatch(c, s, msg, env))
  {
    hide InterruptRound, CommitBlock, OpenRound, Propose, LeaderAnte;
    RoundEndCerts();
    var ante := LeaderAnte(c, s, msg, env);
    Runs.AnteKeepsView(c, s, msg, env);
    OpenRoundCerts(c, ante.s, HighQC(Pool(ante.s, NEWROUND)), env);
  }

  lemma StepTakesCerts(c: Config, s: State, ev: Event)
    ensures CertsTaken(c, s, ev, Step(c, s, ev))
  {
    hide Dispatch;
    if !s.panicked && ev.Deliver? {
      var filtered := ShouldHandleMessage(c, s, ev.msg);
      if filtered.Continue? {
        var elected := EnsureLeader(c, filtered.s, ev.msg);
        assert elected.s.height == s.height && elected.s.prepareQC == s.prepareQC && elected.s.lockedQC == s.lockedQC;
        if elected.Continue? {
          if IsLeader(c, elected.s) {
            LeaderTakesCerts(c, elected.s, ev.msg, ev.env);
          } else {
            ReplicaTakesCerts(c, elected.s, ev.msg, ev.env);
          }
        }
      }
    }
  }

  // ---------------------------------------------------------------- what a lock binds

  /** The proposal is justified by a valid certificate of the locked block. */
  predicate JustifiedByLock(c: Config, s: State, msg: Msg)
    requires s.lockedQC.Some?
  {
    && msg.Cert().Some? && ValidQC(c.validators(s.height), msg.Cert().value)
    && msg.Cert().value.block == s.lockedQC.value.block && msg.block.Some?
  }

  lemma LockBindsPrepare(c: Config, s: State, msg: Msg, env: Env, i: nat)
    requires s.lockedQC.Some? && msg.step == PREPARE
    requires var t := ReplicaPrepare(c, s, msg, env); |s.sent| <= i < |t.sent| && t.sent[i].kind == VOTE
    ensures JustifiedByLock(c, s, msg) && ReplicaPrepare(c, s, msg, env).sent[i].block == msg.block
  {
    hide ValidQC;
    var t := ReplicaPrepare(c, s, msg, env);
    if ValidMessageBlock(c, s, msg) && msg.block.Some? {
      var applied := ApplyBlock(s, msg.block.value, env);
      assert applied.s.sent == s.sent;
    }
  }

  predicate AddsNoPrepareVote(s: State, t: State) {
    forall i :: |s.sent| <= i < |t.sent| ==> !(t.sent[i].kind == VOTE && t.sent[i].step == PREPARE)
  }

  lemma InterruptAddsNoVote(s: State)
    ensures AddsNoPrepareVote(s, InterruptRound(s))
  {
  }

  lemma CommitAddsNoVote(s: State, qc: QC)
    ensures AddsNoPrepareVote(s, CommitBlock(s, qc))
  {
  }

  lemma LaterVote(c: Config, s: State, step: int)
    requires step != PREPARE
    ensures AddsNoPrepareVote(s, CastVote(c, s, step))
  {
  }

  /** Among the replica's handlers only the one for Prepare sends a Prepare vote. */
  lemma OnlyPrepareVotes(c: Config, s: State, msg: Msg, env: Env, i: nat)
    requires !IsLeader(c, s)
    requires var t := Dispatch(c, s, msg, env); |s.sent| <= i < |t.sent| && t.sent[i].kind == VOTE && t.sent[i].step == PREPARE
    ensures msg.step == PREPARE
  {
    hide ValidQC, ReplicaPrepare, InterruptRound, CommitBlock, CastVote;
    InterruptAddsNoVote(s);
    if msg.Cert().Some? {
      CommitAddsNoVote(s, msg.Cert().value);
    }
    LaterVote(c, s.(step := COMMIT, prepareQC := msg.Cert()), PRECOMMIT);
    LaterVote(c, s.(step := DECIDE, lockedQC := msg.Cert()), COMMIT);
  }

  lemma HandlingKeepsLock(c: Config, s: State, msg: Msg)
    ensures var t := Runs.Handling(c, s, msg).s;
      t.sent == s.sent && t.lockedQC == s.lockedQC && t.height == s.height
  {
  }

  /**
   In any step a locked replica votes Prepare only on a proposal justified by a valid certificate of the
   locked block. The proposal's own block is not compared with that certificate: the vote is for the
   locked state hash exactly when the proposal and its justification name the same one.
   */
  lemma LockBindsVoteIff(c: Config, s: State, msg: Msg, env: Env, i: nat)
    requires !s.panicked && s.lockedQC.Some? && s.lockedQC.value.block.Some?
    requires !IsLeader(c, Runs.Handling(c, s, msg).s)
    requires var t := Step(c, s, Deliver(msg, env));
      |s.sent| <= i < |t.sent| && t.sent[i].kind == VOTE && t.sent[i].step == PREPARE
    ensures JustifiedByLock(c, s, msg)
    ensures var vote := Step(c, s, Deliver(msg, env)).sent[i];
      && vote.block.Some?
      && (vote.block.value.stateHash == s.lockedQC.value.block.value.stateHash <==>
          msg.block.value.stateHash == msg.Cert().value.block.value.stateHash)
  {
    HandlingKeepsLock(c, s, msg);
    var f := Runs.Handling(c, s, msg);
    assert Step(c, s, Deliver(msg, env)) == if f.Halted? then f.s else Dispatch(c, f.s, msg, env);
    hide ShouldHandleMessage, EnsureLeader, Runs.Handling, ReplicaPrepare, ValidQC;
    OnlyPrepareVotes(c, f.s, msg, env, i);
    LockBindsPrepare(c, f.s, msg, env, i);
  }
}
