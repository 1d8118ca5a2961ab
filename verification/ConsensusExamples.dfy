/** Concrete runs in which a property fails that the general results state under a condition. */
module ConsensusExamples {
  import opened Common
  import opened ConsensusTypes
  import opened ConsensusSpec
  import opened ConsensusRuns
  import opened LeaderElection
  import opened Agreement

  // ---------------------------------------------------------------- agreement needs the bound on leaders

  /** A network of one validator, which therefore leads every round. */
  function Solo(): Config {
    Config(h => ["v"], "v", 1, true)
  }

  function SoloRound(round: uint64, hash: string): Event {
    Deliver(Msg(PROPOSE, 0, NEWROUND, round, None, NoJustification), Env(None, Some((hash, [])), false, false))
  }

  function SoloBlock(hash: string): Block {
    Block(0, hash, Some("v"), [], None)
  }

  function SoloVote(round: uint64, hash: string): Msg {
    VoteMsg(Solo(), Init(0).(round := round), PREPARE, SoloBlock(hash))
  }

  /** The validator leads a round with this block executed, at the given step, and has no messages pooled. */
  ghost predicate Proposing(s: State, step: int, hash: string) {
    && !s.panicked && s.height == 0 && s.step == step && s.leaderId == Some(1)
    && s.block == Some(SoloBlock(hash)) && s.uow == Some(Uow(0, true, Some(hash))) && forall k :: Pool(s, k) == []
  }

  lemma SoloRoundVotes(s: State, hash: string)
    requires !s.panicked && s.height == 0 && s.round < 2 && s.step == NEWROUND && s.leaderId.None? && s.pool == map[]
    ensures var t := Step(Solo(), s, SoloRound(s.round, hash));
      && !t.panicked && t.height == 0 && t.round == s.round
      && |t.sent| == |s.sent| + 2 && t.sent[..|s.sent|] == s.sent && t.sent[|s.sent| + 1] == SoloVote(s.round, hash)
      && Pool(t, NEWROUND) == [] && Proposing(t, PREPARE, hash) && t.commits == s.commits
  {
    var msg := SoloRound(s.round, hash).msg;
    var env := SoloRound(s.round, hash).env;
    var elected := EnsureLeader(Solo(), s, msg);
    assert elected == Continue(s.(leaderId := Some(1)));
    var ante := LeaderAnte(Solo(), elected.s, msg, env);
    assert Pool(ante.s, NEWROUND) == [msg];
    assert HighQC([msg]).None?;
  }

  function SoloCert(round: uint64, hash: string): QC {
    QC(0, round, PREPARE, Some(SoloBlock(hash)), [SoloVote(round, hash).PartialSignature().value])
  }

  lemma SoloCertValid(round: uint64, hash: string)
    ensures ValidQC(["v"], SoloCert(round, hash)) && DistinctSigners(SoloCert(round, hash).sigs)
  {
    var qc := SoloCert(round, hash);
    assert CountValid(["v"], QCPayload(qc), qc.sigs[..0]) == 0;
  }

  lemma SoloTimeout(s: State)
    requires !s.panicked && s.round == 0
    ensures var t := Step(Solo(), s, Timeout);
      && !t.panicked && t.height == s.height && t.round == 1 && t.step == NEWROUND && t.leaderId.None? && t.pool == map[]
      && |t.sent| == |s.sent| + 1 && t.sent[..|s.sent|] == s.sent
  {
  }

  /** Votes in two rounds of one height, with a timeout in between. */
  lemma SoloStates(hash1: string, hash2: string)
    ensures var s := Step(Solo(), Step(Solo(), Step(Solo(), Init(0), SoloRound(0, hash1)), Timeout), SoloRound(1, hash2));
      HasCast(s, QCPayload(SoloCert(0, hash1))) && HasCast(s, QCPayload(SoloCert(1, hash2)))
  {
    hide Step;
    var s1 := Step(Solo(), Init(0), SoloRound(0, hash1));
    SoloRoundVotes(Init(0), hash1);
    var s2 := Step(Solo(), s1, Timeout);
    SoloTimeout(s1);
    SoloRoundVotes(s2, hash2);
    var s := Step(Solo(), s2, SoloRound(1, hash2));
    assert s.sent[1] == s.sent[..|s2.sent|][1] == s2.sent[..|s1.sent|][1] == SoloVote(0, hash1);
    assert s.sent[|s2.sent| + 1] == SoloVote(1, hash2);
  }

  lemma SoloNetRun(ev1: Event, ev2: Event, ev3: Event)
    ensures NetRun(map["v" := Solo()], 0, [NetEvent("v", ev1), NetEvent("v", ev2), NetEvent("v", ev3)]).states
         == map["v" := Step(Solo(), Step(Solo(), Step(Solo(), Init(0), ev1), ev2), ev3)]
  {
    var evs := [NetEvent("v", ev1), NetEvent("v", ev2), NetEvent("v", ev3)];
    assert evs[..2][..1] == evs[..1] && evs[..1][..0] == [];
    var net0 := NetRun(map["v" := Solo()], 0, []);
    var net1 := NetRun(map["v" := Solo()], 0, evs[..1]);
    var net2 := NetRun(map["v" := Solo()], 0, evs[..2]);
    assert net0.states == map["v" := Init(0)] && net1 == NetStep(net0, evs[0]) && net2 == NetStep(net1, evs[1]);
  }

  /**
   One leader in two rounds of a height certifies any two state hashes: without the bound on
   leaders the certificates of a height need not agree.
   */
  lemma LeaderOfTwoRoundsCertifiesTwo(hash1: string, hash2: string) returns (evs: seq<NetEvent>, qc1: QC, qc2: QC)
    ensures ValidQC(["v"], qc1) && ValidQC(["v"], qc2) && DistinctSigners(qc1.sigs) && DistinctSigners(qc2.sigs)
    ensures var net := NetRun(map["v" := Solo()], 0, evs); Authentic(net, qc1) && Authentic(net, qc2)
    ensures qc1.height == qc2.height && qc1.block == Some(SoloBlock(hash1)) && qc2.block == Some(SoloBlock(hash2))
  {
    hide Step;
    hide NetRun;
    hide ValidQC;
    var ev1, ev3 := SoloRound(0, hash1), SoloRound(1, hash2);
    evs := [NetEvent("v", ev1), NetEvent("v", Timeout), NetEvent("v", ev3)];
    qc1, qc2 := SoloCert(0, hash1), SoloCert(1, hash2);
    SoloCertValid(0, hash1);
    SoloCertValid(1, hash2);
    SoloStates(hash1, hash2);
    SoloNetRun(ev1, Timeout, ev3);
  }

  // ---------------------------------------------------------------- the round counter wraps

  /** A NewRound message of the last round, in answer to which the leader cannot make a block. */
  function SoloFailure(): Event {
    Deliver(Msg(PROPOSE, 0, NEWROUND, MAX_UINT64, None, NoJustification), Env(None, None, false, false))
  }

  lemma SoloWraps(s: State)
    requires !s.panicked && s.height == 0 && s.round == 0 && Pool(s, NEWROUND) == []
    ensures var t := Step(Solo(), s, SoloFailure());
      && AtStartOf(t, 0, 0) && t.pool == map[] && t.commits == s.commits
      && |t.sent| == |s.sent| + 1 && t.sent[..|s.sent|] == s.sent
  {
    var msg, env := SoloFailure().msg, SoloFailure().env;
    var f := ShouldHandleMessage(Solo(), s, msg);
    assert f == Continue(s.(step := NEWROUND, round := MAX_UINT64, leaderId := Some(1)));
    var ante := LeaderAnte(Solo(), f.s, msg, env);
    assert Pool(ante.s, NEWROUND) == [msg];
    assert HighQC([msg]).None?;
  }

  lemma RunStep(c: Config, evs: seq<Event>, k: nat)
    requires k < |evs|
    ensures Run(c, 0, evs[..k + 1]) == Step(c, Run(c, 0, evs[..k]), evs[k])
  {
    assert evs[..k + 1][..k] == evs[..k];
  }

  /**
   An interrupt in the last round brings a node back to round 0, where it votes a second time: with
   three deliveries it casts two Prepare votes, for any two state hashes, in one view.
   */
  lemma TwoVotesInOneStep(hash1: string, hash2: string) returns (evs: seq<Event>)
    ensures !OneVotePerStep(Run(Solo(), 0, evs).sent) && !Monotone(Solo(), 0, evs) && !QuietRun(Solo(), 0, evs)
  {
    hide Step;
    evs := [SoloRound(0, hash1), SoloFailure(), SoloRound(0, hash2)];
    assert evs[..0] == [] && evs[..3] == evs;
    RunStep(Solo(), evs, 0);
    RunStep(Solo(), evs, 1);
    RunStep(Solo(), evs, 2);
    SoloRoundVotes(Init(0), hash1);
    var s1 := Run(Solo(), 0, evs[..1]);
    SoloWraps(s1);
    var s2 := Run(Solo(), 0, evs[..2]);
    SoloRoundVotes(s2, hash2);
    var s3 := Run(Solo(), 0, evs);
    assert s3.sent[1] == s3.sent[..|s2.sent|][1] == s2.sent[..|s1.sent|][1] == SoloVote(0, hash1);
    assert s3.sent[|s2.sent| + 1] == SoloVote(0, hash2);
    assert !Later(s1, s2);
    if QuietRun(Solo(), 0, evs) {
      AtMostOneVotePerStep(Solo(), 0, evs);
    }
  }

  /** The validator's own vote of a step, about a block. */
  function SoloBallot(step: int, block: Block): Event {
    Deliver(VoteMsg(Solo(), Init(0), step, block), Env(None, None, false, false))
  }

  lemma SoloCollects(s: State, step: int, hash: string, block: Block)
    requires PREPARE <= step <= COMMIT && Proposing(s, step, hash) && s.round == 0 && block.stateHash == hash
    ensures var msg := SoloBallot(step, block).msg;
      var qc := QC(0, 0, step, Some(SoloBlock(hash)), [msg.PartialSignature().value]);
      Step(Solo(), s, SoloBallot(step, block)) ==
        if step == PREPARE then Propose(Solo(), SetPool(s, PREPARE, []).(step := PRECOMMIT, prepareQC := Some(qc)), PRECOMMIT, Some(qc), true)
        else if step == PRECOMMIT then Propose(Solo(), SetPool(s, PRECOMMIT, []).(step := COMMIT, lockedQC := Some(qc)), COMMIT, Some(qc), true)
        else CommitBlock(Propose(Solo(), SetPool(s, COMMIT, []).(step := DECIDE), DECIDE, Some(qc), false), qc)
  {
    hide Propose, CommitBlock, Handling, LeaderAnte, EnoughMessages, QuorumCertificate;
    var msg, env := SoloBallot(step, block).msg, SoloBallot(step, block).env;
    StepIsDispatch(Solo(), s, msg, env);
    SoloStores(s, step, hash, block);
    assert SetPool(SetPool(s, step, [msg]), step, []) == SetPool(s, step, []);
  }

  lemma SoloStores(s: State, step: int, hash: string, block: Block)
    requires PREPARE <= step <= COMMIT && Proposing(s, step, hash) && s.round == 0 && block.stateHash == hash
    ensures var msg, env := SoloBallot(step, block).msg, SoloBallot(step, block).env;
      var t := SetPool(s, step, [msg]);
      && Handling(Solo(), s, msg) == Continue(s) && LeaderAnte(Solo(), s, msg, env) == Continue(t) && EnoughMessages(Solo(), t, step)
      && QuorumCertificate(Solo(), t, step) == Some(QC(0, 0, step, Some(SoloBlock(hash)), [msg.PartialSignature().value]))
  {
    var msg := SoloBallot(step, block).msg;
    var t := SetPool(s, step, [msg]);
    assert Pool(s, step) + [msg] == [msg];
    assert Signatures(t, step, [msg]) == [msg.PartialSignature().value] by { assert [msg][..0] == []; }
  }

  lemma SoloAdvances(s: State, step: int, hash: string)
    requires PREPARE <= step <= PRECOMMIT && Proposing(s, step, hash) && s.round == 0
    ensures var t := Step(Solo(), s, SoloBallot(step, SoloBlock(hash)));
      Proposing(t, step + 1, hash) && t.round == 0 && s.sent <= t.sent && t.commits == s.commits
  {
    hide Step;
    SoloCollects(s, step, hash, SoloBlock(hash));
    var t := Step(Solo(), s, SoloBallot(step, SoloBlock(hash)));
    assert t.pool == SetPool(s, step, []).pool;
    forall k ensures Pool(t, k) == [] {
      assert Pool(s, k) == [];
    }
  }

  lemma SoloCommits(s: State, hash: string)
    requires Proposing(s, COMMIT, hash) && s.round == 0
    ensures var t := Step(Solo(), s, SoloBallot(COMMIT, SoloBlock(hash)));
      && s.sent <= t.sent && |t.commits| == |s.commits| + 1
      && t.commits[|s.commits|].height == 0 && t.commits[|s.commits|].round == 0 && t.commits[|s.commits|].computed == Some(hash)
  {
    hide Step;
    SoloCollects(s, COMMIT, hash, SoloBlock(hash));
  }

  /**
   After an interrupt in the last round a node commits, in a round in which it voted Prepare for one state
   hash, a unit of work that computed another: for any two state hashes.
   */
  lemma CommitAgainstVote(hash1: string, hash2: string) returns (evs: seq<Event>)
    ensures var s := Run(Solo(), 0, evs);
      && |s.commits| == 1 && s.commits[0].height == 0 && s.commits[0].round == 0 && s.commits[0].computed == Some(hash2)
      && PrepareVote(s.sent, 1, 0, 0) && s.sent[1].block == Some(SoloBlock(hash1))
  {
    hide Step, Proposing;
    evs := [SoloRound(0, hash1), SoloFailure(), SoloRound(0, hash2),
            SoloBallot(PREPARE, SoloBlock(hash2)), SoloBallot(PRECOMMIT, SoloBlock(hash2)), SoloBallot(COMMIT, SoloBlock(hash2))];
    assert evs[..0] == [] && evs[..6] == evs;
    RunStep(Solo(), evs, 0);
    RunStep(Solo(), evs, 1);
    RunStep(Solo(), evs, 2);
    RunStep(Solo(), evs, 3);
    RunStep(Solo(), evs, 4);
    RunStep(Solo(), evs, 5);
    SoloRoundVotes(Init(0), hash1);
    var s1 := Run(Solo(), 0, evs[..1]);
    SoloWraps(s1);
    var s2 := Run(Solo(), 0, evs[..2]);
    SoloRoundVotes(s2, hash2);
    var s3 := Run(Solo(), 0, evs[..3]);
    assert s3.sent[1] == s3.sent[..|s2.sent|][1] == s2.sent[..|s1.sent|][1] == SoloVote(0, hash1);
    SoloAdvances(s3, PREPARE, hash2);
    SoloAdvances(Run(Solo(), 0, evs[..4]), PRECOMMIT, hash2);
    SoloCommits(Run(Solo(), 0, evs[..5]), hash2);
  }

  // ---------------------------------------------------------------- a certificate that nobody accepts

  /** A vote for another block with the same state hash is collected and spoils the leader's certificate. */
  lemma SpoiledCertificate(hash: string) returns (evs: seq<Event>)
    ensures var s := Run(Solo(), 0, evs);
      s.prepareQC.Some? && s.prepareQC.value.block == Some(SoloBlock(hash)) && !ValidQC(["v"], s.prepareQC.value)
  {
    hide Step, Proposing;
    var other := SoloBlock(hash).(txs := ["t"]);
    evs := [SoloRound(0, hash), SoloBallot(PREPARE, other)];
    assert evs[..0] == [] && evs[..2] == evs;
    RunStep(Solo(), evs, 0);
    RunStep(Solo(), evs, 1);
    SoloRoundVotes(Init(0), hash);
    var s := Run(Solo(), 0, evs[..1]);
    SoloCollects(s, PREPARE, hash, other);
    SpoiledIsInvalid(hash, other);
  }

  lemma SpoiledIsInvalid(hash: string, other: Block)
    requires other != SoloBlock(hash)
    ensures var sig := SoloBallot(PREPARE, other).msg.PartialSignature().value;
      !ValidQC(["v"], QC(0, 0, PREPARE, Some(SoloBlock(hash)), [sig]))
  {
    var sig := SoloBallot(PREPARE, other).msg.PartialSignature().value;
    var qc := QC(0, 0, PREPARE, Some(SoloBlock(hash)), [sig]);
    assert sig.signature.payload.block != QCPayload(qc).block;
    assert !ValidSig(["v"], QCPayload(qc), sig);
    assert [sig][..0] == [] && CountValid(["v"], QCPayload(qc), []) == 0;
    assert CountValid(["v"], QCPayload(qc), [sig]) == 0;
  }

  // ---------------------------------------------------------------- a step above 255

  function Trio(): Config {
    Config(h => ["a", "b", "c"], "a", 1, true)
  }

  function LateMessage(step: int): Event {
    Deliver(Msg(PROPOSE, 0, step, 0x8000_0000_0000_0000, None, NoJustification), Env(None, None, false, false))
  }

  /** In a round from 2^63 on no leader is found; a step of 259 then takes a node from Commit back to step 3. */
  lemma StepAbove255GoesBack()
    ensures var evs := [LateMessage(COMMIT), LateMessage(259)];
      !Monotone(Trio(), 0, evs) && Stumbles(Trio(), Run(Trio(), 0, evs[..1]), evs[1])
  {
    var evs := [LateMessage(COMMIT), LateMessage(259)];
    var s1 := Run(Trio(), 0, evs[..1]);
    assert evs[..1][..0] == [];
    assert |Trio().validators(0)| == 3;
    assert ElectedId(0, 0x8000_0000_0000_0000, COMMIT, 3) == -1 && ElectedId(0, 0x8000_0000_0000_0000, 259, 3) == -1;
    assert Run(Trio(), 0, []) == Init(0);
    assert s1 == Init(0).(step := COMMIT, round := 0x8000_0000_0000_0000);
    var s2 := Run(Trio(), 0, evs[..2]);
    assert evs[..2][..1] == evs[..1];
    assert s2 == s1.(step := 3);
    assert !Later(Run(Trio(), 0, evs[..1]), Run(Trio(), 0, evs[..2]));
  }

  // ---------------------------------------------------------------- a certificate of another block

  /** A node that follows the single validator "v" without being one. */
  function Watcher(): Config {
    Config(h => ["v"], "w", 2, true)
  }

  function Hello(): Event {
    Deliver(Msg(PROPOSE, 0, NEWROUND, 0, None, NoJustification), Env(None, None, false, false))
  }

  function Proposal(hash: string): Event {
    Deliver(Msg(PROPOSE, 0, PREPARE, 0, Some(SoloBlock(hash)), NoJustification), Env(Some(hash), None, false, false))
  }

  /** A Decide message about the node's own block, with a certificate of another one. */
  function Decision(hash: string, certified: string): Event {
    Deliver(Msg(PROPOSE, 0, DECIDE, 0, Some(SoloBlock(hash)), Certificate(SoloCert(0, certified))), Env(None, None, false, false))
  }

  lemma WatcherOpens()
    ensures Step(Watcher(), Init(0), Hello()) == Init(0).(leaderId := Some(1), step := PREPARE, uow := Some(Uow(0, false, None)))
  {
    var msg := Hello().msg;
    var t := Init(0).(leaderId := Some(1));
    assert ShouldHandleMessage(Watcher(), Init(0), msg) == Continue(Init(0));
    WatcherElects(msg);
    WatcherRefreshes(t, msg);
    assert !IsLeader(Watcher(), t);
    hide ShouldHandleMessage, EnsureLeader, ReplicaNewRound;
  }

  lemma WatcherElects(msg: Msg)
    requires msg.step == NEWROUND && msg.height == 0 && msg.round == 0
    ensures EnsureLeader(Watcher(), Init(0), msg) == Continue(Init(0).(leaderId := Some(1)))
  {
    hide ElectedId;
    assert Watcher().validators(0) == ["v"];
    SoleValidator();
  }

  lemma SoleValidator()
    ensures ElectedId(0, 0, NEWROUND, 1) == 1
  {
  }

  lemma WatcherRefreshes(s: State, msg: Msg)
    requires s == Init(0).(leaderId := Some(1)) && msg == Hello().msg
    ensures ReplicaNewRound(Watcher(), s, msg) == s.(step := PREPARE, uow := Some(Uow(0, false, None)))
  {
  }

  lemma WatcherVotes(s: State, hash: string)
    requires hash != "" && s == Init(0).(leaderId := Some(1), step := PREPARE, uow := Some(Uow(0, false, None)))
    ensures var t := Step(Watcher(), s, Proposal(hash));
      t == s.(block := Some(SoloBlock(hash)), step := PRECOMMIT, uow := Some(Uow(0, false, Some(hash))), sent := t.sent)
  {
  }

  lemma WatcherCommits(s: State, hash: string, certified: string)
    requires !s.panicked && s.height == 0 && s.round == 0 && s.step == PRECOMMIT && s.leaderId == Some(1)
    requires s.block == Some(SoloBlock(hash)) && s.uow == Some(Uow(0, false, Some(hash)))
    ensures Step(Watcher(), s, Decision(hash, certified)).commits
         == s.commits + [Commit(0, 0, SoloBlock(hash).(cert := Some(SoloCert(0, certified))), Some(hash))]
  {
    hide ValidQC;
    SoloCertValid(0, certified);
    var msg := Decision(hash, certified).msg;
    assert ShouldHandleMessage(Watcher(), s, msg) == Continue(s.(step := DECIDE));
    assert EnsureLeader(Watcher(), s.(step := DECIDE), msg) == Continue(s.(step := DECIDE));
  }

  /** For any two state hashes a node can be brought to commit the one under a valid certificate of the other. */
  lemma CommitUnderForeignCertificate(hash: string, certified: string) returns (evs: seq<Event>)
    requires hash != ""
    ensures var s := Run(Watcher(), 0, evs);
      && |s.commits| == 1 && s.commits[0].block.stateHash == hash && s.commits[0].computed == Some(hash)
      && s.commits[0].block.cert.Some?
      && var qc := s.commits[0].block.cert.value;
         ValidQC(Watcher().validators(0), qc) && qc.height == 0 && qc.block.Some? && qc.block.value.stateHash == certified
  {
    hide Step;
    evs := [Hello(), Proposal(hash), Decision(hash, certified)];
    assert evs[..0] == [] && evs[..3] == evs;
    RunStep(Watcher(), evs, 0);
    RunStep(Watcher(), evs, 1);
    RunStep(Watcher(), evs, 2);
    WatcherOpens();
    WatcherVotes(Run(Watcher(), 0, evs[..1]), hash);
    WatcherCommits(Run(Watcher(), 0, evs[..2]), hash, certified);
    SoloCertValid(0, certified);
  }

  /** A Commit message about the node's own block, with a certificate of another one. */
  function LockMessage(hash: string, certified: string): Event {
    Deliver(Msg(PROPOSE, 0, COMMIT, 0, Some(SoloBlock(hash)), Certificate(SoloCert(0, certified))), Env(None, None, false, false))
  }

  function HelloAgain(): Event {
    Deliver(Msg(PROPOSE, 0, NEWROUND, 1, None, NoJustification), Env(None, None, false, false))
  }

  /** A proposal of round 1, justified by a certificate of another block. */
  function JustifiedProposal(hash: string, certified: string): Event {
    Deliver(Msg(PROPOSE, 0, PREPARE, 1, Some(SoloBlock(hash)), Certificate(SoloCert(0, certified))), Env(Some(hash), None, false, false))
  }

  lemma WatcherLocks(s: State, hash: string, certified: string)
    requires !s.panicked && s.height == 0 && s.round == 0 && s.step == PRECOMMIT && s.leaderId == Some(1)
    requires s.block == Some(SoloBlock(hash)) && s.prepareQC.None?
    ensures var t := Step(Watcher(), Step(Watcher(), s, LockMessage(hash, certified)), Timeout);
      && AtStartOf(t, 0, 1) && t.block == s.block && t.lockedQC == Some(SoloCert(0, certified)) && t.pool == map[]
  {
    hide ValidQC;
    SoloCertValid(0, certified);
    var msg := LockMessage(hash, certified).msg;
    assert ShouldHandleMessage(Watcher(), s, msg) == Continue(s.(step := COMMIT));
  }

  lemma WatcherVotesAgain(s: State, hash: string, certified: string)
    requires hash != "" && AtStartOf(s, 0, 1) && s.block == Some(SoloBlock(hash)) && s.lockedQC == Some(SoloCert(0, certified))
    ensures var t := Step(Watcher(), s, HelloAgain());
      && t == s.(leaderId := Some(1), step := PREPARE, uow := Some(Uow(0, false, None)))
      && var u := Step(Watcher(), t, JustifiedProposal(hash, certified));
         && |u.sent| == |t.sent| + 1 && u.sent[|t.sent|].kind == VOTE && u.sent[|t.sent|].step == PREPARE
         && u.sent[|t.sent|].block == Some(SoloBlock(hash))
  {
    hide ValidQC;
    SoloCertValid(0, certified);
    assert EnsureLeader(Watcher(), s, HelloAgain().msg) == Continue(s.(leaderId := Some(1)));
    var t := s.(leaderId := Some(1), step := PREPARE, uow := Some(Uow(0, false, None)));
    assert ValidateProposal(Watcher(), t, JustifiedProposal(hash, certified).msg).Accepted?;
  }

  /** For any two state hashes a replica can be locked on the one and vote Prepare for the other. */
  lemma LockedVoteForAnother(hash: string, locked: string) returns (evs: seq<Event>)
    requires hash != ""
    ensures |evs| == 6
    ensures var s, t := Run(Watcher(), 0, evs[..5]), Run(Watcher(), 0, evs);
      && s.lockedQC.Some? && s.lockedQC.value.block == Some(SoloBlock(locked))
      && |t.sent| == |s.sent| + 1 && t.sent[|s.sent|].kind == VOTE && t.sent[|s.sent|].step == PREPARE
      && t.sent[|s.sent|].block == Some(SoloBlock(hash))
  {
    hide Step;
    evs := [Hello(), Proposal(hash), LockMessage(hash, locked), Timeout, HelloAgain(), JustifiedProposal(hash, locked)];
    assert evs[..0] == [] && evs[..6] == evs;
    RunStep(Watcher(), evs, 0);
    RunStep(Watcher(), evs, 1);
    RunStep(Watcher(), evs, 2);
    RunStep(Watcher(), evs, 3);
    RunStep(Watcher(), evs, 4);
    RunStep(Watcher(), evs, 5);
    WatcherOpens();
    WatcherVotes(Run(Watcher(), 0, evs[..1]), hash);
    WatcherLocks(Run(Watcher(), 0, evs[..2]), hash, locked);
    WatcherVotesAgain(Run(Watcher(), 0, evs[..4]), hash, locked);
  }
}
