/**
 The consensus module as the object it is: handlers that assign its fields, loops that drain and
 scan the message pool. Every method refines the transition of the same name in ConsensusSpec.
 */
module ConsensusModule {
  import opened Common
  import opened ConsensusTypes
  import LeaderElection
  import Spec = ConsensusSpec
  import Runs = ConsensusRuns
  import Certs = ConsensusCerts
  import Laws = ConsensusLaws

  class Consensus {
    const c: Config

    var height: nat
    var round: uint64
    var step: int
    var block: Option<Block>
    var prepareQC: Option<QC>
    var lockedQC: Option<QC>
    var leaderId: Option<nat>
    var uow: Option<Uow>
    var pool: map<int, seq<Msg>>

    // What the process has put on the network and into the store, and whether it has died.
    var sent: seq<Msg>
    var commits: seq<Commit>
    var panicked: bool

    ghost function View(): State
      reads this
    {
      State(height, round, step, block, prepareQC, lockedQC, leaderId, uow, pool, panicked, sent, commits)
    }

    /**
     What every message and every timeout keeps, from the height `h0` on at which the module started:
     one state hash per height for what the node votes for without leading, a unit of work of the
     current height, one commit per height, and only checked messages in the pool.
     */
    ghost predicate Valid(h0: nat)
      reads this
    {
      Runs.Safe(h0, View()) && Certs.PoolChecked(c, View())
    }

    constructor (c: Config, height: nat)
      ensures View() == Spec.Init(height) && this.c == c && Valid(height)
    {
      this.c := c;
      this.height, round, step := height, 0, NEWROUND;
      block, prepareQC, lockedQC, leaderId, uow := None, None, None, None, None;
      pool := map[];
      sent, commits, panicked := [], [], false;
    }

    predicate IsLeader()
      reads this
    {
      leaderId == Some(c.nodeId)
    }

    function PoolOf(s: int): seq<Msg>
      reads this
    {
      if s in pool then pool[s] else []
    }

    // -------------------------------------------------------------- pacemaker

    method ResetRound(isNewHeight: bool)
      modifies this
      ensures View() == Spec.ResetRound(old(View()), isNewHeight)
    {
      leaderId := None;
      pool := map[];
      step := 0;
      if isNewHeight {
        round := 0;
        block := None;
        prepareQC := None;
        lockedQC := None;
      }
    }

    method StartNextView(qc: Option<QC>)
      modifies this
      ensures View() == Spec.StartNextView(old(View()), qc)
    {
      ResetRound(false);
      uow := None;
      step := NEWROUND;
      var justification := if qc.Some? then Certificate(qc.value) else NoJustification;
      sent := sent + [Msg(PROPOSE, height, NEWROUND, round, None, justification)];
    }

    method InterruptRound()
      modifies this
      ensures View() == Spec.InterruptRound(old(View()))
    {
      round := if round == MAX_UINT64 then 0 else round + 1;
      StartNextView(prepareQC);
    }

    method NewHeight()
      modifies this
      ensures View() == Spec.NewHeight(old(View()))
    {
      ResetRound(true);
      height := height + 1;
      StartNextView(None);
    }

    /** `ok` is false when the handling of the message must stop. */
    method ElectNextLeader(msg: Msg) returns (ok: bool)
      modifies this
      ensures View() == Spec.ElectNextLeader(c, old(View()), msg).s
      ensures ok <==> Spec.ElectNextLeader(c, old(View()), msg).Continue?
    {
      leaderId := None;
      var n := |c.validators(msg.height)|;
      if n == 0 {
        panicked := true;
        return false;
      }
      var id := LeaderElection.ElectedId(msg.height, msg.round, msg.step, n);
      if id == 0 {
        return true;
      }
      if !(1 <= id <= |c.validators(height)|) {
        return false;
      }
      leaderId := Some(id);
      return true;
    }

    method ShouldHandleMessage(msg: Msg) returns (ok: bool)
      modifies this
      ensures View() == Spec.ShouldHandleMessage(c, old(View()), msg).s
      ensures ok <==> Spec.ShouldHandleMessage(c, old(View()), msg).Continue?
    {
      if height > msg.height { return false; }
      if msg.height > height { return false; }
      if IsLeader() && msg.kind == PROPOSE && msg.step != NEWROUND { return false; }
      if msg.round < round || (msg.round == round && msg.step < step) { return false; }
      if msg.step == step && msg.round == round { return true; }
      var currentRound := round;
      step := msg.step % 256;
      round := msg.round;
      ok := true;
      if currentRound != msg.round || leaderId.None? {
        ok := ElectNextLeader(msg);
      }
    }

    // -------------------------------------------------------------- certificates

    /** Counts the signatures that verify and compares the count with the threshold. */
    method ValidateQuorumCertificate(cert: Option<QC>) returns (ok: bool)
      ensures ok <==> Spec.ValidCert(c, View(), cert)
    {
      if cert.None? || cert.value.block.None? || cert.value.sigs == [] { return false; }
      var qc := cert.value;
      var payload := Payload(qc.height, qc.step, qc.round, qc.block);
      var vals := c.validators(height);
      var numValid := 0;
      for i := 0 to |qc.sigs|
        invariant numValid == Spec.CountValid(vals, payload, qc.sigs[..i])
      {
        assert qc.sigs[..i + 1][..i] == qc.sigs[..i];
        if qc.sigs[i].address in vals && qc.sigs[i].signature == Signed(qc.sigs[i].address, payload) {
          numValid := numValid + 1;
        }
      }
      assert qc.sigs[..|qc.sigs|] == qc.sigs;
      return Spec.ThresholdMet(numValid, |vals|);
    }

    /** Drains the pool of a step, keeping the usable signatures of the current view. */
    method GetQuorumCertificate(forStep: int) returns (qc: Option<QC>)
      modifies this`pool
      ensures View() == Spec.SetPool(old(View()), forStep, [])
      ensures qc == Spec.QuorumCertificate(c, old(View()), forStep)
    {
      hide Spec.Signatures;
      ghost var s := View();
      var msgs := PoolOf(forStep);
      ghost var all, k := msgs, 0;
      var pss: seq<PartialSig> := [];
      pool := pool[forStep := msgs];
      NoSignatures(s, forStep);
      while PoolOf(forStep) != []
        invariant 0 <= k <= |all| && forStep in pool && pool[forStep] == all[k..]
        invariant pool == s.pool[forStep := pool[forStep]]
        invariant pss == Spec.Signatures(s, forStep, all[..k])
        decreases |all| - k
      {
        var msg := pool[forStep][0];
        NextSignature(s, forStep, all, k);
        k := k + 1;
        pool := pool[forStep := pool[forStep][1..]];
        if msg.PartialSignature().None? { continue; }
        if msg.height != height || msg.step != forStep || msg.round != round { continue; }
        var ps := msg.PartialSignature().value;
        if ps.signature == NoSignature || ps.address == "" { continue; }
        pss := pss + [ps];
      }
      assert all[..|all|] == all;
      assert pool == s.pool[forStep := []];
      if !Spec.ThresholdMet(|pss|, |c.validators(height)|) { return None; }
      return Some(QC(height, round, forStep, block, pss));
    }

    /**
     The first certificate of greatest height among the messages.
     */
    method FindHighQC(msgs: seq<Msg>) returns (qc: Option<QC>)
      ensures qc == Spec.HighQC(msgs)
      ensures Laws.IsHighest(msgs, qc)
    {
      qc := None;
      ghost var at := 0;
      for i := 0 to |msgs|
        invariant qc == Spec.HighQC(msgs[..i])
        invariant qc.None? ==> forall j :: 0 <= j < i ==> msgs[j].Cert().None?
        invariant qc.Some? ==> 0 <= at < i && msgs[at].Cert() == qc && Laws.IsFirstHighest(msgs[..i], at)
      {
        assert msgs[..i + 1][..i] == msgs[..i];
        var next := msgs[i].Cert();
        if next.Some? && (qc.None? || next.value.height > qc.value.height) {
          qc := next;
          at := i;
        }
      }
      assert msgs[..|msgs|] == msgs;
    }

    // -------------------------------------------------------------- blocks and votes

    predicate ValidMessageBlock(msg: Msg)
      reads this
      ensures ValidMessageBlock(msg) == Spec.ValidMessageBlock(c, View(), msg)
    {
      if msg.block.None? then msg.step == NEWROUND
      else
        msg.step != NEWROUND && c.blocksFit
        && (block.Some? ==> block.value.stateHash == msg.block.value.stateHash)
    }

    method RefreshUow()
      modifies this`uow
      ensures View() == Spec.RefreshUow(c, old(View()))
    {
      uow := Some(Uow(height, IsLeader(), None));
    }

    /** False when the block could not be applied; the process may have died doing so. */
    method ApplyBlock(b: Block, env: Env) returns (ok: bool)
      modifies this`uow, this`panicked
      ensures match Spec.ApplyBlock(old(View()), b, env)
        case AppliedOk(s) => ok && View() == s
        case AppliedError(s) => !ok && View() == s
        case AppliedFatal(s) => !ok && View() == Spec.Panic(s)
    {
      if uow.None? { return false; }
      if b.stateHash == "" || b.proposer.None? || env.applied.None? { return false; }
      if env.applied.value != b.stateHash && b.stateHash != IGNORE_HASH {
        panicked := true;
        return false;
      }
      uow := Some(uow.value.(computed := env.applied));
      return env.applied.value == b.stateHash;
    }

    method CastVote(forStep: int)
      modifies this`sent
      ensures View() == Spec.CastVote(c, old(View()), forStep)
    {
      if block.None? || leaderId.None? { return; }
      var payload := Payload(height, forStep, round, block);
      sent := sent + [Msg(VOTE, height, forStep, round, block, Partial(PartialSig(Signed(c.self, payload), c.self)))];
    }

    method CommitBlock(qc: QC)
      modifies this
      ensures View() == Spec.CommitBlock(old(View()), qc)
    {
      if block.None? {
        panicked := true;
        return;
      }
      var certified := block.value.(cert := Some(qc));
      block := Some(certified);
      if uow.None? {
        InterruptRound();
        return;
      }
      commits := commits + [Commit(uow.value.height, round, certified, uow.value.computed)];
      uow := None;
      NewHeight();
    }

    // -------------------------------------------------------------- replica handlers

    method ReplicaNewRound(msg: Msg)
      modifies this
      ensures View() == Spec.ReplicaNewRound(c, old(View()), msg)
    {
      if !ValidMessageBlock(msg) { return; }
      RefreshUow();
      step := PREPARE;
    }

    method ValidateProposal(msg: Msg) returns (verdict: Spec.Verdict)
      ensures verdict == Spec.ValidateProposal(c, View(), msg)
    {
      if !(msg.kind == PROPOSE && msg.step == PREPARE) { return Spec.Rejected; }
      if msg.Cert().Some? {
        var valid := ValidateQuorumCertificate(msg.Cert());
        if !valid { return Spec.Rejected; }
      }
      if lockedQC.None? { return Spec.Accepted; }
      if msg.Cert().None? { return Spec.NilDereference; }
      if lockedQC.value.block == msg.Cert().value.block { return Spec.Accepted; }
      return Spec.Rejected;
    }

    method ReplicaPrepare(msg: Msg, env: Env)
      requires !panicked
      modifies this
      ensures View() == Spec.ReplicaPrepare(c, old(View()), msg, env)
    {
      if !ValidMessageBlock(msg) || msg.block.None? { return; }
      var verdict := ValidateProposal(msg);
      if verdict.Rejected? {
        InterruptRound();
      } else if verdict.NilDereference? {
        panicked := true;
      } else {
        var ok := ApplyBlock(msg.block.value, env);
        if ok {
          block := msg.block;
          step := PRECOMMIT;
          CastVote(PREPARE);
        } else if !panicked {
          InterruptRound();
        }
      }
    }

    method ReplicaPrecommit(msg: Msg)
      modifies this
      ensures View() == Spec.ReplicaPrecommit(c, old(View()), msg)
    {
      if !ValidMessageBlock(msg) { return; }
      var valid := ValidateQuorumCertificate(msg.Cert());
      if !valid {
        InterruptRound();
        return;
      }
      step := COMMIT;
      prepareQC := msg.Cert();
      CastVote(PRECOMMIT);
    }

    method ReplicaCommit(msg: Msg)
      modifies this
      ensures View() == Spec.ReplicaCommit(c, old(View()), msg)
    {
      if !ValidMessageBlock(msg) { return; }
      var valid := ValidateQuorumCertificate(msg.Cert());
      if !valid {
        InterruptRound();
        return;
      }
      step := DECIDE;
      lockedQC := msg.Cert();
      CastVote(COMMIT);
    }

    method ReplicaDecide(msg: Msg)
      modifies this
      ensures View() == Spec.ReplicaDecide(c, old(View()), msg)
    {
      if !ValidMessageBlock(msg) { return; }
      var valid := ValidateQuorumCertificate(msg.Cert());
      if !valid {
        InterruptRound();
        return;
      }
      CommitBlock(msg.Cert().value);
    }

    // -------------------------------------------------------------- leader handlers

    method LeaderAnte(msg: Msg, env: Env) returns (ok: bool)
      modifies this`pool, this`panicked
      ensures View() == Spec.LeaderAnte(c, old(View()), msg, env).s
      ensures ok <==> Spec.LeaderAnte(c, old(View()), msg, env).Continue?
    {
      if !ValidMessageBlock(msg) { return false; }
      if msg.step != NEWROUND && msg.kind != PROPOSE {
        if msg.PartialSignature().None? { return false; }
        var sig := msg.PartialSignature().value;
        if sig.address == "" || sig.address !in c.validators(height) || sig.signature != Signed(sig.address, msg.Signable()) {
          return false;
        }
      }
      if !(NEWROUND <= msg.kind <= DECIDE) {
        panicked := true;
        return false;
      }
      if env.poolFull { return false; }
      var q := PoolOf(msg.step) + [msg];
      pool := pool[msg.step := if env.poolOverflows then q[1..] else q];
      return true;
    }

    predicate EnoughMessages(forStep: int)
      reads this
    {
      Spec.ThresholdMet(|PoolOf(forStep)|, |c.validators(height)|)
    }

    method PrepareLeaderBlock(high: Option<QC>, env: Env) returns (ok: bool)
      modifies this`uow, this`block, this`panicked
      ensures match Spec.LeaderBlock(c, old(View()), high, env)
        case AppliedOk(s) => ok && View() == s
        case AppliedError(s) => !ok && View() == s
        case AppliedFatal(s) => !ok && View() == Spec.Panic(s)
    {
      if high.None? || high.value.height < height || high.value.round < round || high.value.block.None? {
        if env.proposal.None? || uow.None? || !uow.value.forLeader { return false; }
        var (hash, txs) := env.proposal.value;
        uow := Some(uow.value.(computed := Some(hash)));
        block := Some(Block(height, hash, Some(c.self), txs, high));
        return true;
      }
      ok := ApplyBlock(high.value.block.value, env);
      if ok {
        block := high.value.block;
      }
    }

    /** False when the round had to be interrupted because there is no block to propose. */
    method BroadcastProposal(forStep: int, qc: Option<QC>) returns (ok: bool)
      modifies this
      ensures ok <==> old(block).Some?
      ensures View() == Spec.Propose(c, old(View()), forStep, qc, false)
    {
      if block.None? {
        InterruptRound();
        return false;
      }
      var justification := if qc.Some? then Certificate(qc.value) else NoJustification;
      sent := sent + [Msg(PROPOSE, height, forStep, round, block, justification)];
      return true;
    }

    method OpenRound(high: Option<QC>, env: Env)
      requires !panicked
      modifies this
      ensures View() == Spec.OpenRound(c, old(View()), high, env)
    {
      RefreshUow();
      var ok := PrepareLeaderBlock(high, env);
      if !ok {
        if !panicked { InterruptRound(); }
        return;
      }
      step := PREPARE;
      pool := pool[NEWROUND := []];
      ok := BroadcastProposal(PREPARE, high);
      if ok { CastVote(PREPARE); }
    }

    method LeaderNewRound(msg: Msg, env: Env)
      requires !panicked
      modifies this
      ensures View() == Spec.LeaderNewRound(c, old(View()), msg, env)
    {
      var stored := LeaderAnte(msg, env);
      if !stored || !EnoughMessages(NEWROUND) { return; }
      var high := FindHighQC(PoolOf(NEWROUND));
      OpenRound(high, env);
    }

    method LeaderPrepare(msg: Msg, env: Env)
      modifies this
      ensures View() == Spec.LeaderPrepare(c, old(View()), msg, env)
    {
      hide Spec.LeaderAnte, Spec.QuorumCertificate;
      var stored := LeaderAnte(msg, env);
      if !stored || !EnoughMessages(PREPARE) { return; }
      var qc := GetQuorumCertificate(PREPARE);
      if qc.None? { return; }
      step := PRECOMMIT;
      prepareQC := qc;
      var ok := BroadcastProposal(PRECOMMIT, qc);
      if ok { CastVote(PRECOMMIT); }
    }

    method LeaderPrecommit(msg: Msg, env: Env)
      modifies this
      ensures View() == Spec.LeaderPrecommit(c, old(View()), msg, env)
    {
      hide Spec.LeaderAnte, Spec.QuorumCertificate;
      var stored := LeaderAnte(msg, env);
      if !stored || !EnoughMessages(PRECOMMIT) { return; }
      var qc := GetQuorumCertificate(PRECOMMIT);
      if qc.None? { return; }
      step := COMMIT;
      lockedQC := qc;
      var ok := BroadcastProposal(COMMIT, qc);
      if ok { CastVote(COMMIT); }
    }

    method LeaderCommit(msg: Msg, env: Env)
      modifies this
      ensures View() == Spec.LeaderCommit(c, old(View()), msg, env)
    {
      var stored := LeaderAnte(msg, env);
      if !stored || !EnoughMessages(COMMIT) { return; }
      var qc := GetQuorumCertificate(COMMIT);
      if qc.None? { return; }
      step := DECIDE;
      var ok := BroadcastProposal(DECIDE, qc);
      if ok { CommitBlock(qc.value); }
    }

    // -------------------------------------------------------------- dispatch

    method Dispatch(msg: Msg, env: Env)
      requires !panicked
      modifies this
      ensures View() == Spec.Dispatch(c, old(View()), msg, env)
    {
      if IsLeader() {
        match msg.step
        case 1 => LeaderNewRound(msg, env);
        case 2 => LeaderPrepare(msg, env);
        case 3 => LeaderPrecommit(msg, env);
        case 4 => LeaderCommit(msg, env);
        case 5 => var _ := LeaderAnte(msg, env);
        case _ => panicked := true;
      } else {
        match msg.step
        case 1 => ReplicaNewRound(msg);
        case 2 => ReplicaPrepare(msg, env);
        case 3 => ReplicaPrecommit(msg);
        case 4 => ReplicaCommit(msg);
        case 5 => ReplicaDecide(msg);
        case _ => panicked := true;
      }
    }

    method HandleHotstuffMessage(msg: Msg, env: Env)
      requires !panicked
      modifies this
      ensures View() == Spec.HandleMessage(c, old(View()), msg, env)
    {
      hide Spec.Dispatch;
      var ok := ShouldHandleMessage(msg);
      if !ok { return; }
      if step == NEWROUND && leaderId.None? {
        ok := ElectNextLeader(msg);
        if !ok { return; }
      }
      Dispatch(msg, env);
    }

    /**
     One message: the state machine's step, which keeps the invariant, takes nothing back that was sent
     or committed, and goes back to an earlier view exactly when it wraps the round or stumbles.
     */
    method HandleMessage(msg: Msg, env: Env, ghost h0: nat)
      requires !panicked && Valid(h0)
      modifies this
      ensures Valid(h0) && View() == Spec.Step(c, old(View()), Deliver(msg, env))
      ensures height == h0 + |commits| && (uow.Some? ==> uow.value.height == height)
      ensures old(sent) <= sent && old(commits) <= commits && |commits| <= |old(commits)| + 1
      ensures var before, ev := old(View()), Deliver(msg, env);
        Runs.Later(before, View()) <==> !Runs.Wraps(c, before, ev) && !Runs.Stumbles(c, before, ev)
      ensures var before, ev := old(View()), Deliver(msg, env);
        Laws.Spoken(c, before, View()) && Laws.RoundEnd(before, View(), msg.round, Laws.Interrupted(c, before, ev))
    {
      hide Spec.HandleMessage, Runs.Later, Runs.Wraps, Runs.Stumbles, Runs.Safe, Certs.PoolChecked, Laws.Spoken, Laws.RoundEnd, Laws.Interrupted;
      StepProperties(h0, Deliver(msg, env));
      Laws.StepIsSpoken(c, View(), Deliver(msg, env));
      Laws.RoundEndIsAnnounced(c, View(), Deliver(msg, env));
      HandleHotstuffMessage(msg, env);
    }

    /**
     A timeout: as for a message; the view goes back exactly in the last round, and the one message sent
     announces the next round with the prepare certificate held.
     */
    method HandleTimeout(ghost h0: nat)
      requires !panicked && Valid(h0)
      modifies this
      ensures Valid(h0) && View() == Spec.Step(c, old(View()), Timeout)
      ensures height == old(height) == h0 + |commits| && uow.None?
      ensures commits == old(commits) && block == old(block) && prepareQC == old(prepareQC) && lockedQC == old(lockedQC)
      ensures round == (if old(round) == MAX_UINT64 then 0 else old(round) + 1) && step == NEWROUND && leaderId.None? && pool == map[]
      ensures sent == old(sent) +
        [Msg(PROPOSE, height, NEWROUND, round, None, if old(prepareQC).Some? then Certificate(old(prepareQC).value) else NoJustification)]
      ensures Runs.Later(old(View()), View()) <==> old(round) < MAX_UINT64
    {
      StepProperties(h0, Timeout);
      InterruptRound();
    }

    lemma StepProperties(h0: nat, ev: Event)
      requires !panicked && Valid(h0)
      ensures var s, t := View(), Spec.Step(c, View(), ev);
        && Runs.Safe(h0, t) && Certs.PoolChecked(c, t) && Runs.Extends(s, t)
        && (Runs.Later(s, t) <==> !Runs.Wraps(c, s, ev) && !Runs.Stumbles(c, s, ev))
        && t.height == h0 + |t.commits| && (t.uow.Some? ==> t.uow.value.height == t.height)
    {
      hide Spec.Step, Runs.Later, Runs.Wraps, Runs.Stumbles;
      Runs.StepKeepsInv(c, h0, View(), ev, false);
      Certs.StepKeepsPool(c, View(), ev);
      Runs.StepExtends(c, View(), ev);
      Runs.StepLaterIff(c, View(), ev);
    }
  }

  lemma NoSignatures(s: State, step: int)
    ensures Spec.Signatures(s, step, []) == []
  {
  }

  /** Draining one more message adds its signature if it is usable. */
  lemma NextSignature(s: State, step: int, msgs: seq<Msg>, k: nat)
    requires k < |msgs|
    ensures Spec.Signatures(s, step, msgs[..k + 1]) ==
      Spec.Signatures(s, step, msgs[..k]) + if Spec.Matching(s, step, msgs[k]) then [msgs[k].PartialSignature().value] else []
  {
    assert msgs[..k + 1][..k] == msgs[..k];
  }
}
