/** What every run of one consensus module keeps, whatever messages and timeouts it receives. */
module ConsensusRuns {
  import opened Common
  import opened ConsensusTypes
  import opened ConsensusSpec
  import opened LeaderElection

  // ---------------------------------------------------------------- what is kept

  predicate IsVote(m: Msg) {
    m.kind == VOTE
  }

  /** The vote `m` belongs to a view before step `k` of round `r` at height `h`. */
  predicate Before(m: Msg, h: nat, r: int, k: int) {
    m.height < h || (m.height == h && (m.round < r || (m.round == r && m.step < k)))
  }

  ghost predicate AllBefore(sent: seq<Msg>, h: nat, r: int, k: int) {
    forall i :: 0 <= i < |sent| && IsVote(sent[i]) ==> Before(sent[i], h, r, k)
  }

  ghost predicate OneVotePerStep(sent: seq<Msg>) {
    forall i, j :: 0 <= i < j < |sent| && IsVote(sent[i]) && IsVote(sent[j]) ==>
      !(sent[i].height == sent[j].height && sent[i].round == sent[j].round && sent[i].step == sent[j].step)
  }

  /** Steps of the current round in which the node has already voted lie below this bound. */
  function Bound(c: Config, s: State): int {
    if s.leaderId.None? then 0 else if IsLeader(c, s) then s.step + 1 else s.step
  }

  ghost predicate VotesInOrder(c: Config, s: State) {
    && OneVotePerStep(s.sent)
    && (!s.panicked ==> 0 <= s.step && AllBefore(s.sent, s.height, s.round, Bound(c, s)))
  }

  /** The node has assigned a block as leader at height `h`. */
  ghost predicate Led(sent: seq<Msg>, h: nat) {
    exists i :: 0 <= i < |sent| && sent[i].kind == PROPOSE && sent[i].step == PREPARE && sent[i].height == h
  }

  ghost predicate VoteFor(sent: seq<Msg>, i: int, h: nat) {
    0 <= i < |sent| && IsVote(sent[i]) && sent[i].height == h && !Led(sent, h)
  }

  /** Below its own leadership a node sticks to one state hash per height. */
  ghost predicate Sticky(s: State) {
    && (forall i :: 0 <= i < |s.sent| && IsVote(s.sent[i]) ==> s.sent[i].height <= s.height && s.sent[i].block.Some?)
    && (forall i, j, h :: VoteFor(s.sent, i, h) && VoteFor(s.sent, j, h) ==>
          s.sent[i].block.value.stateHash == s.sent[j].block.value.stateHash)
    && (forall i :: VoteFor(s.sent, i, s.height) ==>
          s.block.Some? && s.block.value.stateHash == s.sent[i].block.value.stateHash)
  }

  ghost predicate UowAndCommits(h0: nat, s: State) {
    && (s.uow.Some? ==> s.uow.value.height == s.height)
    && s.height == h0 + |s.commits|
    && (forall k :: 0 <= k < |s.commits| ==> s.commits[k].height == h0 + k)
  }

  ghost predicate PrepareVote(sent: seq<Msg>, i: int, h: nat, r: int) {
    0 <= i < |sent| && IsVote(sent[i]) && sent[i].step == PREPARE && sent[i].height == h && sent[i].round == r
  }

  /** The held unit of work has computed the state hash of the current block. */
  predicate Executed(s: State) {
    s.block.Some? && s.uow.Some? && s.uow.value.computed == Some(s.block.value.stateHash)
  }

  /** A Prepare vote of the current view is for the executed block; one of a committed view is for what was committed. */
  ghost predicate CommitsWhatItVotedFor(s: State) {
    && (forall i :: !s.panicked && PrepareVote(s.sent, i, s.height, s.round) ==>
          Executed(s) && s.sent[i].block.Some? && s.sent[i].block.value.stateHash == s.block.value.stateHash)
    && (forall k, i :: 0 <= k < |s.commits| && PrepareVote(s.sent, i, s.commits[k].height, s.commits[k].round) ==>
          s.sent[i].block.Some? && s.commits[k].computed == Some(s.sent[i].block.value.stateHash))
  }

  ghost predicate Safe(h0: nat, s: State) {
    Sticky(s) && UowAndCommits(h0, s) && (s.panicked || 0 <= s.step)
  }

  /** The part that depends on the order of views is claimed of quiet runs (`q`) only. */
  ghost predicate Inv(c: Config, h0: nat, s: State, q: bool) {
    Safe(h0, s) && (q ==> VotesInOrder(c, s) && CommitsWhatItVotedFor(s))
  }

  // ---------------------------------------------------------------- building blocks

  /** What appending a message to the sent ones does to the notions above. */
  lemma SentGrows(sent: seq<Msg>, m: Msg)
    ensures forall h :: Led(sent, h) ==> Led(sent + [m], h)
    ensures forall i, h :: VoteFor(sent + [m], i, h) && i < |sent| ==> VoteFor(sent, i, h)
    ensures forall i, h, r :: PrepareVote(sent + [m], i, h, r) && i < |sent| ==> PrepareVote(sent, i, h, r)
  {
    var all := sent + [m];
    assert forall i :: 0 <= i < |sent| ==> all[i] == sent[i];
    forall h | Led(sent, h) ensures Led(all, h) {
      var i :| 0 <= i < |sent| && sent[i].kind == PROPOSE && sent[i].step == PREPARE && sent[i].height == h;
      assert all[i] == sent[i];
    }
  }

  lemma BroadcastKeepsInv(c: Config, h0: nat, s: State, m: Msg, q: bool)
    requires Inv(c, h0, s, q) && !IsVote(m)
    ensures Inv(c, h0, Broadcast(s, m), q)
  {
    hide Led;
    SentGrows(s.sent, m);
  }

  /** The round can be interrupted without going back to a view in which the node has voted. */
  ghost predicate Room(s: State) {
    s.round < MAX_UINT64 || AllBefore(s.sent, s.height, 0, 0)
  }

  lemma InterruptKeepsInv(c: Config, h0: nat, s: State, q: bool)
    requires Inv(c, h0, s, q) && !s.panicked && (q ==> Room(s))
    ensures Inv(c, h0, InterruptRound(s), q)
  {
    var qc := s.prepareQC;
    var t := ResetRound(s.(round := NextRound(s.round)), false).(uow := None, step := NEWROUND);
    assert Inv(c, h0, t, q);
    BroadcastKeepsInv(c, h0, t, Msg(PROPOSE, t.height, NEWROUND, t.round, None, if qc.Some? then Certificate(qc.value) else NoJustification), q);
  }

  /** A commit leaves every vote in the past and records the state hash that was voted for. */
  lemma CommitKeepsVotes(c: Config, s: State, v: State, commit: Commit)
    requires VotesInOrder(c, s) && CommitsWhatItVotedFor(s) && !s.panicked && s.block.Some? && s.uow.Some?
    requires forall i :: 0 <= i < |s.sent| && IsVote(s.sent[i]) ==> s.sent[i].height <= s.height
    requires commit.height == s.height && commit.round == s.round && commit.computed == s.uow.value.computed
    requires v.sent == s.sent && v.height == s.height + 1 && v.round == 0 && v.step == NEWROUND && v.leaderId.None?
    requires v.commits == s.commits + [commit]
    ensures VotesInOrder(c, v) && CommitsWhatItVotedFor(v)
  {
    forall k, i | 0 <= k < |v.commits| && PrepareVote(v.sent, i, v.commits[k].height, v.commits[k].round)
      ensures v.sent[i].block.Some? && v.commits[k].computed == Some(v.sent[i].block.value.stateHash)
    {
      if k < |s.commits| {
        assert v.commits[k] == s.commits[k];
      }
    }
  }

  lemma CommitKeepsInv(c: Config, h0: nat, s: State, qc: QC, q: bool)
    requires Inv(c, h0, s, q) && !s.panicked && (q && s.uow.None? ==> Room(s))
    ensures Inv(c, h0, CommitBlock(s, qc), q)
  {
    hide VotesInOrder, CommitsWhatItVotedFor;
    PoolKeepsInv(c, h0, s, s.pool, q);
    if s.block.Some? {
      var block := s.block.value.(cert := Some(qc));
      var t := s.(block := Some(block));
      BlockCertKeepsInv(c, h0, s, qc, q);
      if t.uow.None? {
        InterruptKeepsInv(c, h0, t, q);
      } else {
        var commit := Commit(t.uow.value.height, t.round, block, t.uow.value.computed);
        var u := t.(uow := None, commits := t.commits + [commit]);
        var v := ResetRound(ResetRound(u, true).(height := s.height + 1), false).(uow := None, step := NEWROUND);
        if q { CommitKeepsVotes(c, s, v, commit); }
        assert Inv(c, h0, v, q);
        BroadcastKeepsInv(c, h0, v, Msg(PROPOSE, v.height, NEWROUND, v.round, None, NoJustification), q);
      }
    }
  }

  lemma BlockCertKeepsInv(c: Config, h0: nat, s: State, qc: QC, q: bool)
    requires Inv(c, h0, s, q) && s.block.Some?
    ensures Inv(c, h0, s.(block := Some(s.block.value.(cert := Some(qc)))), q)
  {
  }

  lemma VoteKeepsSticky(s: State, m: Msg)
    requires Sticky(s) && IsVote(m) && m.height == s.height && m.block == s.block && s.block.Some?
    ensures Sticky(Broadcast(s, m))
  {
    hide Led;
    SentGrows(s.sent, m);
  }

  lemma VoteKeepsOrder(c: Config, s: State, m: Msg)
    requires OneVotePerStep(s.sent) && AllBefore(s.sent, s.height, s.round, m.step)
    requires !s.panicked && 0 <= s.step && IsVote(m) && m.height == s.height && m.round == s.round && m.step < Bound(c, s)
    ensures VotesInOrder(c, Broadcast(s, m))
  {
  }

  lemma VoteKeepsCommits(h0: nat, s: State, m: Msg)
    requires CommitsWhatItVotedFor(s) && UowAndCommits(h0, s) && m.height == s.height && m.block == s.block
    requires m.step == PREPARE ==> Executed(s)
    ensures CommitsWhatItVotedFor(Broadcast(s, m))
  {
    SentGrows(s.sent, m);
  }

  /** Casting the vote of `step` is sound once all earlier votes lie before it and the node has moved on. */
  lemma VoteKeepsInv(c: Config, h0: nat, s: State, step: int, q: bool)
    requires Safe(h0, s) && !s.panicked && 0 <= s.step
    requires q ==> CommitsWhatItVotedFor(s) && OneVotePerStep(s.sent) && AllBefore(s.sent, s.height, s.round, step)
    requires q && s.leaderId.None? ==> AllBefore(s.sent, s.height, s.round, 0)
    requires s.leaderId.Some? ==> step < Bound(c, s)
    requires step == PREPARE ==> Executed(s)
    ensures Inv(c, h0, CastVote(c, s, step), q)
  {
    hide Sticky, CommitsWhatItVotedFor, OneVotePerStep;
    if s.block.Some? && s.leaderId.Some? {
      var m := VoteMsg(c, s, step, s.block.value);
      VoteKeepsSticky(s, m);
      if q {
        VoteKeepsOrder(c, s, m);
        VoteKeepsCommits(h0, s, m);
      }
    }
  }

  // ---------------------------------------------------------------- handlers

  /** The replica's handler of this message ends by interrupting the round. */
  predicate ReplicaInterrupts(c: Config, s: State, msg: Msg, env: Env) {
    && ValidMessageBlock(c, s, msg)
    && if msg.step == PREPARE then
         && msg.block.Some?
         && (ValidateProposal(c, s, msg).Rejected?
             || (ValidateProposal(c, s, msg).Accepted? && ApplyBlock(s, msg.block.value, env).AppliedError?))
       else if msg.step == DECIDE then !ValidCert(c, s, msg.Cert()) || (s.block.Some? && s.uow.None?)
       else (msg.step == PRECOMMIT || msg.step == COMMIT) && !ValidCert(c, s, msg.Cert())
  }

  /** The leader's handler of this message ends by interrupting the round. */
  predicate LeaderInterrupts(c: Config, s: State, msg: Msg, env: Env) {
    var ante := LeaderAnte(c, s, msg, env);
    && ante.Continue? && EnoughMessages(c, ante.s, msg.step)
    && if msg.step == NEWROUND then LeaderBlock(c, RefreshUow(c, ante.s), HighQC(Pool(ante.s, NEWROUND)), env).AppliedError?
       else
         && PREPARE <= msg.step <= COMMIT && QuorumCertificate(c, ante.s, msg.step).Some?
         && (s.block.None? || (msg.step == COMMIT && s.uow.None?))
  }

  predicate Interrupts(c: Config, s: State, msg: Msg, env: Env) {
    if IsLeader(c, s) then LeaderInterrupts(c, s, msg, env) else ReplicaInterrupts(c, s, msg, env)
  }

  /** A handler is entered at the step of its message, and with room if it is going to interrupt the round. */
  ghost predicate Entered(c: Config, h0: nat, s: State, msg: Msg, env: Env, q: bool) {
    Inv(c, h0, s, q) && !s.panicked && (q && Interrupts(c, s, msg, env) ==> Room(s)) && s.step == msg.step
  }

  lemma ReplicaPrepareKeepsInv(c: Config, h0: nat, s: State, msg: Msg, env: Env, q: bool)
    requires Entered(c, h0, s, msg, env, q) && !IsLeader(c, s) && msg.step == PREPARE
    ensures Inv(c, h0, ReplicaPrepare(c, s, msg, env), q)
  {
    if ValidMessageBlock(c, s, msg) && msg.block.Some? {
      if ValidateProposal(c, s, msg).Rejected? {
        InterruptKeepsInv(c, h0, s, q);
      } else if ValidateProposal(c, s, msg).Accepted? {
        var applied := ApplyBlock(s, msg.block.value, env);
        assert q ==> forall i :: !PrepareVote(s.sent, i, s.height, s.round);
        if applied.AppliedError? {
          InterruptKeepsInv(c, h0, applied.s, q);
        } else if applied.AppliedOk? {
          VoteKeepsInv(c, h0, applied.s.(block := msg.block, step := PRECOMMIT), PREPARE, q);
        }
      }
    }
  }

  lemma ReplicaKeepsInv(c: Config, h0: nat, s: State, msg: Msg, env: Env, q: bool)
    requires Entered(c, h0, s, msg, env, q) && !IsLeader(c, s)
    ensures Inv(c, h0, Dispatch(c, s, msg, env), q)
  {
    if msg.step == NEWROUND {
      assert q ==> forall i :: !PrepareVote(s.sent, i, s.height, s.round);
    } else if msg.step == PREPARE {
      ReplicaPrepareKeepsInv(c, h0, s, msg, env, q);
    } else if PRECOMMIT <= msg.step <= DECIDE && ValidMessageBlock(c, s, msg) {
      if !ValidCert(c, s, msg.Cert()) {
        InterruptKeepsInv(c, h0, s, q);
      } else if msg.step == PRECOMMIT {
        VoteKeepsInv(c, h0, s.(step := COMMIT, prepareQC := msg.Cert()), PRECOMMIT, q);
      } else if msg.step == COMMIT {
        VoteKeepsInv(c, h0, s.(step := DECIDE, lockedQC := msg.Cert()), COMMIT, q);
      } else if s.block.Some? {
        CommitKeepsInv(c, h0, s, msg.Cert().value, q);
      }
    }
  }

  /** Proposing a step and voting for it, with the node already moved to that step. */
  lemma ProposeKeepsInv(c: Config, h0: nat, s: State, step: int, qc: Option<QC>, q: bool)
    requires Safe(h0, s) && !s.panicked && IsLeader(c, s) && s.step == step >= 0
    requires q && s.block.None? ==> Room(s)
    requires q ==> CommitsWhatItVotedFor(s) && OneVotePerStep(s.sent)
    requires q ==> AllBefore(s.sent, s.height, s.round, step)
    requires step == PREPARE ==> Executed(s)
    ensures Inv(c, h0, Propose(c, s, step, qc, true), q)
  {
    if s.block.None? {
      InterruptKeepsInv(c, h0, s, q);
    } else {
      var m := ProposeMsg(s, step, s.block.value, qc);
      BroadcastKeepsInv(c, h0, s, m, q);
      VoteKeepsInv(c, h0, Broadcast(s, m), step, q);
    }
  }

  /** Assigning a leader block puts the height among those the node has led, so it may change the state hash. */
  lemma LeaderBlockKeepsInv(c: Config, h0: nat, s: State, t: State, qc: Option<QC>, q: bool)
    requires Inv(c, h0, s, q) && !s.panicked && s.step == NEWROUND && IsLeader(c, s)
    requires t.block.Some? && t.uow.Some? && t.uow.value.height == t.height && Executed(t)
    requires t == s.(block := t.block, uow := t.uow, pool := t.pool, step := PREPARE)
    ensures Inv(c, h0, Propose(c, t, PREPARE, qc, true), q)
  {
    var m := ProposeMsg(t, PREPARE, t.block.value, qc);
    var u := Broadcast(t, m);
    BroadcastKeepsInv(c, h0, s, m, q);
    assert u.sent == Broadcast(s, m).sent;
    assert u.sent[|s.sent|] == m;
    assert Led(u.sent, u.height);
    VoteKeepsInv(c, h0, u, PREPARE, q);
  }

  lemma RefreshKeepsInv(c: Config, h0: nat, s: State, q: bool)
    requires Inv(c, h0, s, q) && !s.panicked && s.step == NEWROUND
    ensures Inv(c, h0, RefreshUow(c, s), q)
  {
    assert q ==> forall i :: !PrepareVote(s.sent, i, s.height, s.round);
  }

  lemma LeaderNewRoundKeepsInv(c: Config, h0: nat, s: State, msg: Msg, env: Env, q: bool)
    requires Entered(c, h0, s, msg, env, q) && IsLeader(c, s) && msg.step == NEWROUND
    ensures Inv(c, h0, LeaderNewRound(c, s, msg, env), q)
  {
    hide HighQC, ValidMessageSignature, EnoughMessages, Safe, VotesInOrder, CommitsWhatItVotedFor;
    var ante := LeaderAnte(c, s, msg, env);
    PoolKeepsInv(c, h0, s, ante.s.pool, q);
    if ante.Continue? && EnoughMessages(c, ante.s, NEWROUND) {
      var high := HighQC(Pool(ante.s, NEWROUND));
      RefreshKeepsInv(c, h0, ante.s, q);
      var t := RefreshUow(c, ante.s);
      var made := LeaderBlock(c, t, high, env);
      PoolKeepsInv(c, h0, t, t.pool, q);
      if made.AppliedError? {
        ExecutionKeepsInv(c, h0, t, made.s, q);
        InterruptKeepsInv(c, h0, made.s, q);
      } else if made.AppliedOk? {
        LeaderBlockKeepsInv(c, h0, t, SetPool(made.s.(step := PREPARE), NEWROUND, []), high, q);
      }
    }
  }

  /** Before its Prepare vote a node may execute what it likes. */
  lemma ExecutionKeepsInv(c: Config, h0: nat, s: State, t: State, q: bool)
    requires Inv(c, h0, s, q) && !s.panicked && s.step == NEWROUND && t == s.(uow := t.uow)
    requires t.uow.Some? ==> t.uow.value.height == s.height
    ensures Inv(c, h0, t, q)
  {
    assert q ==> forall i :: !PrepareVote(s.sent, i, s.height, s.round);
  }

  /** The leader turns the votes collected for its step into the next proposal, or commits. */
  lemma LeaderAdvanceKeepsInv(c: Config, h0: nat, s: State, qc: QC, q: bool)
    requires Inv(c, h0, s, q) && !s.panicked && IsLeader(c, s)
    requires q && (s.block.None? || (s.step == COMMIT && s.uow.None?)) ==> Room(s)
    ensures s.step == PREPARE ==> Inv(c, h0, Propose(c, s.(step := PRECOMMIT, prepareQC := Some(qc)), PRECOMMIT, Some(qc), true), q)
    ensures s.step == PRECOMMIT ==> Inv(c, h0, Propose(c, s.(step := COMMIT, lockedQC := Some(qc)), COMMIT, Some(qc), true), q)
    ensures s.step == COMMIT && s.block.None? ==> Inv(c, h0, InterruptRound(s.(step := DECIDE)), q)
    ensures s.step == COMMIT && s.block.Some? ==> Inv(c, h0, CommitBlock(Propose(c, s.(step := DECIDE), DECIDE, Some(qc), false), qc), q)
  {
    if s.step == PREPARE {
      ProposeKeepsInv(c, h0, s.(step := PRECOMMIT, prepareQC := Some(qc)), PRECOMMIT, Some(qc), q);
    } else if s.step == PRECOMMIT {
      ProposeKeepsInv(c, h0, s.(step := COMMIT, lockedQC := Some(qc)), COMMIT, Some(qc), q);
    } else if s.step == COMMIT {
      var t := s.(step := DECIDE);
      assert Inv(c, h0, t, q);
      if s.block.None? {
        InterruptKeepsInv(c, h0, t, q);
      } else {
        BroadcastKeepsInv(c, h0, t, ProposeMsg(t, DECIDE, t.block.value, Some(qc)), q);
        CommitKeepsInv(c, h0, Propose(c, t, DECIDE, Some(qc), false), qc, q);
      }
    }
  }

  /** Neither storing a message nor draining a pool touches what the invariant speaks of. */
  lemma PoolKeepsInv(c: Config, h0: nat, s: State, pool: map<int, seq<Msg>>, q: bool)
    requires Inv(c, h0, s, q)
    ensures Inv(c, h0, s.(pool := pool), q) && Inv(c, h0, Panic(s), q) && Inv(c, h0, Panic(s.(pool := pool)), q)
  {
  }

  lemma LeaderKeepsInv(c: Config, h0: nat, s: State, msg: Msg, env: Env, q: bool)
    requires Entered(c, h0, s, msg, env, q) && IsLeader(c, s)
    ensures Inv(c, h0, Dispatch(c, s, msg, env), q)
  {
    hide LeaderNewRound, QuorumCertificate, EnoughMessages, ValidMessageSignature, Inv;
    if msg.step == NEWROUND {
      LeaderNewRoundKeepsInv(c, h0, s, msg, env, q);
    } else {
      InvOf(c, h0, s, msg, env, q);
      var ante := LeaderAnte(c, s, msg, env);
      PoolKeepsInv(c, h0, s, ante.s.pool, q);
      if PREPARE <= msg.step <= DECIDE && ante.Continue? {
        var u := SetPool(ante.s, msg.step, []);
        PoolKeepsInv(c, h0, s, u.pool, q);
        var qc := QuorumCertificate(c, ante.s, msg.step);
        if qc.Some? && EnoughMessages(c, ante.s, msg.step) && msg.step <= COMMIT {
          LeaderAdvanceKeepsInv(c, h0, u, qc.value, q);
        }
      }
    }
  }

  lemma InvOf(c: Config, h0: nat, s: State, msg: Msg, env: Env, q: bool)
    requires Entered(c, h0, s, msg, env, q)
    ensures Inv(c, h0, s, q)
  {
  }

  // ---------------------------------------------------------------- steps and runs

  /** The node that handles a delivered message: after the filter's catch-up and any election. */
  function Handling(c: Config, s: State, msg: Msg): Flow {
    var filtered := ShouldHandleMessage(c, s, msg);
    if filtered.Halted? then filtered else EnsureLeader(c, filtered.s, msg)
  }

  /**
   The step interrupts a round whose number is the largest one, so that the next round is 0. From
   the very start of round 0 this leads back to the same view, and nothing is lost.
   */
  predicate Wraps(c: Config, s: State, ev: Event) {
    && !s.panicked
    && match ev
       case Timeout => s.round == MAX_UINT64
       case Deliver(msg, env) =>
         && msg.round == MAX_UINT64 && !(s.round == 0 && s.step <= NEWROUND && s.leaderId.None?)
         && Handling(c, s, msg).Continue? && Interrupts(c, Handling(c, s, msg).s, msg, env)
  }

  /** Without a leader the node has not voted in its round, so any election is sound. */
  lemma ElectionKeepsInv(c: Config, h0: nat, s: State, msg: Msg, q: bool)
    requires Inv(c, h0, s.(leaderId := None), q) && !s.panicked && 0 <= s.step
    ensures Inv(c, h0, ElectNextLeader(c, s, msg).s, q)
    ensures ElectNextLeader(c, s, msg).Continue? ==> !ElectNextLeader(c, s, msg).s.panicked
  {
  }

  /** Catching up, for a message whose step survives the conversion to a byte. */
  lemma FilterKeepsInv(c: Config, h0: nat, s: State, msg: Msg, q: bool)
    requires Inv(c, h0, s, q) && !s.panicked && (q ==> 0 <= msg.step < 256)
    ensures Inv(c, h0, ShouldHandleMessage(c, s, msg).s, q)
    ensures ShouldHandleMessage(c, s, msg).Continue? ==>
      var t := ShouldHandleMessage(c, s, msg).s; !t.panicked && t.round == msg.round && (0 <= msg.step < 256 ==> t.step == msg.step)
  {
    if msg.height == s.height && (msg.round > s.round || (msg.round == s.round && msg.step > s.step)) {
      var t := s.(step := msg.step % 256, round := msg.round);
      if s.round != msg.round || s.leaderId.None? {
        assert Inv(c, h0, t.(leaderId := None), q);
        ElectionKeepsInv(c, h0, t, msg, q);
      } else {
        assert Inv(c, h0, t, q);
      }
    }
  }

  lemma UnknownStepHalted(c: Config, h0: nat, s: State, msg: Msg, q: bool)
    requires Inv(c, h0, s, q) && !s.panicked && ShouldHandleMessage(c, s, msg).Halted?
    ensures Inv(c, h0, ShouldHandleMessage(c, s, msg).s, q)
  {
    var u := ShouldHandleMessage(c, s, msg).s;
    if u != s {
      var t := s.(step := msg.step % 256, round := msg.round);
      assert Inv(c, h0, t.(leaderId := None), q);
    }
  }

  /** A message with a step that has no handler is dropped, fails its election or kills the process. */
  lemma UnknownStepKeepsInv(c: Config, h0: nat, s: State, msg: Msg, env: Env, q: bool)
    requires Inv(c, h0, s, q) && !s.panicked && !(NEWROUND <= msg.step <= DECIDE)
    ensures Inv(c, h0, HandleMessage(c, s, msg, env), q)
  {
    hide Dispatch;
    var filtered := ShouldHandleMessage(c, s, msg);
    if filtered.Halted? {
      UnknownStepHalted(c, h0, s, msg, q);
    } else {
      var u := HandleMessage(c, s, msg, env);
      UnknownStepPanics(c, EnsureLeader(c, filtered.s, msg).s, msg, env);
      assert u == s.(step := u.step, round := u.round, leaderId := u.leaderId, panicked := u.panicked);
    }
  }

  lemma UnknownStepPanics(c: Config, s: State, msg: Msg, env: Env)
    requires !(NEWROUND <= msg.step <= DECIDE)
    ensures Dispatch(c, s, msg, env) == Panic(s)
  {
  }

  lemma StepKeepsInv(c: Config, h0: nat, s: State, ev: Event, q: bool)
    requires Inv(c, h0, s, q) && (q ==> !Wraps(c, s, ev))
    ensures Inv(c, h0, Step(c, s, ev), q)
  {
    hide Interrupts;
    if s.panicked {
    } else if ev.Timeout? {
      InterruptKeepsInv(c, h0, s, q);
    } else if !(NEWROUND <= ev.msg.step <= DECIDE) {
      UnknownStepKeepsInv(c, h0, s, ev.msg, ev.env, q);
    } else {
      FilterKeepsInv(c, h0, s, ev.msg, q);
      var filtered := ShouldHandleMessage(c, s, ev.msg);
      if filtered.Continue? {
        ElectionKeepsInvIfNeeded(c, h0, filtered.s, ev.msg, q);
        var u := EnsureLeader(c, filtered.s, ev.msg);
        assert u.s.sent == s.sent && u.s.height == s.height;
        if u.Continue? {
          if IsLeader(c, u.s) {
            LeaderKeepsInv(c, h0, u.s, ev.msg, ev.env, q);
          } else {
            ReplicaKeepsInv(c, h0, u.s, ev.msg, ev.env, q);
          }
        }
      }
    }
  }

  lemma ElectionKeepsInvIfNeeded(c: Config, h0: nat, s: State, msg: Msg, q: bool)
    requires Inv(c, h0, s, q) && !s.panicked && 0 <= s.step
    ensures var e := EnsureLeader(c, s, msg);
      Inv(c, h0, e.s, q) && e.s.round == s.round && e.s.step == s.step && (e.Continue? ==> !e.s.panicked)
  {
    if s.step == NEWROUND && s.leaderId.None? {
      assert s.(leaderId := None) == s;
      ElectionKeepsInv(c, h0, s, msg, q);
    }
  }

  ghost predicate QuietRun(c: Config, h0: nat, evs: seq<Event>) {
    forall k :: 0 <= k < |evs| ==> !Wraps(c, Run(c, h0, evs[..k]), evs[k])
  }

  lemma QuietPrefix(c: Config, h0: nat, evs: seq<Event>, n: nat)
    requires QuietRun(c, h0, evs) && n <= |evs|
    ensures QuietRun(c, h0, evs[..n])
  {
    forall k | 0 <= k < n ensures evs[..n][..k] == evs[..k] {}
  }

  /** Every run keeps the invariant; its view-dependent part needs that no step wraps the round. */
  lemma {:induction false} RunKeepsInv(c: Config, h0: nat, evs: seq<Event>, q: bool)
    requires q ==> QuietRun(c, h0, evs)
    ensures Inv(c, h0, Run(c, h0, evs), q)
  {
    hide Wraps;
    if evs != [] {
      var n := |evs| - 1;
      if q { QuietPrefix(c, h0, evs, n); }
      RunKeepsInv(c, h0, evs[..n], q);
      StepKeepsInv(c, h0, Run(c, h0, evs[..n]), evs[n], q);
    }
  }

  // ---------------------------------------------------------------- order of views

  /**
   `t` is the same or a later view than `s`: a later round or height, or the same round with no
   earlier step and with the leader, once known, unchanged. A dead process is later than anything.
   */
  predicate Later(s: State, t: State) {
    || t.panicked
    || (!s.panicked &&
        (s.height < t.height
         || (s.height == t.height && s.round < t.round)
         || (s.height == t.height && s.round == t.round && s.step <= t.step && (s.leaderId.Some? ==> t.leaderId == s.leaderId))))
  }

  lemma LaterTransitive(s: State, t: State, u: State)
    requires Later(s, t) && Later(t, u)
    ensures Later(s, u)
  {
  }

  /** The start of a round: no leader, step NewRound. */
  predicate AtStartOf(t: State, h: nat, r: int) {
    !t.panicked && t.height == h && t.round == r && t.step == NEWROUND && t.leaderId.None?
  }

  lemma ReplicaView(c: Config, s: State, msg: Msg, env: Env)
    requires !s.panicked && s.step == msg.step && !IsLeader(c, s)
    ensures var t := Dispatch(c, s, msg, env);
      if ReplicaInterrupts(c, s, msg, env) then AtStartOf(t, s.height, NextRound(s.round)) else Later(s, t)
  {
    hide ValidCert, ValidMessageBlock;
  }

  lemma LeaderNewRoundView(c: Config, s: State, msg: Msg, env: Env)
    requires !s.panicked && s.step == msg.step == NEWROUND && IsLeader(c, s)
    ensures var t := LeaderNewRound(c, s, msg, env);
      if LeaderInterrupts(c, s, msg, env) then AtStartOf(t, s.height, NextRound(s.round)) else Later(s, t)
  {
    hide HighQC, ValidMessageSignature;
    var ante := LeaderAnte(c, s, msg, env);
    if ante.Continue? && EnoughMessages(c, ante.s, NEWROUND) {
      var t := RefreshUow(c, ante.s);
      var made := LeaderBlock(c, t, HighQC(Pool(ante.s, NEWROUND)), env);
      assert made.s == t.(block := made.s.block, uow := made.s.uow);
    }
  }

  lemma ProposeView(c: Config, s: State, step: int, qc: Option<QC>)
    requires !s.panicked
    ensures var t := Propose(c, s, step, qc, true);
      if s.block.None? then AtStartOf(t, s.height, NextRound(s.round)) else Later(s, t)
  {
  }

  lemma LeaderCommitView(c: Config, s: State, msg: Msg, env: Env)
    requires !s.panicked && s.step == msg.step == COMMIT && IsLeader(c, s)
    ensures var t := LeaderCommit(c, s, msg, env);
      if LeaderInterrupts(c, s, msg, env) then AtStartOf(t, s.height, NextRound(s.round)) else Later(s, t)
  {
    hide QuorumCertificate, EnoughMessages, CommitBlock, SetPool;
    AnteKeepsView(c, s, msg, env);
    var ante := LeaderAnte(c, s, msg, env);
    hide LeaderAnte;
    if ante.Continue? {
      var qc := QuorumCertificate(c, ante.s, COMMIT);
      PoolKeepsView(ante.s, COMMIT);
      if qc.Some? && ante.s.block.Some? {
        CommitView(Propose(c, SetPool(ante.s, COMMIT, []).(step := DECIDE), DECIDE, qc, false), qc.value);
      }
    }
  }

  /** Everything but the pool of messages stays, unless the node panics. */
  lemma AnteKeepsView(c: Config, s: State, msg: Msg, env: Env)
    ensures var t := LeaderAnte(c, s, msg, env).s; t == s.(pool := t.pool, panicked := t.panicked)
    ensures LeaderAnte(c, s, msg, env).Continue? ==> LeaderAnte(c, s, msg, env).s.panicked == s.panicked
  {
    hide ValidMessageSignature, ValidMessageBlock;
  }

  lemma PoolKeepsView(s: State, step: int)
    ensures var t := SetPool(s, step, []); t == s.(pool := t.pool)
  {
  }

  lemma CommitView(s: State, qc: QC)
    requires !s.panicked && s.block.Some?
    ensures var t := CommitBlock(s, qc);
      if s.uow.None? then AtStartOf(t, s.height, NextRound(s.round)) else s.height < t.height && !t.panicked
  {
  }

  lemma LeaderView(c: Config, s: State, msg: Msg, env: Env)
    requires !s.panicked && s.step == msg.step && IsLeader(c, s)
    ensures var t := Dispatch(c, s, msg, env);
      if LeaderInterrupts(c, s, msg, env) then AtStartOf(t, s.height, NextRound(s.round)) else Later(s, t)
  {
    hide LeaderNewRound, LeaderCommit, Propose, QuorumCertificate, EnoughMessages;
    if msg.step == NEWROUND {
      LeaderNewRoundView(c, s, msg, env);
    } else if PREPARE <= msg.step <= PRECOMMIT {
      var ante := LeaderAnte(c, s, msg, env);
      var qc := QuorumCertificate(c, ante.s, msg.step);
      var u := SetPool(ante.s, msg.step, []);
      if ante.Continue? {
        ProposeView(c, u.(step := PRECOMMIT, prepareQC := qc), PRECOMMIT, qc);
        ProposeView(c, u.(step := COMMIT, lockedQC := qc), COMMIT, qc);
      }
    } else if msg.step == COMMIT {
      LeaderCommitView(c, s, msg, env);
    }
  }

  /**
   A leaderless node catches up within its round to a step above 255 and then fails to elect a
   leader: the step was cut to a byte, and nothing else happens.
   */
  predicate Stumbles(c: Config, s: State, ev: Event) {
    && !s.panicked && ev.Deliver?
    && var msg := ev.msg;
       && msg.height == s.height && msg.round == s.round && s.step < msg.step && msg.step % 256 < s.step
       && s.leaderId.None? && c.validators(s.height) != []
       && ElectedId(msg.height, msg.round, msg.step, |c.validators(s.height)|) < 0
  }

  /** Catching up and electing, short of handling the message. */
  lemma HandlingView(c: Config, s: State, msg: Msg)
    requires !s.panicked && 0 <= s.step
    ensures var f := Handling(c, s, msg);
      && f.s.height == s.height && (f.Continue? ==> !f.s.panicked && f.s.round == msg.round >= s.round)
      && (f.Continue? && 0 <= msg.step < 256 ==> Later(s, f.s) && f.s.step == msg.step)
      && (f.Halted? ==> (Later(s, f.s) <==> !Stumbles(c, s, Deliver(msg, Env(None, None, false, false)))))
      && (f.Continue? ==> !Stumbles(c, s, Deliver(msg, Env(None, None, false, false))))
  {
    hide ElectedId;
    if msg.height == s.height && c.validators(s.height) != [] {
      ElectedAtMost(msg.height, msg.round, msg.step, |c.validators(s.height)|);
    }
  }

  lemma ElectedAtMost(height: nat, round: uint64, step: int, n: int)
    requires n > 0
    ensures ElectedId(height, round, step, n) <= n
  {
  }

  /** One step, message or timeout, goes back to an earlier view exactly when it wraps the round or stumbles. */
  lemma StepLaterIff(c: Config, s: State, ev: Event)
    requires s.panicked || 0 <= s.step
    ensures Later(s, Step(c, s, ev)) <==> !Wraps(c, s, ev) && !Stumbles(c, s, ev)
  {
    hide Interrupts, Handling;
    if !s.panicked && ev.Deliver? {
      var msg := ev.msg;
      var f := Handling(c, s, msg);
      HandlingView(c, s, msg);
      StepIsDispatch(c, s, msg, ev.env);
      if f.Continue? {
        if NEWROUND <= msg.step <= DECIDE {
          DispatchLaterIff(c, s, f.s, msg, ev.env);
        } else {
          UnknownNeverInterrupts(c, f.s, msg, ev.env);
        }
      }
    }
  }

  lemma StepIsDispatch(c: Config, s: State, msg: Msg, env: Env)
    requires !s.panicked
    ensures var f := Handling(c, s, msg);
      Step(c, s, Deliver(msg, env)) == if f.Halted? then f.s else Dispatch(c, f.s, msg, env)
  {
    hide Dispatch;
  }

  lemma UnknownNeverInterrupts(c: Config, s: State, msg: Msg, env: Env)
    requires !(NEWROUND <= msg.step <= DECIDE)
    ensures !Interrupts(c, s, msg, env) && Dispatch(c, s, msg, env).panicked
  {
  }

  lemma DispatchLaterIff(c: Config, s: State, u: State, msg: Msg, env: Env)
    requires !s.panicked && !u.panicked && Later(s, u) && u.height == s.height && u.step == msg.step && u.round == msg.round
    ensures Later(s, Dispatch(c, u, msg, env)) <==>
      !(msg.round == MAX_UINT64 && Interrupts(c, u, msg, env) && !(s.round == 0 && s.step <= NEWROUND && s.leaderId.None?))
  {
    hide LeaderInterrupts, ReplicaInterrupts, Dispatch;
    if IsLeader(c, u) {
      LeaderView(c, u, msg, env);
    } else {
      ReplicaView(c, u, msg, env);
    }
    if !Interrupts(c, u, msg, env) {
      LaterTransitive(s, u, Dispatch(c, u, msg, env));
    }
  }

  // ---------------------------------------------------------------- nothing is taken back

  /** `t` has sent and committed what `s` had, and at most one commit more. */
  predicate Extends(s: State, t: State) {
    s.sent <= t.sent && s.commits <= t.commits && |t.commits| <= |s.commits| + 1
  }

  lemma RoundEndExtends()
    ensures forall s: State {:trigger InterruptRound(s)} :: s.sent <= InterruptRound(s).sent && InterruptRound(s).commits == s.commits
    ensures forall s, qc {:trigger CommitBlock(s, qc)} :: Extends(s, CommitBlock(s, qc))
    ensures forall c, s: State, step, qc, votes {:trigger Propose(c, s, step, qc, votes)} ::
      s.sent <= Propose(c, s, step, qc, votes).sent && Propose(c, s, step, qc, votes).commits == s.commits
    ensures forall c, s: State, step {:trigger CastVote(c, s, step)} :: s.sent <= CastVote(c, s, step).sent && CastVote(c, s, step).commits == s.commits
  {
  }

  lemma OpenRoundExtends(c: Config, s: State, high: Option<QC>, env: Env)
    ensures Extends(s, OpenRound(c, s, high, env))
  {
    hide InterruptRound, Propose;
    RoundEndExtends();
    var t := RefreshUow(c, s);
    var made := LeaderBlock(c, t, high, env);
    assert made.s == t.(block := made.s.block, uow := made.s.uow);
  }

  lemma ReplicaExtends(c: Config, s: State, msg: Msg, env: Env)
    requires !IsLeader(c, s)
    ensures Extends(s, Dispatch(c, s, msg, env))
  {
    hide InterruptRound, CommitBlock, CastVote;
    RoundEndExtends();
  }

  lemma AnteExtends(c: Config, s: State, msg: Msg, env: Env)
    ensures LeaderAnte(c, s, msg, env).s.sent == s.sent && LeaderAnte(c, s, msg, env).s.commits == s.commits
  {
  }

  lemma LeaderExtends(c: Config, s: State, msg: Msg, env: Env)
    requires IsLeader(c, s)
    ensures Extends(s, Dispatch(c, s, msg, env))
  {
    hide InterruptRound, CommitBlock, Propose, OpenRound, QuorumCertificate, HighQC, LeaderAnte, EnoughMessages;
    RoundEndExtends();
    AnteExtends(c, s, msg, env);
    var ante := LeaderAnte(c, s, msg, env);
    OpenRoundExtends(c, ante.s, HighQC(Pool(ante.s, NEWROUND)), env);
  }

  lemma DispatchExtends(c: Config, s: State, msg: Msg, env: Env)
    ensures Extends(s, Dispatch(c, s, msg, env))
  {
    hide Dispatch;
    if IsLeader(c, s) {
      LeaderExtends(c, s, msg, env);
    } else {
      ReplicaExtends(c, s, msg, env);
    }
  }

  /** A step only adds to what was sent and committed, and commits at most once. */
  lemma StepExtends(c: Config, s: State, ev: Event)
    ensures Extends(s, Step(c, s, ev))
  {
    hide Dispatch, Handling;
    RoundEndExtends();
    if !s.panicked && ev.Deliver? {
      StepIsDispatch(c, s, ev.msg, ev.env);
      HandlingExtends(c, s, ev.msg);
      DispatchExtends(c, Handling(c, s, ev.msg).s, ev.msg, ev.env);
    }
  }

  lemma HandlingExtends(c: Config, s: State, msg: Msg)
    ensures Handling(c, s, msg).s.sent == s.sent && Handling(c, s, msg).s.commits == s.commits
  {
  }

  // ---------------------------------------------------------------- main results

  ghost predicate Monotone(c: Config, h0: nat, evs: seq<Event>) {
    forall i, j :: 0 <= i < j <= |evs| ==> Later(Run(c, h0, evs[..i]), Run(c, h0, evs[..j]))
  }

  lemma RunStepLaterIff(c: Config, h0: nat, evs: seq<Event>, k: nat)
    requires k < |evs|
    ensures var s := Run(c, h0, evs[..k]);
      Later(s, Run(c, h0, evs[..k + 1])) <==> !Wraps(c, s, evs[k]) && !Stumbles(c, s, evs[k])
  {
    hide Step, Later, Wraps, Stumbles;
    assert evs[..k + 1][..k] == evs[..k];
    RunKeepsInv(c, h0, evs[..k], false);
    StepLaterIff(c, Run(c, h0, evs[..k]), evs[k]);
  }

  /**
   In a run the view (height, round, step) of a live node never decreases and its role is fixed
   within a round, if and only if no step of it wraps the round counter or stumbles.
   */
  lemma ViewsNeverDecreaseIff(c: Config, h0: nat, evs: seq<Event>)
    ensures Monotone(c, h0, evs) <==>
      forall k :: 0 <= k < |evs| ==> !Wraps(c, Run(c, h0, evs[..k]), evs[k]) && !Stumbles(c, Run(c, h0, evs[..k]), evs[k])
  {
    hide Wraps, Stumbles, Later;
    if Monotone(c, h0, evs) {
      forall k | 0 <= k < |evs|
        ensures !Wraps(c, Run(c, h0, evs[..k]), evs[k]) && !Stumbles(c, Run(c, h0, evs[..k]), evs[k])
      {
        RunStepLaterIff(c, h0, evs, k);
        assert Later(Run(c, h0, evs[..k]), Run(c, h0, evs[..k + 1]));
      }
    } else {
      var i, j :| 0 <= i < j <= |evs| && !Later(Run(c, h0, evs[..i]), Run(c, h0, evs[..j]));
      if forall k :: 0 <= k < |evs| ==> !Wraps(c, Run(c, h0, evs[..k]), evs[k]) && !Stumbles(c, Run(c, h0, evs[..k]), evs[k]) {
        StepsChain(c, h0, evs, i, j);
      }
    }
  }

  lemma {:induction false} StepsChain(c: Config, h0: nat, evs: seq<Event>, i: nat, j: nat)
    requires i < j <= |evs|
    requires forall k :: 0 <= k < |evs| ==> !Wraps(c, Run(c, h0, evs[..k]), evs[k]) && !Stumbles(c, Run(c, h0, evs[..k]), evs[k])
    ensures Later(Run(c, h0, evs[..i]), Run(c, h0, evs[..j]))
    decreases j - i
  {
    hide Wraps, Stumbles, Later, Step;
    RunStepLaterIff(c, h0, evs, j - 1);
    if i < j - 1 {
      StepsChain(c, h0, evs, i, j - 1);
      LaterTransitive(Run(c, h0, evs[..i]), Run(c, h0, evs[..j - 1]), Run(c, h0, evs[..j]));
    }
  }

  /** In a quiet run a node, leader or replica, casts at most one vote per height, round and step. */
  lemma AtMostOneVotePerStep(c: Config, h0: nat, evs: seq<Event>)
    requires QuietRun(c, h0, evs)
    ensures OneVotePerStep(Run(c, h0, evs).sent)
  {
    RunKeepsInv(c, h0, evs, true);
  }

  /** In every run a node that did not lead a height votes for a single state hash at that height. */
  lemma OneStateHashPerHeight(c: Config, h0: nat, evs: seq<Event>, i: nat, j: nat)
    requires var sent := Run(c, h0, evs).sent;
      && i < |sent| && j < |sent| && IsVote(sent[i]) && IsVote(sent[j])
      && sent[i].height == sent[j].height && !Led(sent, sent[i].height)
    ensures var sent := Run(c, h0, evs).sent;
      && sent[i].block.Some? && sent[j].block.Some?
      && sent[i].block.value.stateHash == sent[j].block.value.stateHash
  {
    RunKeepsInv(c, h0, evs, false);
    var sent := Run(c, h0, evs).sent;
    assert VoteFor(sent, i, sent[i].height) && VoteFor(sent, j, sent[i].height);
  }

  /** In every run commits happen at consecutive heights, once each, and a held unit of work is of the current height. */
  lemma CommitsAreConsecutive(c: Config, h0: nat, evs: seq<Event>)
    ensures var s := Run(c, h0, evs);
      && (s.uow.Some? ==> s.uow.value.height == s.height)
      && s.height == h0 + |s.commits|
      && forall k :: 0 <= k < |s.commits| ==> s.commits[k].height == h0 + k
  {
    RunKeepsInv(c, h0, evs, false);
  }

  /** In a quiet run a commit in a round where the node voted Prepare is of the state hash that it voted for. */
  lemma QuietCommitMatchesVote(c: Config, h0: nat, evs: seq<Event>, k: nat, i: nat)
    requires QuietRun(c, h0, evs)
    requires var s := Run(c, h0, evs); k < |s.commits| && PrepareVote(s.sent, i, s.commits[k].height, s.commits[k].round)
    ensures var s := Run(c, h0, evs);
      s.sent[i].block.Some? && s.commits[k].computed == Some(s.sent[i].block.value.stateHash)
  {
    RunKeepsInv(c, h0, evs, true);
  }
}
