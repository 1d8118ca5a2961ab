/** What stands behind a commit in every run: the certificate it was made under and the votes before it. */
module ConsensusCommits {
  import opened Common
  import opened ConsensusTypes
  import opened ConsensusSpec
  import opened ConsensusRuns
  import opened LeaderElection

  // ---------------------------------------------------------------- certificates of commits

  /** A validator's signature over a payload of height `h` with this state hash. */
  predicate Backs(vals: seq<Address>, h: nat, hash: string, sig: PartialSig) {
    && sig.address in vals && sig.signature.Signed? && sig.signature.signer == sig.address
    && sig.signature.payload.height == h && sig.signature.payload.block.Some?
    && sig.signature.payload.block.value.stateHash == hash
  }

  /** A Propose message that carries a partial signature like a Commit vote: it is pooled without a check. */
  predicate Smuggles(m: Msg, h: nat, r: int, sig: PartialSig) {
    m.kind == PROPOSE && m.step == COMMIT && m.height == h && m.round == r && m.PartialSignature() == Some(sig)
  }

  /** No such message of this height and round is among those received. */
  ghost predicate NothingSmuggled(seen: set<Msg>, h: nat, r: int) {
    forall m :: m in seen ==> !(m.kind == PROPOSE && m.step == COMMIT && m.height == h && m.round == r && m.PartialSignature().Some?)
  }

  ghost predicate Smuggled(seen: set<Msg>, h: nat, r: int, sig: PartialSig) {
    exists m :: m in seen && Smuggles(m, h, r, sig)
  }

  /** Each signature backs the state hash, except that the first can have been smuggled in. */
  ghost predicate BackedButFirst(vals: seq<Address>, h: nat, r: int, hash: string, sigs: seq<PartialSig>, seen: set<Msg>) {
    forall i :: 0 <= i < |sigs| && !Backs(vals, h, hash, sigs[i]) ==> i == 0 && Smuggled(seen, h, r, sigs[i])
  }

  /** The certificate of a commit that the node made as leader, out of messages it has received. */
  ghost predicate Built(vals: seq<Address>, x: Commit, qc: QC, seen: set<Msg>) {
    && qc.height == x.height && qc.round == x.round && qc.step == COMMIT
    && qc.block.Some? && qc.block.value.stateHash == x.block.stateHash
    && ThresholdMet(|qc.sigs|, |vals|)
    && BackedButFirst(vals, x.height, x.round, x.block.stateHash, qc.sigs, seen)
  }

  /** The certificate of a commit passed validation at the commit's height, or the node built it. */
  ghost predicate Certified(c: Config, x: Commit, seen: set<Msg>) {
    && x.block.cert.Some?
    && var vals, qc := c.validators(x.height), x.block.cert.value;
       ValidQC(vals, qc) || Built(vals, x, qc, seen)
  }

  // ---------------------------------------------------------------- votes since the last NewRound message

  ghost predicate NoNewRound(sent: seq<Msg>, i: int, j: int) {
    forall m :: 0 <= m < |sent| && i < m < j ==> sent[m].step != NEWROUND
  }

  /** A vote after which the node has not sent a NewRound message. */
  ghost predicate OpenVote(sent: seq<Msg>, i: int) {
    0 <= i < |sent| && IsVote(sent[i]) && NoNewRound(sent, i, |sent|)
  }

  /** A Prepare vote and the first NewRound message after it. */
  ghost predicate ClosedVote(sent: seq<Msg>, i: int, j: int) {
    0 <= i < j < |sent| && IsVote(sent[i]) && sent[i].step == PREPARE && NoNewRound(sent, i, j) && sent[j].step == NEWROUND
  }

  predicate SameView(m: Msg, n: Msg) {
    m.height == n.height && m.round == n.round && m.step == n.step
  }

  /** Between two votes of one view the node has sent a NewRound message. */
  ghost predicate Separated(sent: seq<Msg>) {
    forall i, j :: 0 <= i < j < |sent| && IsVote(sent[i]) && IsVote(sent[j]) && SameView(sent[i], sent[j]) ==> !NoNewRound(sent, i, j)
  }

  predicate ExecutedFor(s: State, m: Msg) {
    Executed(s) && m.block.Some? && m.block.value.stateHash == s.block.value.stateHash
  }

  /** Open votes are of this height; those of this round are below step `b`, and a Prepare vote is for the executed block. */
  ghost predicate OpenBelow(s: State, b: int) {
    forall i :: OpenVote(s.sent, i) ==>
      && s.sent[i].height == s.height && s.sent[i].round <= s.round
      && (s.sent[i].round == s.round ==> s.sent[i].step < b && (s.sent[i].step == PREPARE ==> ExecutedFor(s, s.sent[i])))
  }

  ghost predicate VotesKept(c: Config, s: State) {
    Separated(s.sent) && (!s.panicked ==> OpenBelow(s, Bound(c, s)))
  }

  /** The commit ended the round of the vote: the next NewRound message is of the next height. */
  predicate EndedBy(x: Commit, vote: Msg, next: Msg) {
    vote.height == x.height && vote.round == x.round && next.height == x.height + 1
  }

  ghost predicate CommitsKept(c: Config, s: State, seen: set<Msg>) {
    && (forall i :: 0 <= i < |s.sent| ==> s.sent[i].height <= s.height)
    && (forall k :: 0 <= k < |s.commits| ==> Certified(c, s.commits[k], seen))
    && (forall k, i, j :: 0 <= k < |s.commits| && ClosedVote(s.sent, i, j) && EndedBy(s.commits[k], s.sent[i], s.sent[j]) ==>
          s.sent[i].block.Some? && s.commits[k].computed == Some(s.sent[i].block.value.stateHash))
  }

  // ---------------------------------------------------------------- the pool

  predicate SameHash(a: Option<Block>, b: Option<Block>) {
    a.Some? && b.Some? && a.value.stateHash == b.value.stateHash
  }

  /** A pooled message was received and checked; one of this round beyond NewRound is about the node's block. */
  ghost predicate Pooled(c: Config, s: State, seen: set<Msg>, k: int, m: Msg) {
    && m in seen && m.step == k && ValidMessageSignature(c, s, m) && m.round <= s.round
    && (k > NEWROUND && m.round == s.round ==> IsLeader(c, s) && k <= s.step && (s.block.Some? ==> SameHash(m.block, s.block)))
  }

  /** Only the first message of this round in a pool can be a Propose message: the one that made the node leader. */
  predicate ProposeFirst(s: State, msgs: seq<Msg>) {
    forall i, j :: 0 <= i < j < |msgs| && msgs[i].round == s.round && msgs[j].round == s.round ==> msgs[j].kind != PROPOSE
  }

  ghost predicate PoolKept(c: Config, s: State, seen: set<Msg>) {
    && (forall k, i :: k in s.pool && 0 <= i < |s.pool[k]| ==> Pooled(c, s, seen, k, s.pool[k][i]))
    && (forall k :: k in s.pool && k > NEWROUND ==> ProposeFirst(s, s.pool[k]))
  }

  ghost predicate Kept(c: Config, h0: nat, s: State, seen: set<Msg>) {
    && UowAndCommits(h0, s) && VotesKept(c, s) && CommitsKept(c, s, seen)
    && (!s.panicked ==> PoolKept(c, s, seen))
  }

  lemma SeenGrows(c: Config, h0: nat, s: State, seen: set<Msg>, msg: Msg)
    requires Kept(c, h0, s, seen)
    ensures Kept(c, h0, s, seen + {msg})
  {
    forall k | 0 <= k < |s.commits| ensures Certified(c, s.commits[k], seen + {msg}) {
      CertifiedGrows(c, s.commits[k], seen, msg);
    }
  }

  lemma CertifiedGrows(c: Config, x: Commit, seen: set<Msg>, msg: Msg)
    requires Certified(c, x, seen)
    ensures Certified(c, x, seen + {msg})
  {
    forall sig | Smuggled(seen, x.height, x.round, sig) ensures Smuggled(seen + {msg}, x.height, x.round, sig) {
      var m :| m in seen && Smuggles(m, x.height, x.round, sig);
      assert m in seen + {msg};
    }
  }

  // ---------------------------------------------------------------- sending

  /** What a further message does to open and closed votes. */
  lemma SentMore(sent: seq<Msg>, m: Msg)
    ensures forall i :: i < |sent| && OpenVote(sent + [m], i) ==> OpenVote(sent, i) && m.step != NEWROUND
    ensures forall i, j :: j < |sent| && ClosedVote(sent + [m], i, j) ==> ClosedVote(sent, i, j)
    ensures forall i :: ClosedVote(sent + [m], i, |sent|) ==> OpenVote(sent, i) && m.step == NEWROUND
    ensures forall i, j {:trigger NoNewRound(sent + [m], i, j)} :: j <= |sent| ==> NoNewRound(sent + [m], i, j) == NoNewRound(sent, i, j)
  {
    var all := sent + [m];
    assert forall i :: 0 <= i < |sent| ==> all[i] == sent[i];
    forall i, j | j <= |sent| ensures NoNewRound(all, i, j) == NoNewRound(sent, i, j) {
      if NoNewRound(all, i, j) {
        forall n | 0 <= n < |sent| && i < n < j ensures sent[n].step != NEWROUND {
          assert all[n] == sent[n];
        }
      }
    }
    forall i | i < |sent| && OpenVote(all, i) ensures OpenVote(sent, i) && m.step != NEWROUND {
      assert all[|sent|] == m;
      assert NoNewRound(all, i, |sent|);
    }
  }

  lemma SeparatedMore(sent: seq<Msg>, m: Msg)
    requires Separated(sent)
    requires IsVote(m) ==> forall i :: OpenVote(sent, i) ==> !SameView(sent[i], m)
    ensures Separated(sent + [m])
  {
    var all := sent + [m];
    SentMore(sent, m);
    forall i, j | 0 <= i < j < |all| && IsVote(all[i]) && IsVote(all[j]) && SameView(all[i], all[j])
      ensures !NoNewRound(all, i, j)
    {
      assert all[i] == sent[i];
      if j == |sent| && NoNewRound(all, i, j) {
        assert NoNewRound(sent, i, |sent|);
        assert OpenVote(sent, i);
      }
    }
  }

  /** Neither a proposal nor a vote closes a vote. */
  lemma CommitsMore(c: Config, s: State, m: Msg, seen: set<Msg>)
    requires CommitsKept(c, s, seen) && m.step != NEWROUND && m.height == s.height
    ensures CommitsKept(c, Broadcast(s, m), seen)
  {
    hide Certified;
    SentMore(s.sent, m);
  }

  lemma ProposalKeepsVotes(s: State, m: Msg, b: int)
    requires Separated(s.sent) && OpenBelow(s, b) && !IsVote(m)
    ensures Separated(Broadcast(s, m).sent) && OpenBelow(Broadcast(s, m), b)
  {
    SentMore(s.sent, m);
    SeparatedMore(s.sent, m);
  }

  lemma VoteKeepsVotes(c: Config, s: State, m: Msg)
    requires Separated(s.sent) && OpenBelow(s, m.step) && IsVote(m)
    requires m.height == s.height && m.round == s.round && m.block == s.block && s.block.Some?
    requires m.step < Bound(c, s) && (m.step == PREPARE ==> Executed(s))
    ensures VotesKept(c, Broadcast(s, m))
  {
    SentMore(s.sent, m);
    SeparatedMore(s.sent, m);
  }

  /** Casting the vote of `step`, once all open votes of the round are below it and the node has moved on. */
  lemma CastKeeps(c: Config, h0: nat, s: State, step: int, seen: set<Msg>)
    requires UowAndCommits(h0, s) && CommitsKept(c, s, seen) && PoolKept(c, s, seen) && !s.panicked
    requires Separated(s.sent) && OpenBelow(s, step) && step != NEWROUND
    requires s.leaderId.None? ==> OpenBelow(s, 0)
    requires s.leaderId.Some? ==> step < Bound(c, s)
    requires step == PREPARE ==> Executed(s)
    ensures Kept(c, h0, CastVote(c, s, step), seen)
  {
    hide CommitsKept, Separated;
    if s.block.Some? && s.leaderId.Some? {
      var m := VoteMsg(c, s, step, s.block.value);
      VoteKeepsVotes(c, s, m);
      CommitsMore(c, s, m, seen);
    } else if s.leaderId.Some? {
      assert OpenBelow(s, Bound(c, s));
    }
  }

  /** A NewRound message of the current height closes every vote, and none of a committed height. */
  lemma NewRoundKeeps(c: Config, h0: nat, s: State, t: State, m: Msg, b: int, seen: set<Msg>)
    requires UowAndCommits(h0, s) && Separated(s.sent) && OpenBelow(s, b) && CommitsKept(c, s, seen)
    requires t.sent == s.sent + [m] && m.step == NEWROUND && !IsVote(m) && t.commits == s.commits && m.height == s.height == t.height
    ensures VotesKept(c, t) && CommitsKept(c, t, seen)
  {
    hide Certified;
    SentMore(s.sent, m);
    SeparatedMore(s.sent, m);
    assert forall i :: !OpenVote(t.sent, i);
    forall k, i, j | 0 <= k < |t.commits| && ClosedVote(t.sent, i, j) && EndedBy(t.commits[k], t.sent[i], t.sent[j])
      ensures t.sent[i].block.Some? && t.commits[k].computed == Some(t.sent[i].block.value.stateHash)
    {
      assert j < |s.sent| || OpenVote(s.sent, i);
    }
  }

  lemma InterruptKeeps(c: Config, h0: nat, s: State, b: int, seen: set<Msg>)
    requires UowAndCommits(h0, s) && Separated(s.sent) && OpenBelow(s, b) && CommitsKept(c, s, seen)
    ensures Kept(c, h0, InterruptRound(s), seen)
  {
    hide CommitsKept, VotesKept, Separated, OpenBelow;
    var t := InterruptRound(s);
    NewRoundKeeps(c, h0, s, t, t.sent[|s.sent|], b, seen);
  }

  /** The commit of the current view comes after its open votes and is of the executed block. */
  lemma CommitKeeps(c: Config, h0: nat, s: State, qc: QC, b: int, seen: set<Msg>)
    requires UowAndCommits(h0, s) && Separated(s.sent) && OpenBelow(s, b) && CommitsKept(c, s, seen)
    requires s.block.Some? ==> Certified(c, Commit(s.height, s.round, s.block.value.(cert := Some(qc)), None), seen)
    ensures Kept(c, h0, CommitBlock(s, qc), seen)
  {
    hide Separated, Certified;
    if s.block.Some? {
      var block := s.block.value.(cert := Some(qc));
      var t := s.(block := Some(block));
      if s.uow.None? {
        assert OpenBelow(t, b);
        InterruptKeeps(c, h0, t, b, seen);
      } else {
        CommittedKeeps(c, h0, s, qc, b, seen);
      }
    }
  }

  lemma CommittedKeeps(c: Config, h0: nat, s: State, qc: QC, b: int, seen: set<Msg>)
    requires UowAndCommits(h0, s) && Separated(s.sent) && OpenBelow(s, b) && CommitsKept(c, s, seen)
    requires s.block.Some? && s.uow.Some?
    requires Certified(c, Commit(s.height, s.round, s.block.value.(cert := Some(qc)), None), seen)
    ensures Kept(c, h0, CommitBlock(s, qc), seen)
  {
    var t := CommitBlock(s, qc);
    var m, x := t.sent[|s.sent|], t.commits[|s.commits|];
    SentMore(s.sent, m);
    SeparatedMore(s.sent, m);
    assert t.sent == s.sent + [m] && t.commits == s.commits + [x];
    assert forall i :: !OpenVote(t.sent, i);
    CertifiedIgnoresResult(c, x, None, seen);
    hide Certified;
    forall k, i, j | 0 <= k < |t.commits| && ClosedVote(t.sent, i, j) && EndedBy(t.commits[k], t.sent[i], t.sent[j])
      ensures t.sent[i].block.Some? && t.commits[k].computed == Some(t.sent[i].block.value.stateHash)
    {
      if j < |s.sent| {
        assert ClosedVote(s.sent, i, j);
        assert s.sent[j].height <= s.height;
      } else {
        assert OpenVote(s.sent, i);
      }
    }
  }

  lemma CertifiedIgnoresResult(c: Config, x: Commit, computed: Option<string>, seen: set<Msg>)
    ensures Certified(c, x, seen) <==> Certified(c, x.(computed := computed), seen)
  {
  }

  // ---------------------------------------------------------------- handlers

  /** The same messages sent and commits made, at the same height. */
  predicate SameRecord(s: State, t: State) {
    t.sent == s.sent && t.commits == s.commits && t.height == s.height
  }

  lemma RecordKept(c: Config, s: State, t: State, seen: set<Msg>)
    requires CommitsKept(c, s, seen) && SameRecord(s, t)
    ensures CommitsKept(c, t, seen)
  {
    hide Certified;
  }

  /** Moving on within a round, with the block and its execution kept or without a Prepare vote to keep them for. */
  lemma MovedOn(s: State, t: State, b: int, b': int)
    requires OpenBelow(s, b) && SameRecord(s, t) && t.round == s.round && b <= b'
    requires b <= PREPARE || (t.block == s.block && t.uow == s.uow)
    ensures OpenBelow(t, b')
  {
  }

  lemma PoolMovedOn(c: Config, s: State, t: State, seen: set<Msg>)
    requires PoolKept(c, s, seen) && t.pool == s.pool && t.height == s.height && t.round == s.round && t.leaderId == s.leaderId
    requires s.step <= t.step && (t.block == s.block || !IsLeader(c, s) || s.step <= NEWROUND)
    ensures PoolKept(c, t, seen)
  {
  }

  /** A Propose message beyond NewRound finds no pooled message of its round. */
  predicate NoneOfRound(s: State, msg: Msg) {
    msg.kind == PROPOSE && msg.step > NEWROUND ==> forall i :: 0 <= i < |Pool(s, msg.step)| ==> Pool(s, msg.step)[i].round != s.round
  }

  /** A live node at the step of its message, which it has seen. */
  ghost predicate Handles(c: Config, h0: nat, s: State, msg: Msg, seen: set<Msg>) {
    Kept(c, h0, s, seen) && !s.panicked && s.step == msg.step && s.round == msg.round && msg in seen && NoneOfRound(s, msg)
  }

  lemma ReplicaPrepareKeeps(c: Config, h0: nat, s: State, msg: Msg, env: Env, seen: set<Msg>)
    requires Handles(c, h0, s, msg, seen) && !IsLeader(c, s) && msg.step == PREPARE
    ensures Kept(c, h0, ReplicaPrepare(c, s, msg, env), seen)
  {
    hide CommitsKept, PoolKept, Separated, OpenBelow;
    var b := Bound(c, s);
    RecordKept(c, s, Panic(s), seen);
    if ValidMessageBlock(c, s, msg) && msg.block.Some? {
      if ValidateProposal(c, s, msg).Rejected? {
        InterruptKeeps(c, h0, s, b, seen);
      } else if ValidateProposal(c, s, msg).Accepted? {
        var applied := ApplyBlock(s, msg.block.value, env);
        MovedOn(s, applied.s, b, b);
        RecordKept(c, s, applied.s, seen);
        if applied.AppliedError? {
          InterruptKeeps(c, h0, applied.s, b, seen);
        } else if applied.AppliedOk? {
          var t := applied.s.(block := msg.block, step := PRECOMMIT);
          MovedOn(s, t, b, b);
          MovedOn(s, t, b, PREPARE);
          PoolMovedOn(c, s, t, seen);
          RecordKept(c, s, t, seen);
          CastKeeps(c, h0, t, PREPARE, seen);
        }
      }
    }
  }

  lemma ReplicaKeeps(c: Config, h0: nat, s: State, msg: Msg, env: Env, seen: set<Msg>)
    requires Handles(c, h0, s, msg, seen) && !IsLeader(c, s)
    ensures Kept(c, h0, Dispatch(c, s, msg, env), seen)
  {
    hide CommitsKept, PoolKept, Separated, OpenBelow, ReplicaPrepare;
    var b := Bound(c, s);
    RecordKept(c, s, Panic(s), seen);
    if msg.step == NEWROUND {
      var t := RefreshUow(c, s).(step := PREPARE);
      MovedOn(s, t, b, Bound(c, t));
      PoolMovedOn(c, s, t, seen);
      RecordKept(c, s, t, seen);
    } else if msg.step == PREPARE {
      ReplicaPrepareKeeps(c, h0, s, msg, env, seen);
    } else if PRECOMMIT <= msg.step <= DECIDE && ValidMessageBlock(c, s, msg) {
      if !ValidCert(c, s, msg.Cert()) {
        InterruptKeeps(c, h0, s, b, seen);
      } else if msg.step == DECIDE {
        CommitKeeps(c, h0, s, msg.Cert().value, b, seen);
      } else {
        var t := if msg.step == PRECOMMIT then s.(step := COMMIT, prepareQC := msg.Cert()) else s.(step := DECIDE, lockedQC := msg.Cert());
        MovedOn(s, t, b, b);
        MovedOn(s, t, b, msg.step);
        PoolMovedOn(c, s, t, seen);
        RecordKept(c, s, t, seen);
        CastKeeps(c, h0, t, msg.step, seen);
      }
    }
  }

  lemma AnteKeeps(c: Config, h0: nat, s: State, msg: Msg, env: Env, seen: set<Msg>)
    requires Handles(c, h0, s, msg, seen) && IsLeader(c, s)
    ensures var t := LeaderAnte(c, s, msg, env).s;
      Kept(c, h0, t, seen) && (LeaderAnte(c, s, msg, env).Continue? ==> !t.panicked) && t == s.(pool := t.pool, panicked := t.panicked)
  {
    hide CommitsKept, Separated, OpenBelow;
    AnteKeepsView(c, s, msg, env);
    var ante := LeaderAnte(c, s, msg, env);
    RecordKept(c, s, ante.s, seen);
    MovedOn(s, ante.s, Bound(c, s), Bound(c, s));
    if ante.Continue? {
      PushKeeps(c, s, msg, env.poolOverflows, seen);
    }
  }

  lemma PushKeeps(c: Config, s: State, msg: Msg, overflows: bool, seen: set<Msg>)
    requires PoolKept(c, s, seen) && Pooled(c, s, seen, msg.step, msg) && NoneOfRound(s, msg)
    ensures PoolKept(c, Push(s, msg.step, msg, overflows), seen)
  {
    var t := Push(s, msg.step, msg, overflows);
    var q := Pool(s, msg.step) + [msg];
    forall k, i | k in t.pool && 0 <= i < |t.pool[k]| ensures Pooled(c, t, seen, k, t.pool[k][i]) {
      if k == msg.step {
        var n := if overflows then i + 1 else i;
        assert t.pool[k][i] == q[n];
      }
    }
    assert msg.step > NEWROUND ==> ProposeFirst(s, q);
  }

  lemma DrainKeeps(c: Config, h0: nat, s: State, step: int, seen: set<Msg>)
    requires Kept(c, h0, s, seen)
    ensures Kept(c, h0, SetPool(s, step, []), seen)
  {
    hide CommitsKept, Separated, OpenBelow;
    var t := SetPool(s, step, []);
    RecordKept(c, s, t, seen);
    if !s.panicked {
      MovedOn(s, t, Bound(c, s), Bound(c, s));
    }
  }

  /** Proposing a step and voting for it, with the node already moved to that step. */
  lemma ProposeKeeps(c: Config, h0: nat, s: State, step: int, qc: Option<QC>, seen: set<Msg>)
    requires UowAndCommits(h0, s) && CommitsKept(c, s, seen) && PoolKept(c, s, seen) && !s.panicked && IsLeader(c, s)
    requires Separated(s.sent) && OpenBelow(s, step) && s.step == step != NEWROUND
    requires step == PREPARE ==> Executed(s)
    ensures Kept(c, h0, Propose(c, s, step, qc, true), seen)
  {
    hide CommitsKept, Separated, OpenBelow, PoolKept;
    if s.block.None? {
      InterruptKeeps(c, h0, s, step, seen);
    } else {
      var m := ProposeMsg(s, step, s.block.value, qc);
      var t := Broadcast(s, m);
      CommitsMore(c, s, m, seen);
      ProposalKeepsVotes(s, m, step);
      PoolMovedOn(c, s, t, seen);
      CastKeeps(c, h0, t, step, seen);
    }
  }

  lemma OpenRoundKeeps(c: Config, h0: nat, s: State, high: Option<QC>, env: Env, seen: set<Msg>)
    requires Kept(c, h0, s, seen) && !s.panicked && IsLeader(c, s) && s.step == NEWROUND
    ensures Kept(c, h0, OpenRound(c, s, high, env), seen)
  {
    hide CommitsKept, Separated, OpenBelow, PoolKept, Propose;
    var b := Bound(c, s);
    var made := LeaderBlock(c, RefreshUow(c, s), high, env);
    assert made.s == s.(block := made.s.block, uow := made.s.uow);
    RecordKept(c, s, made.s, seen);
    MovedOn(s, made.s, b, b);
    if made.AppliedError? {
      InterruptKeeps(c, h0, made.s, b, seen);
    } else if made.AppliedOk? {
      var t := made.s.(step := PREPARE);
      RecordKept(c, s, t, seen);
      MovedOn(s, t, b, Bound(c, t));
      PoolMovedOn(c, s, t, seen);
      DrainKeeps(c, h0, t, NEWROUND, seen);
      var u := SetPool(t, NEWROUND, []);
      MovedOn(s, u, b, PREPARE);
      ProposeKeeps(c, h0, u, PREPARE, high, seen);
    } else {
      RecordKept(c, s, Panic(made.s), seen);
    }
  }

  // ---------------------------------------------------------------- the leader's certificate

  /** A usable pooled message of this round is a vote for the node's state hash, or was never checked. */
  lemma PooledBacks(c: Config, s: State, seen: set<Msg>, m: Msg)
    requires Pooled(c, s, seen, COMMIT, m) && s.block.Some? && Matching(s, COMMIT, m)
    ensures var sig := m.PartialSignature().value;
      Backs(c.validators(s.height), s.height, s.block.value.stateHash, sig) || Smuggled(seen, s.height, s.round, sig)
  {
    if m.kind == PROPOSE {
      assert Smuggles(m, s.height, s.round, m.PartialSignature().value);
    }
  }

  lemma VoteBacks(c: Config, s: State, seen: set<Msg>, m: Msg)
    requires Pooled(c, s, seen, COMMIT, m) && s.block.Some? && Matching(s, COMMIT, m) && m.kind != PROPOSE
    ensures Backs(c.validators(s.height), s.height, s.block.value.stateHash, m.PartialSignature().value)
  {
  }

  /** All signatures but the first are votes for the node's state hash; the first is one or was smuggled in. */
  lemma {:induction false} SignaturesBack(c: Config, s: State, seen: set<Msg>, msgs: seq<Msg>)
    requires s.block.Some? && (forall i :: 0 <= i < |msgs| ==> Pooled(c, s, seen, COMMIT, msgs[i])) && ProposeFirst(s, msgs)
    ensures var sigs := Signatures(s, COMMIT, msgs);
      && BackedButFirst(c.validators(s.height), s.height, s.round, s.block.value.stateHash, sigs, seen)
      && (sigs != [] ==> exists i :: 0 <= i < |msgs| && msgs[i].round == s.round)
  {
    hide Pooled, Backs, Smuggled;
    if msgs != [] {
      var n := |msgs| - 1;
      SignaturesBack(c, s, seen, msgs[..n]);
      var before, sigs := Signatures(s, COMMIT, msgs[..n]), Signatures(s, COMMIT, msgs);
      if Matching(s, COMMIT, msgs[n]) {
        PooledBacks(c, s, seen, msgs[n]);
        assert sigs == before + [msgs[n].PartialSignature().value];
        assert msgs[n].round == s.round;
        if before != [] {
          var i :| 0 <= i < n && msgs[..n][i].round == s.round;
          assert msgs[i].round == s.round;
          VoteBacks(c, s, seen, msgs[n]);
        }
      } else {
        assert sigs == before;
        if before != [] {
          var i :| 0 <= i < n && msgs[..n][i].round == s.round;
          assert msgs[i].round == s.round;
        }
      }
    }
  }

  lemma LeaderCommitCertified(c: Config, s: State, seen: set<Msg>)
    requires PoolKept(c, s, seen) && s.block.Some? && QuorumCertificate(c, s, COMMIT).Some?
    ensures var qc := QuorumCertificate(c, s, COMMIT).value;
      Certified(c, Commit(s.height, s.round, s.block.value.(cert := Some(qc)), None), seen)
  {
    hide Pooled, BackedButFirst, Signatures, ProposeFirst;
    NoneProposed(s);
    SignaturesBack(c, s, seen, Pool(s, COMMIT));
  }

  lemma NoneProposed(s: State)
    ensures ProposeFirst(s, [])
  {
  }

  lemma LeaderCommitKeeps(c: Config, h0: nat, s: State, seen: set<Msg>)
    requires Kept(c, h0, s, seen) && !s.panicked && IsLeader(c, s) && s.step == COMMIT && QuorumCertificate(c, s, COMMIT).Some?
    ensures var qc, u := QuorumCertificate(c, s, COMMIT), SetPool(s, COMMIT, []);
      if s.block.None? then Kept(c, h0, InterruptRound(u.(step := DECIDE)), seen)
      else Kept(c, h0, CommitBlock(Propose(c, u.(step := DECIDE), DECIDE, qc, false), qc.value), seen)
  {
    if s.block.Some? {
      LeaderCommitCertified(c, s, seen);
    }
    hide CommitsKept, Separated, OpenBelow, PoolKept, QuorumCertificate, InterruptRound, CommitBlock, Certified;
    var b := Bound(c, s);
    var qc := QuorumCertificate(c, s, COMMIT);
    var t := SetPool(s, COMMIT, []).(step := DECIDE);
    RecordKept(c, s, t, seen);
    MovedOn(s, t, b, b);
    if s.block.None? {
      InterruptKeeps(c, h0, t, b, seen);
    } else {
      var m := ProposeMsg(t, DECIDE, t.block.value, qc);
      CommitsMore(c, t, m, seen);
      ProposalKeepsVotes(t, m, b);
      CommitKeeps(c, h0, Broadcast(t, m), qc.value, b, seen);
    }
  }

  lemma LeaderKeeps(c: Config, h0: nat, s: State, msg: Msg, env: Env, seen: set<Msg>)
    requires Handles(c, h0, s, msg, seen) && IsLeader(c, s)
    ensures Kept(c, h0, Dispatch(c, s, msg, env), seen)
  {
    AnteKeeps(c, h0, s, msg, env, seen);
    hide CommitsKept, Separated, OpenBelow, PoolKept, LeaderAnte, EnoughMessages, QuorumCertificate, OpenRound, Propose, CommitBlock;
    var ante := LeaderAnte(c, s, msg, env);
    if !(NEWROUND <= msg.step <= DECIDE) {
      RecordKept(c, s, Panic(s), seen);
    } else if ante.Continue? {
      var t := ante.s;
      DrainKeeps(c, h0, t, msg.step, seen);
      var u, qc := SetPool(t, msg.step, []), QuorumCertificate(c, t, msg.step);
      if msg.step == NEWROUND {
        OpenRoundKeeps(c, h0, t, HighQC(Pool(t, NEWROUND)), env, seen);
      } else if msg.step == COMMIT {
        if qc.Some? { LeaderCommitKeeps(c, h0, t, seen); }
      } else if msg.step < COMMIT {
        var v := if msg.step == PREPARE then u.(step := PRECOMMIT, prepareQC := qc) else u.(step := COMMIT, lockedQC := qc);
        RecordKept(c, u, v, seen);
        MovedOn(u, v, Bound(c, u), v.step);
        PoolMovedOn(c, u, v, seen);
        ProposeKeeps(c, h0, v, v.step, qc, seen);
      }
    }
  }

  // ---------------------------------------------------------------- steps and runs

  /** Catching up and electing, for a message with a handler. */
  lemma HandlingKeeps(c: Config, h0: nat, s: State, msg: Msg, seen: set<Msg>)
    requires Kept(c, h0, s, seen) && !s.panicked && 0 <= s.step
    ensures var f := Handling(c, s, msg);
      && Kept(c, h0, if f.Continue? && !(NEWROUND <= msg.step <= DECIDE) then Panic(f.s) else f.s, seen)
      && (f.Continue? && NEWROUND <= msg.step <= DECIDE ==>
            !f.s.panicked && f.s.step == msg.step && f.s.round == msg.round && NoneOfRound(f.s, msg))
  {
    hide CommitsKept, Separated, ElectedId, OpenBelow, PoolKept;
    var f := Handling(c, s, msg);
    var t := if f.Continue? && !(NEWROUND <= msg.step <= DECIDE) then Panic(f.s) else f.s;
    assert t == s.(step := t.step, round := t.round, leaderId := t.leaderId, panicked := t.panicked);
    RecordKept(c, s, t, seen);
    if f.Continue? {
      FilterDropsProposals(c, s, msg, seen);
    }
    if !t.panicked {
      if t.round == s.round && s.leaderId.Some? {
        assert t.leaderId == s.leaderId && s.step <= t.step;
        MovedOn(s, t, Bound(c, s), Bound(c, t));
        PoolMovedOn(c, s, t, seen);
      } else {
        assert s.round < t.round || s.leaderId.None?;
        ElectedAnew(c, s, t, seen);
      }
    }
  }

  /** A leader drops Propose messages beyond NewRound, and a node that does not lead has none of its round pooled. */
  lemma FilterDropsProposals(c: Config, s: State, msg: Msg, seen: set<Msg>)
    requires PoolKept(c, s, seen) && !s.panicked && Handling(c, s, msg).Continue?
    ensures NoneOfRound(Handling(c, s, msg).s, msg)
  {
    hide ElectedId;
    var t := Handling(c, s, msg).s;
    assert t.pool == s.pool && s.round <= t.round;
    assert msg.kind == PROPOSE && msg.step > NEWROUND ==> !IsLeader(c, s);
    forall i | 0 <= i < |Pool(s, msg.step)| ensures Pooled(c, s, seen, msg.step, Pool(s, msg.step)[i]) {
    }
  }

  /** In a round that is new, or was without a leader, there is neither an open vote nor a pooled vote. */
  lemma ElectedAnew(c: Config, s: State, t: State, seen: set<Msg>)
    requires OpenBelow(s, Bound(c, s)) && PoolKept(c, s, seen) && !s.panicked
    requires t == s.(step := t.step, round := t.round, leaderId := t.leaderId) && 0 <= t.step
    requires s.round < t.round || (s.round == t.round && s.leaderId.None?)
    ensures OpenBelow(t, Bound(c, t)) && PoolKept(c, t, seen)
  {
    assert Bound(c, t) >= 0;
    forall i | OpenVote(t.sent, i)
      ensures t.sent[i].height == t.height && t.sent[i].round <= t.round
      ensures t.sent[i].round == t.round ==> t.sent[i].step < Bound(c, t) && (t.sent[i].step == PREPARE ==> ExecutedFor(t, t.sent[i]))
    {
      assert OpenVote(s.sent, i);
    }
  }

  lemma StepKeeps(c: Config, h0: nat, s: State, ev: Event, seen: set<Msg>)
    requires Kept(c, h0, s, seen) && (s.panicked || 0 <= s.step)
    ensures Kept(c, h0, Step(c, s, ev), if ev.Deliver? then seen + {ev.msg} else seen)
  {
    hide Kept, Dispatch, Handling;
    if ev.Deliver? {
      SeenGrows(c, h0, s, seen, ev.msg);
    }
    if !s.panicked {
      if ev.Timeout? {
        TimeoutKeeps(c, h0, s, seen);
      } else {
        DeliverKeeps(c, h0, s, ev.msg, ev.env, seen + {ev.msg});
      }
    }
  }

  lemma TimeoutKeeps(c: Config, h0: nat, s: State, seen: set<Msg>)
    requires Kept(c, h0, s, seen) && !s.panicked
    ensures Kept(c, h0, InterruptRound(s), seen)
  {
    hide InterruptRound;
    InterruptKeeps(c, h0, s, Bound(c, s), seen);
  }

  lemma DeliverKeeps(c: Config, h0: nat, s: State, msg: Msg, env: Env, seen: set<Msg>)
    requires Kept(c, h0, s, seen) && !s.panicked && 0 <= s.step && msg in seen
    ensures Kept(c, h0, Step(c, s, Deliver(msg, env)), seen)
  {
    hide Kept, Dispatch, Handling;
    StepIsDispatch(c, s, msg, env);
    HandlingKeeps(c, h0, s, msg, seen);
    var f := Handling(c, s, msg);
    if f.Continue? {
      if !(NEWROUND <= msg.step <= DECIDE) {
        UnknownStepPanics(c, f.s, msg, env);
      } else if IsLeader(c, f.s) {
        LeaderKeeps(c, h0, f.s, msg, env, seen);
      } else {
        ReplicaKeeps(c, h0, f.s, msg, env, seen);
      }
    }
  }

  /** The messages that a run delivers. */
  function Delivered(evs: seq<Event>): set<Msg> {
    set ev | ev in evs && ev.Deliver? :: ev.msg
  }

  lemma {:induction false} RunKeeps(c: Config, h0: nat, evs: seq<Event>)
    ensures Kept(c, h0, Run(c, h0, evs), Delivered(evs))
  {
    if evs != [] {
      hide Kept, Step, Delivered;
      var n := |evs| - 1;
      RunKeeps(c, h0, evs[..n]);
      RunKeepsInv(c, h0, evs[..n], false);
      StepKeeps(c, h0, Run(c, h0, evs[..n]), evs[n], Delivered(evs[..n]));
      DeliveredMore(evs, n);
    }
  }

  lemma DeliveredMore(evs: seq<Event>, n: nat)
    requires |evs| == n + 1
    ensures Delivered(evs) == if evs[n].Deliver? then Delivered(evs[..n]) + {evs[n].msg} else Delivered(evs[..n])
  {
    assert evs == evs[..n] + [evs[n]];
  }

  // ---------------------------------------------------------------- commits and earlier votes

  /** Below its own leadership a node has voted for nothing else at a height than what it committed there. */
  ghost predicate CommitsStick(s: State) {
    forall k, i :: 0 <= k < |s.commits| && VoteFor(s.sent, i, s.commits[k].height) ==>
      s.sent[i].block.Some? && s.sent[i].block.value.stateHash == s.commits[k].block.stateHash
  }

  ghost predicate AddsVotesAt(s: State, t: State, h: nat) {
    s.sent <= t.sent && forall i :: |s.sent| <= i < |t.sent| && IsVote(t.sent[i]) ==> t.sent[i].height == h
  }

  ghost predicate AddsNoVotes(s: State, t: State) {
    s.sent <= t.sent && forall i :: |s.sent| <= i < |t.sent| ==> !IsVote(t.sent[i])
  }

  /** `t` has votes of the current height more than `s`, or one commit of its state hash. */
  ghost predicate Records(s: State, t: State) {
    || (t.commits == s.commits && AddsVotesAt(s, t, s.height))
    || (&& s.block.Some? && |t.commits| == |s.commits| + 1 && s.commits <= t.commits
        && t.commits[|s.commits|].block.stateHash == s.block.value.stateHash && AddsNoVotes(s, t))
  }

  lemma RoundEndRecords()
    ensures forall s: State {:trigger InterruptRound(s)} :: AddsNoVotes(s, InterruptRound(s)) && InterruptRound(s).commits == s.commits
    ensures forall s, qc {:trigger CommitBlock(s, qc)} :: AddsNoVotes(s, CommitBlock(s, qc)) && Records(s, CommitBlock(s, qc))
    ensures forall c, s: State, step, qc {:trigger Propose(c, s, step, qc, false)} ::
      s.block.Some? ==> var t := Propose(c, s, step, qc, false);
        AddsNoVotes(s, t) && t.commits == s.commits && t.height == s.height && t.block == s.block
    ensures forall c, s: State, step, qc, votes {:trigger Propose(c, s, step, qc, votes)} ::
      AddsVotesAt(s, Propose(c, s, step, qc, votes), s.height) && Propose(c, s, step, qc, votes).commits == s.commits
    ensures forall c, s: State, step {:trigger CastVote(c, s, step)} ::
      AddsVotesAt(s, CastVote(c, s, step), s.height) && CastVote(c, s, step).commits == s.commits
  {
  }

  lemma OpenRoundRecords(c: Config, s: State, high: Option<QC>, env: Env)
    ensures Records(s, OpenRound(c, s, high, env))
  {
    hide InterruptRound, Propose;
    RoundEndRecords();
    var t := RefreshUow(c, s);
    var made := LeaderBlock(c, t, high, env);
    assert made.s == t.(block := made.s.block, uow := made.s.uow);
  }

  lemma ReplicaRecords(c: Config, s: State, msg: Msg, env: Env)
    requires !IsLeader(c, s)
    ensures Records(s, Dispatch(c, s, msg, env))
  {
    hide InterruptRound, CommitBlock, CastVote, ValidQC, ReplicaPrepare;
    RoundEndRecords();
    ReplicaPrepareRecords(c, s, msg, env);
  }

  lemma ReplicaPrepareRecords(c: Config, s: State, msg: Msg, env: Env)
    ensures Records(s, ReplicaPrepare(c, s, msg, env))
  {
    hide InterruptRound, CastVote, ValidCert, ValidMessageBlock, ValidateProposal;
    RoundEndRecords();
  }

  lemma LeaderRecords(c: Config, s: State, msg: Msg, env: Env)
    requires IsLeader(c, s)
    ensures Records(s, Dispatch(c, s, msg, env))
  {
    AnteKeepsView(c, s, msg, env);
    hide InterruptRound, CommitBlock, Propose, OpenRound, QuorumCertificate, HighQC, LeaderAnte, EnoughMessages;
    RoundEndRecords();
    var ante := LeaderAnte(c, s, msg, env);
    if msg.step == NEWROUND && ante.Continue? {
      OpenRoundRecords(c, ante.s, HighQC(Pool(ante.s, NEWROUND)), env);
    } else if msg.step == COMMIT && ante.Continue? && ante.s.block.Some? {
      var qc := QuorumCertificate(c, ante.s, COMMIT);
      if qc.Some? {
        var u := SetPool(ante.s, COMMIT, []).(step := DECIDE);
        CommitRecords(s, Propose(c, u, DECIDE, qc, false), qc.value);
      }
    }
  }

  lemma CommitRecords(s: State, t: State, qc: QC)
    requires AddsNoVotes(s, t) && t.commits == s.commits && t.block == s.block && t.height == s.height
    ensures Records(s, CommitBlock(t, qc))
  {
    hide CommitBlock;
    RoundEndRecords();
    var u := CommitBlock(t, qc);
    assert AddsNoVotes(s, u) by {
      assert forall i :: |s.sent| <= i < |t.sent| ==> u.sent[i] == t.sent[i];
    }
  }

  lemma StepRecords(c: Config, s: State, ev: Event)
    ensures Records(s, Step(c, s, ev))
  {
    hide Dispatch, Handling, InterruptRound;
    RoundEndRecords();
    if !s.panicked && ev.Deliver? {
      StepIsDispatch(c, s, ev.msg, ev.env);
      HandlingRecords(c, s, ev.msg);
      var f := Handling(c, s, ev.msg);
      if IsLeader(c, f.s) {
        LeaderRecords(c, f.s, ev.msg, ev.env);
      } else {
        ReplicaRecords(c, f.s, ev.msg, ev.env);
      }
    }
  }

  lemma HandlingRecords(c: Config, s: State, msg: Msg)
    ensures var t := Handling(c, s, msg).s; t.sent == s.sent && t.commits == s.commits && t.height == s.height && t.block == s.block
  {
  }

  lemma LedGrows(sent: seq<Msg>, more: seq<Msg>, h: nat)
    requires sent <= more && Led(sent, h)
    ensures Led(more, h)
  {
    var i :| 0 <= i < |sent| && sent[i].kind == PROPOSE && sent[i].step == PREPARE && sent[i].height == h;
    assert more[i] == sent[i];
  }

  lemma StepSticks(h0: nat, s: State, t: State)
    requires Safe(h0, s) && Safe(h0, t) && CommitsStick(s) && Records(s, t)
    ensures CommitsStick(t)
  {
    hide Led;
    forall k, i | 0 <= k < |t.commits| && VoteFor(t.sent, i, t.commits[k].height)
      ensures t.sent[i].block.Some? && t.sent[i].block.value.stateHash == t.commits[k].block.stateHash
    {
      var h := t.commits[k].height;
      assert h <= s.height;
      if Led(s.sent, h) { LedGrows(s.sent, t.sent, h); }
      if i < |s.sent| {
        assert t.sent[i] == s.sent[i] && VoteFor(s.sent, i, h);
        if k < |s.commits| {
          assert t.commits[k] == s.commits[k];
        }
      } else {
        assert false;
      }
    }
  }

  lemma {:induction false} RunSticks(c: Config, h0: nat, evs: seq<Event>)
    ensures CommitsStick(Run(c, h0, evs))
  {
    if evs != [] {
      hide Safe, CommitsStick, Records, Step;
      var n := |evs| - 1;
      RunSticks(c, h0, evs[..n]);
      RunKeepsInv(c, h0, evs[..n], false);
      RunKeepsInv(c, h0, evs, false);
      StepRecords(c, Run(c, h0, evs[..n]), evs[n]);
      StepSticks(h0, Run(c, h0, evs[..n]), Run(c, h0, evs));
    }
  }

  // ---------------------------------------------------------------- main results

  /**
   In every run each commit carries a certificate that passed validation with the validators of the
   commit's height, or that the node built as leader: for its own block and view, over enough signatures,
   each a validator's for that height and state hash, except that a Propose message can have smuggled in the
   first one.
   */
  lemma CommitsAreCertified(c: Config, h0: nat, evs: seq<Event>, k: nat)
    requires k < |Run(c, h0, evs).commits|
    ensures Certified(c, Run(c, h0, evs).commits[k], Delivered(evs))
  {
    RunKeeps(c, h0, evs);
  }

  /** In every run a node that did not lead a height has voted there for nothing else than what it committed. */
  lemma CommitsStickToVotes(c: Config, h0: nat, evs: seq<Event>, k: nat, i: nat)
    requires var s := Run(c, h0, evs);
      k < |s.commits| && i < |s.sent| && IsVote(s.sent[i]) && s.sent[i].height == s.commits[k].height && !Led(s.sent, s.sent[i].height)
    ensures var s := Run(c, h0, evs);
      s.sent[i].block.Some? && s.sent[i].block.value.stateHash == s.commits[k].block.stateHash
  {
    hide Led;
    RunSticks(c, h0, evs);
    assert VoteFor(Run(c, h0, evs).sent, i, Run(c, h0, evs).commits[k].height);
  }

  /** In every run two votes of one height, round and step have a NewRound message of the node between them. */
  lemma RepeatedVotesAreSeparated(c: Config, h0: nat, evs: seq<Event>, i: nat, j: nat)
    requires var sent := Run(c, h0, evs).sent;
      i < j < |sent| && IsVote(sent[i]) && IsVote(sent[j]) && SameView(sent[i], sent[j])
    ensures var sent := Run(c, h0, evs).sent; exists m :: i < m < j && sent[m].step == NEWROUND
  {
    RunKeeps(c, h0, evs);
    var sent := Run(c, h0, evs).sent;
    assert !NoNewRound(sent, i, j);
  }

  /**
   In every run a commit of the height and round of a Prepare vote is of the state hash voted for, if the
   node's next NewRound message after the vote is the one that opens the next height.
   */
  lemma CommitMatchesVote(c: Config, h0: nat, evs: seq<Event>, k: nat, i: nat, j: nat)
    requires var s := Run(c, h0, evs);
      k < |s.commits| && ClosedVote(s.sent, i, j) && EndedBy(s.commits[k], s.sent[i], s.sent[j])
    ensures var s := Run(c, h0, evs);
      s.sent[i].block.Some? && s.commits[k].computed == Some(s.sent[i].block.value.stateHash)
  {
    RunKeeps(c, h0, evs);
  }
}
