/** Quorum certificates at one height agree, over every run of the network. */
module Agreement {
  import opened Collections
  import opened Common
  import opened ConsensusTypes
  import opened ConsensusSpec
  import opened ConsensusRuns
  import opened ConsensusCommits

  // ---------------------------------------------------------------- quorums

  /** Two quorums of more than two thirds share more than one third of the validators. */
  lemma QuorumsOverlap<T>(all: set<T>, a: set<T>, b: set<T>)
    requires a <= all && b <= all
    requires ThresholdMet(|a|, |all|) && ThresholdMet(|b|, |all|)
    ensures 3 * |a * b| > |all|
  {
    assert |a + b| <= |all| by { SubsetSize(a + b, all); }
    assert |a + b| == |a| + |b| - |a * b|;
  }

  predicate DistinctSigners(sigs: seq<PartialSig>) {
    forall i, j :: 0 <= i < j < |sigs| ==> sigs[i].address != sigs[j].address
  }

  /** The validators whose signature in the list verifies. */
  function Signers(vals: seq<Address>, payload: Payload, sigs: seq<PartialSig>): set<Address> {
    set s | s in sigs && ValidSig(vals, payload, s) :: s.address
  }

  /** The signature count of a certificate is its number of signers exactly because signers are distinct. */
  lemma {:induction false} SignerCount(vals: seq<Address>, payload: Payload, sigs: seq<PartialSig>)
    requires DistinctSigners(sigs)
    ensures |Signers(vals, payload, sigs)| == CountValid(vals, payload, sigs)
  {
    hide ValidSig, Signers;
    if sigs == [] {
      NoSigners(vals, payload);
    } else {
      var n := |sigs| - 1;
      assert sigs == sigs[..n] + [sigs[n]];
      SignerCount(vals, payload, sigs[..n]);
      SignersNext(vals, payload, sigs[..n], sigs[n]);
    }
  }

  lemma NoSigners(vals: seq<Address>, payload: Payload)
    ensures Signers(vals, payload, []) == {}
  {
  }

  lemma SignersNext(vals: seq<Address>, payload: Payload, sigs: seq<PartialSig>, sig: PartialSig)
    requires forall i :: 0 <= i < |sigs| ==> sigs[i].address != sig.address
    ensures var before := Signers(vals, payload, sigs);
      && Signers(vals, payload, sigs + [sig]) == before + (if ValidSig(vals, payload, sig) then {sig.address} else {})
      && sig.address !in before
  {
    hide ValidSig;
  }

  // ---------------------------------------------------------------- network

  /** The correct nodes of a network; anything else may send what it likes. */
  datatype Network = Network(configs: map<Address, Config>, states: map<Address, State>)

  datatype NetEvent = NetEvent(to: Address, event: Event)

  function NetInit(configs: map<Address, Config>, h0: nat): Network {
    Network(configs, map a | a in configs :: Init(h0))
  }

  function NetStep(net: Network, ev: NetEvent): (r: Network)
    ensures r.configs == net.configs && r.states.Keys == net.states.Keys
  {
    if ev.to in net.states && ev.to in net.configs then
      net.(states := net.states[ev.to := Step(net.configs[ev.to], net.states[ev.to], ev.event)])
    else net
  }

  function NetRun(configs: map<Address, Config>, h0: nat, evs: seq<NetEvent>): (net: Network)
    ensures net.configs == configs && net.states.Keys == configs.Keys
  {
    if evs == [] then NetInit(configs, h0) else NetStep(NetRun(configs, h0, evs[..|evs| - 1]), evs[|evs| - 1])
  }

  /** What a network run delivers to one node. */
  function EventsOf(evs: seq<NetEvent>, a: Address): seq<Event> {
    if evs == [] then []
    else EventsOf(evs[..|evs| - 1], a) + if evs[|evs| - 1].to == a then [evs[|evs| - 1].event] else []
  }

  /** Each node of a network run goes through a run of its own. */
  lemma {:induction false} NetRunIsRun(configs: map<Address, Config>, h0: nat, evs: seq<NetEvent>, a: Address)
    requires a in configs
    ensures NetRun(configs, h0, evs).states[a] == Run(configs[a], h0, EventsOf(evs, a))
  {
    hide Step;
    if evs != [] {
      var n := |evs| - 1;
      NetRunIsRun(configs, h0, evs[..n], a);
      var own := EventsOf(evs, a);
      if evs[n].to == a {
        assert own[..|own| - 1] == EventsOf(evs[..n], a);
      } else {
        assert own == EventsOf(evs[..n], a);
      }
    }
  }

  lemma NetRunIsSafe(configs: map<Address, Config>, h0: nat, evs: seq<NetEvent>, a: Address)
    requires a in configs
    ensures Safe(h0, NetRun(configs, h0, evs).states[a])
  {
    hide Safe;
    NetRunIsRun(configs, h0, evs, a);
    RunKeepsInv(configs[a], h0, EventsOf(evs, a), false);
  }

  /** The node has sent a vote over exactly this payload. */
  ghost predicate HasCast(s: State, p: Payload) {
    exists i :: 0 <= i < |s.sent| && IsVote(s.sent[i]) && s.sent[i].Signable() == p
  }

  ghost predicate HasVoted(s: State, h: nat, hash: string) {
    exists p {:trigger HasCast(s, p)} :: HasCast(s, p) && p.height == h && p.block.Some? && p.block.value.stateHash == hash
  }

  /** A correct node's signature in a certificate was cast by it as a vote: signatures cannot be forged. */
  ghost predicate Authentic(net: Network, qc: QC) {
    forall sig :: sig in qc.sigs && sig.signature == Signed(sig.address, QCPayload(qc)) && sig.address in net.states ==>
      HasCast(net.states[sig.address], QCPayload(qc))
  }

  /** The same for signatures over whatever payload. */
  ghost predicate Unforged(net: Network, qc: QC) {
    forall sig :: sig in qc.sigs && sig.signature.Signed? && sig.signature.signer == sig.address && sig.address in net.states ==>
      HasCast(net.states[sig.address], sig.signature.payload)
  }

  /** The validators of `h` that are not correct nodes or have assigned a block as leader at `h`. */
  ghost function Unbound(net: Network, vals: seq<Address>, h: nat): set<Address> {
    set a | a in vals && (a !in net.states || Led(net.states[a].sent, h))
  }

  // ---------------------------------------------------------------- agreement of quorums

  ghost predicate HasCommitted(s: State, h: nat, hash: string) {
    exists k :: 0 <= k < |s.commits| && s.commits[k].height == h && s.commits[k].block.stateHash == hash
  }

  /** Correct nodes among these have voted for this state hash at height `h` or committed it, and they are enough for a certificate. */
  ghost predicate QuorumFor(net: Network, vals: seq<Address>, h: nat, hash: string, q: set<Address>) {
    && q <= Elements(vals) && ThresholdMet(|q|, |vals|)
    && forall a :: a in q && a in net.states ==> HasVoted(net.states[a], h, hash) || HasCommitted(net.states[a], h, hash)
  }

  lemma VotesAgree(h0: nat, s: State, h: nat, hash1: string, hash2: string)
    requires Safe(h0, s) && !Led(s.sent, h) && HasVoted(s, h, hash1) && HasVoted(s, h, hash2)
    ensures hash1 == hash2
  {
    var p1 :| HasCast(s, p1) && p1.height == h && p1.block.Some? && p1.block.value.stateHash == hash1;
    var p2 :| HasCast(s, p2) && p2.height == h && p2.block.Some? && p2.block.value.stateHash == hash2;
    var i :| 0 <= i < |s.sent| && IsVote(s.sent[i]) && s.sent[i].Signable() == p1;
    var j :| 0 <= j < |s.sent| && IsVote(s.sent[j]) && s.sent[j].Signable() == p2;
    assert VoteFor(s.sent, i, h) && VoteFor(s.sent, j, h);
  }

  lemma VoteAndCommitAgree(s: State, h: nat, hash1: string, hash2: string)
    requires CommitsStick(s) && !Led(s.sent, h) && HasVoted(s, h, hash1) && HasCommitted(s, h, hash2)
    ensures hash1 == hash2
  {
    var p :| HasCast(s, p) && p.height == h && p.block.Some? && p.block.value.stateHash == hash1;
    var i :| 0 <= i < |s.sent| && IsVote(s.sent[i]) && s.sent[i].Signable() == p;
    var k :| 0 <= k < |s.commits| && s.commits[k].height == h && s.commits[k].block.stateHash == hash2;
    assert VoteFor(s.sent, i, h);
  }

  /** A validator that did not lead a height stands for one state hash there, with its votes and its commit. */
  lemma BoundValidatorAgrees(configs: map<Address, Config>, h0: nat, evs: seq<NetEvent>, a: Address, h: nat, hash1: string, hash2: string)
    requires a in configs && !Led(NetRun(configs, h0, evs).states[a].sent, h)
    requires var s := NetRun(configs, h0, evs).states[a];
      (HasVoted(s, h, hash1) || HasCommitted(s, h, hash1)) && (HasVoted(s, h, hash2) || HasCommitted(s, h, hash2))
    ensures hash1 == hash2
  {
    hide Led, HasVoted, HasCommitted, NetRun, Run, Safe, CommitsStick;
    NetRunIsRun(configs, h0, evs, a);
    NetRunIsSafe(configs, h0, evs, a);
    RunSticks(configs[a], h0, EventsOf(evs, a));
    var s := NetRun(configs, h0, evs).states[a];
    if HasVoted(s, h, hash1) && HasVoted(s, h, hash2) {
      VotesAgree(h0, s, h, hash1, hash2);
    } else if HasVoted(s, h, hash1) {
      VoteAndCommitAgree(s, h, hash1, hash2);
    } else if HasVoted(s, h, hash2) {
      VoteAndCommitAgree(s, h, hash2, hash1);
    } else {
      CommitsOncePerHeight(h0, s, h, hash1, hash2);
    }
  }

  lemma CommitsOncePerHeight(h0: nat, s: State, h: nat, hash1: string, hash2: string)
    requires Safe(h0, s) && HasCommitted(s, h, hash1) && HasCommitted(s, h, hash2)
    ensures hash1 == hash2
  {
  }

  lemma QuorumsAgree(configs: map<Address, Config>, h0: nat, evs: seq<NetEvent>, vals: seq<Address>, h: nat,
                     hash1: string, q1: set<Address>, hash2: string, q2: set<Address>)
    requires var net := NetRun(configs, h0, evs);
      && Distinct(vals) && 3 * |Unbound(net, vals, h)| <= |vals|
      && QuorumFor(net, vals, h, hash1, q1) && QuorumFor(net, vals, h, hash2, q2)
    ensures hash1 == hash2
  {
    hide HasVoted, HasCommitted;
    DistinctCount(vals);
    QuorumsOverlap(Elements(vals), q1, q2);
    var unbound := Unbound(NetRun(configs, h0, evs), vals, h);
    if q1 * q2 <= unbound {
      SubsetSize(q1 * q2, unbound);
      assert false;
    }
    var a :| a in q1 * q2 && a !in unbound;
    BoundValidatorAgrees(configs, h0, evs, a, h, hash1, hash2);
  }

  lemma CertificateQuorum(net: Network, vals: seq<Address>, qc: QC) returns (q: set<Address>)
    requires ValidQC(vals, qc) && DistinctSigners(qc.sigs) && Authentic(net, qc)
    ensures QuorumFor(net, vals, qc.height, qc.block.value.stateHash, q)
  {
    q := Signers(vals, QCPayload(qc), qc.sigs);
    SignerCount(vals, QCPayload(qc), qc.sigs);
    forall a | a in q && a in net.states ensures HasVoted(net.states[a], qc.height, qc.block.value.stateHash) {
      assert HasCast(net.states[a], QCPayload(qc));
    }
  }

  /**
   Agreement: in every run, two certificates of one height, of any rounds and steps, that pass
   validation with distinct signers certify the same state hash, as long as at most a third of the
   validators are faulty or have led that height.
   */
  lemma CertificatesAgree(configs: map<Address, Config>, h0: nat, evs: seq<NetEvent>, vals: seq<Address>, qc1: QC, qc2: QC)
    requires Distinct(vals)
    requires ValidQC(vals, qc1) && ValidQC(vals, qc2)
    requires DistinctSigners(qc1.sigs) && DistinctSigners(qc2.sigs)
    requires qc1.height == qc2.height
    requires var net := NetRun(configs, h0, evs);
      Authentic(net, qc1) && Authentic(net, qc2) && 3 * |Unbound(net, vals, qc1.height)| <= |vals|
    ensures qc1.block.value.stateHash == qc2.block.value.stateHash
  {
    var net := NetRun(configs, h0, evs);
    var q1 := CertificateQuorum(net, vals, qc1);
    var q2 := CertificateQuorum(net, vals, qc2);
    hide ValidQC, QuorumFor, Authentic;
    QuorumsAgree(configs, h0, evs, vals, qc1.height, qc1.block.value.stateHash, q1, qc2.block.value.stateHash, q2);
  }

  // ---------------------------------------------------------------- agreement of commits

  /** The certificate of a commit is of the commit's height and of the committed state hash. */
  predicate IsFor(x: Commit) {
    && x.block.cert.Some?
    && var qc := x.block.cert.value;
       qc.height == x.height && qc.block.Some? && qc.block.value.stateHash == x.block.stateHash
  }

  predicate NotAmong(a: Address, sigs: seq<PartialSig>) {
    forall i :: 0 <= i < |sigs| ==> sigs[i].address != a
  }

  /** The certificate of a commit, if there is one, counts no signer twice. */
  predicate CountsOnce(x: Commit) {
    x.block.cert.Some? ==> DistinctSigners(x.block.cert.value.sigs)
  }

  /**
   Signatures of the certificate are not forged. If the node built it as leader and it does not pass
   validation, then no Propose message brought a signature, or the node did not count a vote of its own.
   */
  ghost predicate Accountable(net: Network, evs: seq<NetEvent>, a: Address, x: Commit)
    requires a in net.configs
  {
    x.block.cert.Some? ==>
      var qc := x.block.cert.value;
      && Unforged(net, qc)
      && (|| ValidQC(net.configs[a].validators(x.height), qc)
          || NothingSmuggled(Delivered(EventsOf(evs, a)), x.height, x.round)
          || (a in net.configs[a].validators(x.height) && NotAmong(a, qc.sigs)))
  }

  /** Commits `k` of node `a` and `l` of node `b` at one height, with at most a third of its validators faulty or leading. */
  ghost predicate Comparable(configs: map<Address, Config>, h0: nat, evs: seq<NetEvent>, a: Address, k: nat, b: Address, l: nat) {
    && a in configs && b in configs
    && var net := NetRun(configs, h0, evs);
       && k < |net.states[a].commits| && l < |net.states[b].commits|
       && var x, y, vals := net.states[a].commits[k], net.states[b].commits[l], configs[a].validators(net.states[a].commits[k].height);
          && x.height == y.height && configs[b].validators(x.height) == vals && Distinct(vals)
          && 3 * |Unbound(net, vals, x.height)| <= |vals|
          && Accountable(net, evs, a, x) && Accountable(net, evs, b, y)
  }

  /** The addresses of signatures that back a state hash, from `from` on. */
  lemma BackerCount(vals: seq<Address>, h: nat, hash: string, sigs: seq<PartialSig>, from: nat) returns (q: set<Address>)
    requires from <= |sigs| && DistinctSigners(sigs) && forall i :: from <= i < |sigs| ==> Backs(vals, h, hash, sigs[i])
    ensures |q| == |sigs| - from && q <= Elements(vals) && forall a :: a in q <==> exists i :: from <= i < |sigs| && sigs[i].address == a
  {
    hide Backs;
    q := {};
    for n := from to |sigs|
      invariant |q| == n - from && forall a :: a in q <==> exists i :: from <= i < n && sigs[i].address == a
    {
      assert sigs[n].address !in q;
      q := q + {sigs[n].address};
    }
    forall a | a in q ensures a in vals {
      var i :| from <= i < |sigs| && sigs[i].address == a;
      BacksFromValidator(vals, h, hash, sigs[i]);
    }
  }

  lemma BacksFromValidator(vals: seq<Address>, h: nat, hash: string, sig: PartialSig)
    requires Backs(vals, h, hash, sig)
    ensures sig.address in vals
  {
  }

  lemma BackerVoted(net: Network, vals: seq<Address>, h: nat, hash: string, qc: QC, i: nat)
    requires i < |qc.sigs| && Unforged(net, qc) && Backs(vals, h, hash, qc.sigs[i]) && qc.sigs[i].address in net.states
    ensures HasVoted(net.states[qc.sigs[i].address], h, hash)
  {
    assert qc.sigs[i] in qc.sigs;
    assert HasCast(net.states[qc.sigs[i].address], qc.sigs[i].signature.payload);
  }

  /** Behind a certificate of the right height stands a quorum that voted for the certificate's state hash. */
  lemma CommitQuorum(configs: map<Address, Config>, h0: nat, evs: seq<NetEvent>, a: Address, k: nat) returns (q: set<Address>)
    requires a in configs && var net := NetRun(configs, h0, evs);
      && k < |net.states[a].commits|
      && var x := net.states[a].commits[k];
         Accountable(net, evs, a, x) && CountsOnce(x) && (x.block.cert.Some? ==> x.block.cert.value.height == x.height)
    ensures var net := NetRun(configs, h0, evs); var x := net.states[a].commits[k];
      && x.block.cert.Some? && x.block.cert.value.block.Some?
      && QuorumFor(net, configs[a].validators(x.height), x.height, x.block.cert.value.block.value.stateHash, q)
  {
    NetRunIsRun(configs, h0, evs, a);
    CommitsAreCertified(configs[a], h0, EventsOf(evs, a), k);
    var net := NetRun(configs, h0, evs);
    var x := net.states[a].commits[k];
    var vals, qc := configs[a].validators(x.height), x.block.cert.value;
    if ValidQC(vals, qc) {
      q := CertificateQuorum(net, vals, qc);
    } else {
      q := BuiltQuorum(net, vals, a, k, Delivered(EventsOf(evs, a)));
    }
  }

  /** A leader that counted an unchecked signature stands in for it, if its own vote is not among the others. */
  lemma BuiltQuorum(net: Network, vals: seq<Address>, a: Address, k: nat, seen: set<Msg>) returns (q: set<Address>)
    requires a in net.states && k < |net.states[a].commits| && net.states[a].commits[k].block.cert.Some?
    requires var x := net.states[a].commits[k]; var qc := x.block.cert.value;
      && Built(vals, x, qc, seen) && DistinctSigners(qc.sigs) && Unforged(net, qc)
      && (NothingSmuggled(seen, x.height, x.round) || (a in vals && NotAmong(a, qc.sigs)))
    ensures QuorumFor(net, vals, net.states[a].commits[k].height, net.states[a].commits[k].block.stateHash, q)
  {
    hide HasVoted, Unforged, Backs;
    var x := net.states[a].commits[k];
    var h, hash, qc := x.height, x.block.stateHash, x.block.cert.value;
    assert NothingSmuggled(seen, h, x.round) ==> forall sig :: !Smuggled(seen, h, x.round, sig);
    var from := if Backs(vals, h, hash, qc.sigs[0]) then 0 else 1;
    q := BackerCount(vals, h, hash, qc.sigs, from);
    var backers := q;
    forall b | b in backers && b in net.states ensures HasVoted(net.states[b], h, hash) {
      var i :| from <= i < |qc.sigs| && qc.sigs[i].address == b;
      BackerVoted(net, vals, h, hash, qc, i);
    }
    if from == 1 {
      q := q + {a};
      assert HasCommitted(net.states[a], h, hash);
    }
  }

  /**
   When two commits of one height agree. A node commits its own block under whatever valid certificate it
   is shown, so beside a commit that its certificate is for, another one under a certificate of that
   height, made by any node as leader or replica, is of the same state hash exactly when its certificate
   is for it too.
   */
  lemma CommitsAgreeIff(configs: map<Address, Config>, h0: nat, evs: seq<NetEvent>, a: Address, k: nat, b: Address, l: nat)
    requires Comparable(configs, h0, evs, a, k, b, l)
    requires var net := NetRun(configs, h0, evs); var x, y := net.states[a].commits[k], net.states[b].commits[l];
      && CountsOnce(x) && CountsOnce(y)
      && IsFor(x) && (y.block.cert.Some? ==> y.block.cert.value.height == y.height)
    ensures var net := NetRun(configs, h0, evs); var x, y := net.states[a].commits[k], net.states[b].commits[l];
      x.block.stateHash == y.block.stateHash <==> IsFor(y)
  {
    hide Accountable, QuorumFor;
    var q1 := CommitQuorum(configs, h0, evs, a, k);
    var q2 := CommitQuorum(configs, h0, evs, b, l);
    var net := NetRun(configs, h0, evs);
    var x, y := net.states[a].commits[k], net.states[b].commits[l];
    QuorumsAgree(configs, h0, evs, configs[a].validators(x.height), x.height,
                 x.block.stateHash, q1, y.block.cert.value.block.value.stateHash, q2);
  }
}
