/**
 Runs of four validators, of which only "a" is faulty, in which correct nodes commit different state hashes at
 one height: each breaks one condition of CommitsAgreeIff.
 */
module AgreementExamples {
  import opened Collections
  import opened Common
  import opened ConsensusTypes
  import opened ConsensusSpec
  import opened ConsensusRuns
  import opened ConsensusCommits
  import opened LeaderElection
  import opened Agreement

  const VALIDATORS: seq<Address> := ["a", "b", "c", "d"]

  /** A correct validator. */
  function Node(self: Address, id: nat): Config {
    Config(h => VALIDATORS, self, id, true)
  }

  function Nodes(): map<Address, Config> {
    map["b" := Node("b", 2), "c" := Node("c", 3), "d" := Node("d", 4)]
  }

  // ---------------------------------------------------------------- what "a" sends

  function BlockOf(h: nat, hash: string): Block {
    Block(h, hash, Some("a"), [], None)
  }

  function Hello(h: nat, r: uint64): Event {
    Deliver(Msg(PROPOSE, h, NEWROUND, r, None, NoJustification), Env(None, None, false, false))
  }

  function Proposal(h: nat, r: uint64, hash: string): Event {
    Deliver(Msg(PROPOSE, h, PREPARE, r, Some(BlockOf(h, hash)), NoJustification), Env(Some(hash), None, false, false))
  }

  function Decision(h: nat, r: uint64, hash: string, qc: QC): Event {
    Deliver(Msg(PROPOSE, h, DECIDE, r, Some(BlockOf(h, hash)), Certificate(qc)), Env(None, None, false, false))
  }

  function Ballot(h: nat, r: uint64, hash: string): seq<Event> {
    [Hello(h, r), Proposal(h, r, hash)]
  }

  function PayloadOf(h: nat, r: uint64, hash: string): Payload {
    Payload(h, PREPARE, r, Some(BlockOf(h, hash)))
  }

  function SignaturesOf(p: Payload, signers: seq<Address>): seq<PartialSig> {
    if signers == [] then [] else SignaturesOf(p, signers[..|signers| - 1]) + [PartialSig(Signed(signers[|signers| - 1], p), signers[|signers| - 1])]
  }

  function CertificateOf(h: nat, r: uint64, hash: string, signers: seq<Address>): QC {
    QC(h, r, PREPARE, Some(BlockOf(h, hash)), SignaturesOf(PayloadOf(h, r, hash), signers))
  }

  lemma {:induction false} SignaturesCount(p: Payload, signers: seq<Address>)
    requires forall i :: 0 <= i < |signers| ==> signers[i] in VALIDATORS
    ensures var sigs := SignaturesOf(p, signers);
      && |sigs| == |signers| && CountValid(VALIDATORS, p, sigs) == |signers|
      && forall i :: 0 <= i < |sigs| ==> sigs[i] == PartialSig(Signed(signers[i], p), signers[i])
  {
    if signers != [] {
      var n := |signers| - 1;
      SignaturesCount(p, signers[..n]);
      var sigs := SignaturesOf(p, signers);
      assert sigs[..n] == SignaturesOf(p, signers[..n]);
    }
  }

  lemma CertificateValid(h: nat, r: uint64, hash: string, signers: seq<Address>)
    requires |signers| == 3 && forall i :: 0 <= i < |signers| ==> signers[i] in VALIDATORS
    ensures var qc := CertificateOf(h, r, hash, signers);
      ValidQC(VALIDATORS, qc) && (Distinct(signers) ==> DistinctSigners(qc.sigs))
  {
    SignaturesCount(PayloadOf(h, r, hash), signers);
  }

  // ---------------------------------------------------------------- what a correct node does

  /** Round `r` of height `h` is led by "a". */
  predicate LedByFirst(h: nat, r: uint64) {
    ElectedId(h, r, NEWROUND, 4) == 1
  }

  /** The start of a height without a block. */
  predicate Start(s: State, h: nat) {
    AtStartOf(s, h, 0) && s.block.None? && s.lockedQC.None?
  }

  function VoteOf(self: Address, h: nat, r: uint64, hash: string): Msg {
    Msg(VOTE, h, PREPARE, r, Some(BlockOf(h, hash)), Partial(PartialSig(Signed(self, PayloadOf(h, r, hash)), self)))
  }

  lemma Elects(self: Address, id: nat, s: State, h: nat, r: uint64)
    requires id != 1 && Start(s, h) && LedByFirst(h, r)
    ensures Handling(Node(self, id), s, Hello(h, r).msg) == Continue(s.(round := r, leaderId := Some(1)))
  {
    hide ElectedId;
    assert |Node(self, id).validators(h)| == 4;
  }

  lemma Opens(self: Address, id: nat, s: State, h: nat, r: uint64)
    requires id != 1 && Start(s, h) && LedByFirst(h, r)
    ensures Step(Node(self, id), s, Hello(h, r)) == s.(round := r, leaderId := Some(1), step := PREPARE, uow := Some(Uow(h, false, None)))
  {
    hide Handling;
    Elects(self, id, s, h, r);
    StepIsDispatch(Node(self, id), s, Hello(h, r).msg, Hello(h, r).env);
  }

  lemma Votes(self: Address, id: nat, s: State, h: nat, r: uint64, hash: string)
    requires id != 1 && hash != "" && !s.panicked && s.height == h && s.round == r && s.step == PREPARE
    requires s.leaderId == Some(1) && s.block.None? && s.lockedQC.None? && s.uow == Some(Uow(h, false, None))
    ensures Step(Node(self, id), s, Proposal(h, r, hash))
         == s.(block := Some(BlockOf(h, hash)), step := PRECOMMIT, uow := Some(Uow(h, false, Some(hash))), sent := s.sent + [VoteOf(self, h, r, hash)])
  {
    var msg := Proposal(h, r, hash).msg;
    assert Handling(Node(self, id), s, msg) == Continue(s);
    hide Handling;
    StepIsDispatch(Node(self, id), s, msg, Proposal(h, r, hash).env);
  }

  function CommitOf(h: nat, r: uint64, hash: string, qc: QC): Commit {
    Commit(h, r, BlockOf(h, hash).(cert := Some(qc)), Some(hash))
  }

  lemma Decides(self: Address, id: nat, s: State, h: nat, r: uint64, hash: string, qc: QC)
    requires id != 1 && !s.panicked && s.height == h && s.round == r && s.step == PRECOMMIT && s.leaderId == Some(1)
    requires s.block == Some(BlockOf(h, hash)) && s.uow == Some(Uow(h, false, Some(hash))) && ValidQC(VALIDATORS, qc)
    ensures var t := Step(Node(self, id), s, Decision(h, r, hash, qc));
      && Start(t, h + 1) && t.commits == s.commits + [CommitOf(h, r, hash, qc)]
      && |t.sent| == |s.sent| + 1 && t.sent[..|s.sent|] == s.sent && t.sent[|s.sent|].step == NEWROUND
  {
    hide ValidQC;
    var msg := Decision(h, r, hash, qc).msg;
    assert Handling(Node(self, id), s, msg) == Continue(s.(step := DECIDE));
    hide Handling;
    StepIsDispatch(Node(self, id), s, msg, Decision(h, r, hash, qc).env);
  }

  lemma RunMore(c: Config, es: seq<Event>, e: Event)
    ensures Run(c, 0, es + [e]) == Step(c, Run(c, 0, es), e)
  {
    assert (es + [e])[..|es|] == es;
  }

  ghost predicate NeverProposes(s: State) {
    forall i :: 0 <= i < |s.sent| ==> s.sent[i].step != PREPARE || s.sent[i].kind != PROPOSE
  }

  /** A proposal is voted for. */
  lemma BallotRuns(self: Address, id: nat, es: seq<Event>, h: nat, r: uint64, hash: string)
    requires id != 1 && hash != "" && LedByFirst(h, r) && Start(Run(Node(self, id), 0, es), h)
    ensures var s := Run(Node(self, id), 0, es); var t := Run(Node(self, id), 0, es + Ballot(h, r, hash));
      t == s.(round := r, leaderId := Some(1), block := Some(BlockOf(h, hash)), step := PRECOMMIT,
              uow := Some(Uow(h, false, Some(hash))), sent := s.sent + [VoteOf(self, h, r, hash)])
      && (NeverProposes(s) ==> NeverProposes(t))
  {
    hide Step, Run;
    var c := Node(self, id);
    var s := Run(c, 0, es);
    RunMore(c, es, Hello(h, r));
    RunMore(c, es + [Hello(h, r)], Proposal(h, r, hash));
    assert es + Ballot(h, r, hash) == es + [Hello(h, r)] + [Proposal(h, r, hash)];
    Opens(self, id, s, h, r);
    Votes(self, id, Run(c, 0, es + [Hello(h, r)]), h, r, hash);
  }

  /** A proposal is voted for and committed under whatever valid certificate comes with the decision. */
  lemma DecisionRuns(self: Address, id: nat, es: seq<Event>, h: nat, r: uint64, hash: string, qc: QC)
    requires id != 1 && hash != "" && LedByFirst(h, r) && Start(Run(Node(self, id), 0, es), h) && ValidQC(VALIDATORS, qc)
    ensures var s := Run(Node(self, id), 0, es); var t := Run(Node(self, id), 0, es + Ballot(h, r, hash) + [Decision(h, r, hash, qc)]);
      && Start(t, h + 1) && t.commits == s.commits + [CommitOf(h, r, hash, qc)]
      && |t.sent| == |s.sent| + 2 && t.sent[..|s.sent|] == s.sent
      && t.sent[|s.sent|] == VoteOf(self, h, r, hash) && (NeverProposes(s) ==> NeverProposes(t))
  {
    hide Step, Run, ValidQC;
    var c := Node(self, id);
    BallotRuns(self, id, es, h, r, hash);
    var s, u := Run(c, 0, es), Run(c, 0, es + Ballot(h, r, hash));
    RunMore(c, es + Ballot(h, r, hash), Decision(h, r, hash, qc));
    Decides(self, id, u, h, r, hash, qc);
    var t := Run(c, 0, es + Ballot(h, r, hash) + [Decision(h, r, hash, qc)]);
    assert t.sent[..|u.sent|] == s.sent + [VoteOf(self, h, r, hash)];
    assert t.sent[..|s.sent|] == t.sent[..|u.sent|][..|s.sent|];
    assert t.sent[|s.sent|] == t.sent[..|u.sent|][|s.sent|];
    assert forall i :: 0 <= i < |u.sent| ==> t.sent[i] == t.sent[..|u.sent|][i];
  }

  // ---------------------------------------------------------------- three nodes side by side

  function ForNode(a: Address, es: seq<Event>): seq<NetEvent> {
    if es == [] then [] else ForNode(a, es[..|es| - 1]) + [NetEvent(a, es[|es| - 1])]
  }

  lemma EventsOfLast(evs: seq<NetEvent>, e: NetEvent, b: Address)
    ensures EventsOf(evs + [e], b) == EventsOf(evs, b) + if e.to == b then [e.event] else []
  {
    assert (evs + [e])[..|evs|] == evs;
  }

  lemma ForNodeLast(a: Address, es: seq<Event>, e: Event)
    ensures ForNode(a, es + [e]) == ForNode(a, es) + [NetEvent(a, e)] && ForNode(a, []) == []
  {
    assert (es + [e])[..|es|] == es;
  }

  lemma {:induction false} EventsOfMore(evs: seq<NetEvent>, a: Address, es: seq<Event>, b: Address)
    ensures EventsOf(evs + ForNode(a, es), b) == EventsOf(evs, b) + if a == b then es else []
    decreases |es|
  {
    hide EventsOf, ForNode;
    if es == [] {
      ForNodeLast(a, [], Timeout);
      assert evs + ForNode(a, es) == evs;
    } else {
      var front, e := es[..|es| - 1], es[|es| - 1];
      assert es == front + [e];
      EventsOfMore(evs, a, front, b);
      ForNodeLast(a, front, e);
      assert evs + (ForNode(a, front) + [NetEvent(a, e)]) == evs + ForNode(a, front) + [NetEvent(a, e)];
      EventsOfLast(evs + ForNode(a, front), NetEvent(a, e), b);
    }
  }

  function SideBySide(eb: seq<Event>, ec: seq<Event>, ed: seq<Event>): seq<NetEvent> {
    ForNode("b", eb) + ForNode("c", ec) + ForNode("d", ed)
  }

  lemma OwnEvents(eb: seq<Event>, ec: seq<Event>, ed: seq<Event>, x: Address)
    ensures EventsOf(SideBySide(eb, ec, ed), x) == (if x == "b" then eb else []) + (if x == "c" then ec else []) + (if x == "d" then ed else [])
  {
    hide EventsOf, ForNode;
    NoEvents(x);
    assert [] + ForNode("b", eb) == ForNode("b", eb);
    EventsOfMore([], "b", eb, x);
    EventsOfMore(ForNode("b", eb), "c", ec, x);
    EventsOfMore(ForNode("b", eb) + ForNode("c", ec), "d", ed, x);
  }

  lemma NoEvents(x: Address)
    ensures EventsOf([], x) == []
  {
  }

  lemma ThreeRuns(eb: seq<Event>, ec: seq<Event>, ed: seq<Event>)
    ensures var net := NetRun(Nodes(), 0, SideBySide(eb, ec, ed));
      && net.states["b"] == Run(Node("b", 2), 0, eb)
      && net.states["c"] == Run(Node("c", 3), 0, ec)
      && net.states["d"] == Run(Node("d", 4), 0, ed)
  {
    hide Run, NetRun, EventsOf, SideBySide;
    var evs := SideBySide(eb, ec, ed);
    assert eb + [] + [] == eb && [] + ec + [] == ec && [] + [] + ed == ed;
    OwnEvents(eb, ec, ed, "b");
    OwnEvents(eb, ec, ed, "c");
    OwnEvents(eb, ec, ed, "d");
    NetRunIsRun(Nodes(), 0, evs, "b");
    NetRunIsRun(Nodes(), 0, evs, "c");
    NetRunIsRun(Nodes(), 0, evs, "d");
  }

  /** Nodes that never propose leave only "a" unbound. */
  lemma OnlyFirstUnbound(net: Network, h: nat)
    requires net.states.Keys == {"b", "c", "d"} && forall a :: a in net.states ==> NeverProposes(net.states[a])
    ensures 3 * |Unbound(net, VALIDATORS, h)| <= |VALIDATORS|
  {
    var unbound := Unbound(net, VALIDATORS, h);
    forall a | a in unbound ensures a == "a" {
      assert a in net.states ==> NeverProposes(net.states[a]);
    }
    SubsetSize(unbound, {"a"});
  }

  lemma VotedPayload(s: State, i: nat, self: Address, h: nat, r: uint64, hash: string)
    requires i < |s.sent| && s.sent[i] == VoteOf(self, h, r, hash)
    ensures HasCast(s, PayloadOf(h, r, hash))
  {
  }

  lemma CertificateUnforged(net: Network, h: nat, r: uint64, hash: string, signers: seq<Address>)
    requires forall i :: 0 <= i < |signers| ==> signers[i] in VALIDATORS
    requires forall i :: 0 <= i < |signers| && signers[i] in net.states ==> HasCast(net.states[signers[i]], PayloadOf(h, r, hash))
    ensures Unforged(net, CertificateOf(h, r, hash, signers))
  {
    hide HasCast;
    SignaturesCount(PayloadOf(h, r, hash), signers);
  }

  /** Commits under valid certificates with genuine signatures can be compared. */
  lemma Compare(evs: seq<NetEvent>, a: Address, k: nat, b: Address, l: nat)
    requires a in Nodes() && b in Nodes()
    requires var net := NetRun(Nodes(), 0, evs);
      && k < |net.states[a].commits| && l < |net.states[b].commits|
      && NeverProposes(net.states["b"]) && NeverProposes(net.states["c"]) && NeverProposes(net.states["d"])
      && var x, y := net.states[a].commits[k], net.states[b].commits[l];
         && x.height == y.height && x.block.cert.Some? && y.block.cert.Some?
         && ValidQC(VALIDATORS, x.block.cert.value) && ValidQC(VALIDATORS, y.block.cert.value)
         && Unforged(net, x.block.cert.value) && Unforged(net, y.block.cert.value)
    ensures Comparable(Nodes(), 0, evs, a, k, b, l)
  {
    hide ValidQC, Unforged, NeverProposes, NetRun;
    OnlyFirstUnbound(NetRun(Nodes(), 0, evs), NetRun(Nodes(), 0, evs).states[a].commits[k].height);
  }

  // ---------------------------------------------------------------- the four-validator runs

  function Visit(h: nat, r: uint64, hash: string, qc: QC): seq<Event> {
    Ballot(h, r, hash) + [Decision(h, r, hash, qc)]
  }

  /** One vote and one commit of height 0 under a certificate. */
  lemma FirstCommit(self: Address, id: nat, hash: string, qc: QC)
    requires id != 1 && hash != "" && ValidQC(VALIDATORS, qc)
    ensures var s := Run(Node(self, id), 0, Visit(0, 0, hash, qc));
      && Start(s, 1) && s.commits == [CommitOf(0, 0, hash, qc)] && NeverProposes(s)
      && |s.sent| == 2 && s.sent[0] == VoteOf(self, 0, 0, hash)
  {
    hide ValidQC, Run, Start, LedByFirst, Node, Ballot, Decision, CommitOf, VoteOf, NeverProposes;
    FirstHeight(Node(self, id));
    DecisionRuns(self, id, [], 0, 0, hash, qc);
    assert [] + Ballot(0, 0, hash) + [Decision(0, 0, hash, qc)] == Visit(0, 0, hash, qc);
  }

  lemma FirstHeight(c: Config)
    ensures var s := Run(c, 0, []); s == Init(0) && s.sent == [] && s.commits == [] && Start(s, 0) && NeverProposes(s) && LedByFirst(0, 0)
  {
  }

  lemma FirstVote(self: Address, id: nat, hash: string)
    requires id != 1 && hash != ""
    ensures var s := Run(Node(self, id), 0, Ballot(0, 0, hash)); s.sent == [VoteOf(self, 0, 0, hash)] && NeverProposes(s)
  {
    hide Run, Start, LedByFirst, Node, Ballot, VoteOf, NeverProposes;
    FirstHeight(Node(self, id));
    BallotRuns(self, id, [], 0, 0, hash);
    assert [] + Ballot(0, 0, hash) == Ballot(0, 0, hash);
  }

  lemma CommitFacts(h: nat, r: uint64, hash: string, qc: QC)
    ensures var x := CommitOf(h, r, hash, qc); x.height == h && x.block.stateHash == hash && x.block.cert == Some(qc)
  {
  }

  lemma CertificateFacts(h: nat, r: uint64, hash: string, signers: seq<Address>)
    ensures var qc := CertificateOf(h, r, hash, signers); qc.height == h && qc.block.Some? && qc.block.value.stateHash == hash
  {
  }

  /**
   One certificate, two commits: "b" and "d" were proposed different blocks, and the certificate of the
   first, signed by "a", "b" and "c", takes both of them to commit their own.
   */
  lemma ForeignCertificateSplitsCommits(hash1: string, hash2: string) returns (evs: seq<NetEvent>)
    requires hash1 != "" && hash2 != ""
    ensures Comparable(Nodes(), 0, evs, "b", 0, "d", 0)
    ensures var net := NetRun(Nodes(), 0, evs); var x, y := net.states["b"].commits[0], net.states["d"].commits[0];
      && CountsOnce(x) && CountsOnce(y) && IsFor(x) && y.block.cert == x.block.cert
      && x.height == y.height == 0 && x.block.stateHash == hash1 && y.block.stateHash == hash2
  {
    hide Run, NetRun, ValidQC, Visit, Ballot, CertificateOf, CommitOf, VoteOf, NeverProposes, Unforged, HasCast, Comparable, DistinctSigners;
    hide SideBySide, PayloadOf, Start, Node;
    var signers := ["a", "b", "c"];
    var qc := CertificateOf(0, 0, hash1, signers);
    CertificateValid(0, 0, hash1, signers);
    CertificateFacts(0, 0, hash1, signers);
    CommitFacts(0, 0, hash1, qc);
    CommitFacts(0, 0, hash2, qc);
    FirstCommit("b", 2, hash1, qc);
    FirstVote("c", 3, hash1);
    FirstCommit("d", 4, hash2, qc);
    evs := SideBySide(Visit(0, 0, hash1, qc), Ballot(0, 0, hash1), Visit(0, 0, hash2, qc));
    ThreeRuns(Visit(0, 0, hash1, qc), Ballot(0, 0, hash1), Visit(0, 0, hash2, qc));
    GenuineVotes(evs, 0, 0, hash1, "b", 0, "c", 0);
    Compare(evs, "b", 0, "d", 0);
  }

  /** A certificate of "a" and two nodes that have voted has genuine signatures only. */
  lemma GenuineVotes(evs: seq<NetEvent>, h: nat, r: uint64, hash: string, x: Address, i: nat, y: Address, j: nat)
    requires x in Nodes() && y in Nodes()
    requires var states := NetRun(Nodes(), 0, evs).states;
      && i < |states[x].sent| && states[x].sent[i] == VoteOf(x, h, r, hash)
      && j < |states[y].sent| && states[y].sent[j] == VoteOf(y, h, r, hash)
    ensures Unforged(NetRun(Nodes(), 0, evs), CertificateOf(h, r, hash, ["a", x, y]))
  {
    hide NetRun, CertificateOf, Unforged, HasCast;
    var net := NetRun(Nodes(), 0, evs);
    VotedPayload(net.states[x], i, x, h, r, hash);
    VotedPayload(net.states[y], j, y, h, r, hash);
    CertificateUnforged(net, h, r, hash, ["a", x, y]);
  }

  /** A certificate that lists one signature three times passes validation, so "a" alone can certify what it likes. */
  lemma RepeatedSignatureSplitsCommits(hash1: string, hash2: string) returns (evs: seq<NetEvent>)
    requires hash1 != "" && hash2 != ""
    ensures Comparable(Nodes(), 0, evs, "b", 0, "d", 0)
    ensures var net := NetRun(Nodes(), 0, evs); var x, y := net.states["b"].commits[0], net.states["d"].commits[0];
      && CountsOnce(x) && IsFor(x) && IsFor(y)
      && x.height == y.height == 0 && x.block.stateHash == hash1 && y.block.stateHash == hash2
  {
    hide Run, NetRun, ValidQC, Visit, Ballot, CertificateOf, CommitOf, VoteOf, NeverProposes, Unforged, HasCast, Comparable, DistinctSigners;
    hide SideBySide, PayloadOf, Start, Node;
    var signers, alone := ["a", "b", "c"], ["a", "a", "a"];
    var qc, qc' := CertificateOf(0, 0, hash1, signers), CertificateOf(0, 0, hash2, alone);
    CertificateValid(0, 0, hash1, signers);
    CertificateValid(0, 0, hash2, alone);
    CertificateFacts(0, 0, hash1, signers);
    CertificateFacts(0, 0, hash2, alone);
    CommitFacts(0, 0, hash1, qc);
    CommitFacts(0, 0, hash2, qc');
    FirstCommit("b", 2, hash1, qc);
    FirstVote("c", 3, hash1);
    FirstCommit("d", 4, hash2, qc');
    evs := SideBySide(Visit(0, 0, hash1, qc), Ballot(0, 0, hash1), Visit(0, 0, hash2, qc'));
    ThreeRuns(Visit(0, 0, hash1, qc), Ballot(0, 0, hash1), Visit(0, 0, hash2, qc'));
    GenuineVotes(evs, 0, 0, hash1, "b", 0, "c", 0);
    CertificateUnforged(NetRun(Nodes(), 0, evs), 0, 0, hash2, alone);
    Compare(evs, "b", 0, "d", 0);
  }

  // ---------------------------------------------------------------- a certificate of another height

  lemma SecondHeight()
    ensures LedByFirst(1, 3)
  {
  }

  lemma VisitAfter(es: seq<Event>, h: nat, r: uint64, hash: string, qc: QC)
    ensures es + Ballot(h, r, hash) + [Decision(h, r, hash, qc)] == es + Visit(h, r, hash, qc)
  {
    hide Ballot, Decision;
    assert es + Ballot(h, r, hash) + [Decision(h, r, hash, qc)] == es + (Ballot(h, r, hash) + [Decision(h, r, hash, qc)]);
  }

  /** A node that committed at height 0 votes and commits at height 1, in the round that "a" leads there. */
  lemma SecondCommit(self: Address, id: nat, first: string, qc: QC, hash: string, qc': QC)
    requires id != 1 && first != "" && hash != "" && ValidQC(VALIDATORS, qc) && ValidQC(VALIDATORS, qc')
    ensures var s := Run(Node(self, id), 0, Visit(0, 0, first, qc) + Visit(1, 3, hash, qc'));
      && s.commits == [CommitOf(0, 0, first, qc), CommitOf(1, 3, hash, qc')] && NeverProposes(s)
      && |s.sent| == 4 && s.sent[0] == VoteOf(self, 0, 0, first) && s.sent[2] == VoteOf(self, 1, 3, hash)
  {
    hide Run, ValidQC, Start, LedByFirst, Node, Visit, Ballot, Decision, CommitOf, VoteOf, NeverProposes;
    var es := Visit(0, 0, first, qc);
    VisitAfter(es, 1, 3, hash, qc');
    SecondHeight();
    FirstCommit(self, id, first, qc);
    DecisionRuns(self, id, es, 1, 3, hash, qc');
    var s, t := Run(Node(self, id), 0, es), Run(Node(self, id), 0, es + Visit(1, 3, hash, qc'));
    assert t.sent[0] == t.sent[..2][0] == s.sent[0];
  }

  lemma SecondVote(self: Address, id: nat, first: string, qc: QC, hash: string)
    requires id != 1 && first != "" && hash != "" && ValidQC(VALIDATORS, qc)
    ensures var s := Run(Node(self, id), 0, Visit(0, 0, first, qc) + Ballot(1, 3, hash));
      NeverProposes(s) && |s.sent| == 3 && s.sent[0] == VoteOf(self, 0, 0, first) && s.sent[2] == VoteOf(self, 1, 3, hash)
  {
    hide Run, ValidQC, Start, LedByFirst, Node, Visit, Ballot, CommitOf, VoteOf, NeverProposes;
    SecondHeight();
    FirstCommit(self, id, first, qc);
    BallotRuns(self, id, Visit(0, 0, first, qc), 1, 3, hash);
  }

  /**
   A certificate of height 0 that is for the node's state hash serves again at height 1: "b" commits the old
   state hash there, under it, while "d" commits another one under a certificate of height 1.
   */
  lemma OldCertificateSplitsCommits(hash1: string, hash2: string) returns (evs: seq<NetEvent>)
    requires hash1 != "" && hash2 != ""
    ensures Comparable(Nodes(), 0, evs, "d", 1, "b", 1)
    ensures var net := NetRun(Nodes(), 0, evs); var x, y := net.states["d"].commits[1], net.states["b"].commits[1];
      && CountsOnce(x) && CountsOnce(y) && IsFor(x)
      && y.block.cert.Some? && y.block.cert.value.block.Some? && y.block.cert.value.block.value.stateHash == y.block.stateHash
      && x.height == y.height == 1 && x.block.stateHash == hash2 && y.block.stateHash == hash1
  {
    hide Run, NetRun, ValidQC, Visit, Ballot, CertificateOf, CommitOf, VoteOf, NeverProposes, Unforged, HasCast, Comparable, DistinctSigners;
    hide SideBySide, PayloadOf, Start, Node;
    var signers, others := ["a", "b", "c"], ["a", "c", "d"];
    var qc, qc' := CertificateOf(0, 0, hash1, signers), CertificateOf(1, 3, hash2, others);
    CertificateValid(0, 0, hash1, signers);
    CertificateValid(1, 3, hash2, others);
    CertificateFacts(0, 0, hash1, signers);
    CertificateFacts(1, 3, hash2, others);
    CommitFacts(1, 3, hash1, qc);
    CommitFacts(1, 3, hash2, qc');
    SecondCommit("b", 2, hash1, qc, hash1, qc);
    SecondVote("c", 3, hash1, qc, hash2);
    SecondCommit("d", 4, hash1, qc, hash2, qc');
    var first := Visit(0, 0, hash1, qc);
    evs := SideBySide(first + Visit(1, 3, hash1, qc), first + Ballot(1, 3, hash2), first + Visit(1, 3, hash2, qc'));
    ThreeRuns(first + Visit(1, 3, hash1, qc), first + Ballot(1, 3, hash2), first + Visit(1, 3, hash2, qc'));
    GenuineVotes(evs, 0, 0, hash1, "b", 0, "c", 0);
    GenuineVotes(evs, 1, 3, hash2, "c", 2, "d", 2);
    Compare(evs, "d", 1, "b", 1);
  }

  // ---------------------------------------------------------------- a leader's own certificate

  /** A Commit message of round 2, which "b" leads from that step on; as a Propose message it is not checked. */
  function CommitMessage(kind: int, hash: string, sig: PartialSig): Event {
    Deliver(Msg(kind, 0, COMMIT, 2, Some(BlockOf(0, hash)), Partial(sig)), Env(None, None, false, false))
  }

  function CommitSignature(hash: string, signer: Address, address: Address): PartialSig {
    PartialSig(Signed(signer, Payload(0, COMMIT, 2, Some(BlockOf(0, hash)))), address)
  }

  /** "b" holds an executed block and collects Commit messages in round 2. */
  predicate Collects(s: State, hash: string, msgs: seq<Msg>) {
    && !s.panicked && s.height == 0 && s.round == 2 && s.step == COMMIT && s.leaderId == Some(2)
    && s.block == Some(BlockOf(0, hash)) && s.uow == Some(Uow(0, false, Some(hash))) && s.commits == []
    && Pool(s, COMMIT) == msgs
  }

  lemma SmuggledStarts(s: State, hash: string)
    requires s == Init(0).(leaderId := Some(1), block := Some(BlockOf(0, hash)), step := PRECOMMIT, uow := Some(Uow(0, false, Some(hash))), sent := s.sent)
    ensures var ev := CommitMessage(PROPOSE, hash, CommitSignature(hash, "a", "d"));
      Collects(Step(Node("b", 2), s, ev), hash, [ev.msg])
  {
    var ev := CommitMessage(PROPOSE, hash, CommitSignature(hash, "a", "d"));
    var t := s.(step := COMMIT, round := 2, leaderId := Some(2));
    assert ElectedId(0, 2, COMMIT, 4) == 2;
    assert Handling(Node("b", 2), s, ev.msg) == Continue(t);
    hide Handling;
    StepIsDispatch(Node("b", 2), s, ev.msg, ev.env);
    assert Pool(t, COMMIT) + [ev.msg] == [ev.msg];
    assert LeaderAnte(Node("b", 2), t, ev.msg, ev.env) == Continue(SetPool(t, COMMIT, [ev.msg]));
  }

  lemma VoteCollected(s: State, hash: string, msgs: seq<Msg>, signer: Address)
    requires Collects(s, hash, msgs) && signer in VALIDATORS && signer != ""
    ensures var ev := CommitMessage(VOTE, hash, CommitSignature(hash, signer, signer));
      var t := SetPool(s, COMMIT, msgs + [ev.msg]);
      Step(Node("b", 2), s, ev) == LeaderCommitFrom(t)
  {
    var ev := CommitMessage(VOTE, hash, CommitSignature(hash, signer, signer));
    assert Handling(Node("b", 2), s, ev.msg) == Continue(s);
    hide Handling;
    StepIsDispatch(Node("b", 2), s, ev.msg, ev.env);
    assert LeaderAnte(Node("b", 2), s, ev.msg, ev.env) == Continue(SetPool(s, COMMIT, msgs + [ev.msg]));
  }

  /** What the leader does once a Commit message is stored. */
  function LeaderCommitFrom(t: State): State {
    var c := Node("b", 2);
    if !EnoughMessages(c, t, COMMIT) then t else
    var qc := QuorumCertificate(c, t, COMMIT);
    var u := SetPool(t, COMMIT, []);
    if qc.None? then u
    else if u.block.None? then InterruptRound(u.(step := DECIDE))
    else CommitBlock(Propose(c, u.(step := DECIDE), DECIDE, qc, false), qc.value)
  }

  lemma ThreeSignatures(s: State, hash: string, m0: Msg, m1: Msg, m2: Msg)
    requires s.height == 0 && s.round == 2 && Matching(s, COMMIT, m0) && Matching(s, COMMIT, m1) && Matching(s, COMMIT, m2)
    ensures Signatures(s, COMMIT, [m0, m1, m2]) == [m0.PartialSignature().value, m1.PartialSignature().value, m2.PartialSignature().value]
  {
    var msgs := [m0, m1, m2];
    assert msgs[..2][..1] == [m0] && [m0][..0] == [] && msgs[..2] == [m0, m1];
    assert Signatures(s, COMMIT, [m0]) == [m0.PartialSignature().value];
    assert Signatures(s, COMMIT, [m0, m1]) == [m0.PartialSignature().value, m1.PartialSignature().value];
  }

  lemma OneMoreIsNotEnough(s: State, hash: string, msgs: seq<Msg>, signer: Address)
    requires Collects(s, hash, msgs) && |msgs| == 1 && signer in VALIDATORS && signer != ""
    ensures var ev := CommitMessage(VOTE, hash, CommitSignature(hash, signer, signer));
      Collects(Step(Node("b", 2), s, ev), hash, msgs + [ev.msg])
  {
    hide Step;
    VoteCollected(s, hash, msgs, signer);
    assert |Node("b", 2).validators(0)| == 4;
  }

  lemma ThirdCommits(s: State, hash: string, m0: Msg, m1: Msg, signer: Address)
    requires Collects(s, hash, [m0, m1]) && Matching(s, COMMIT, m0) && Matching(s, COMMIT, m1) && signer in VALIDATORS && signer != ""
    ensures var ev := CommitMessage(VOTE, hash, CommitSignature(hash, signer, signer));
      var sigs := [m0.PartialSignature().value, m1.PartialSignature().value, CommitSignature(hash, signer, signer)];
      Step(Node("b", 2), s, ev).commits == [CommitOf(0, 2, hash, QC(0, 2, COMMIT, Some(BlockOf(0, hash)), sigs))]
  {
    hide Step;
    var ev := CommitMessage(VOTE, hash, CommitSignature(hash, signer, signer));
    VoteCollected(s, hash, [m0, m1], signer);
    assert [m0, m1] + [ev.msg] == [m0, m1, ev.msg];
    var t := SetPool(s, COMMIT, [m0, m1, ev.msg]);
    ThreeSignatures(t, hash, m0, m1, ev.msg);
    assert |Node("b", 2).validators(0)| == 4;
  }

  lemma SmuggledIsInvalid(hash: string)
    ensures var sigs := [CommitSignature(hash, "a", "d"), CommitSignature(hash, "a", "a"), CommitSignature(hash, "c", "c")];
      var qc := QC(0, 2, COMMIT, Some(BlockOf(0, hash)), sigs);
      DistinctSigners(sigs) && !ValidQC(VALIDATORS, qc)
  {
    var sigs := [CommitSignature(hash, "a", "d"), CommitSignature(hash, "a", "a"), CommitSignature(hash, "c", "c")];
    var p := Payload(0, COMMIT, 2, Some(BlockOf(0, hash)));
    assert sigs[..2][..1] == sigs[..1] && sigs[..1][..0] == [];
    assert !ValidSig(VALIDATORS, p, sigs[0]);
    assert CountValid(VALIDATORS, p, sigs[..1]) == 0;
    assert CountValid(VALIDATORS, p, sigs[..2]) <= 1;
  }

  /**
   A leader that is elected by a Propose message of step Commit counts the signature in it unchecked: "b"
   commits in its round under a certificate for its block, of three signers, that no replica accepts.
   */
  lemma LeaderCommitsOnSmuggledVote(hash: string) returns (evs: seq<Event>)
    requires hash != ""
    ensures var s := Run(Node("b", 2), 0, evs);
      && |s.commits| == 1 && IsFor(s.commits[0]) && CountsOnce(s.commits[0])
      && !ValidQC(VALIDATORS, s.commits[0].block.cert.value)
      && !NothingSmuggled(Delivered(evs), s.commits[0].height, s.commits[0].round)
  {
    hide Step, Run, ValidQC, DistinctSigners, Ballot;
    var c := Node("b", 2);
    var e0 := CommitMessage(PROPOSE, hash, CommitSignature(hash, "a", "d"));
    var e1 := CommitMessage(VOTE, hash, CommitSignature(hash, "a", "a"));
    var e2 := CommitMessage(VOTE, hash, CommitSignature(hash, "c", "c"));
    var es := Ballot(0, 0, hash);
    FirstStates(hash);
    SmuggledStarts(Run(c, 0, es), hash);
    RunMore(c, es, e0);
    OneMoreIsNotEnough(Run(c, 0, es + [e0]), hash, [e0.msg], "a");
    RunMore(c, es + [e0], e1);
    assert [e0.msg] + [e1.msg] == [e0.msg, e1.msg];
    ThirdCommits(Run(c, 0, es + [e0] + [e1]), hash, e0.msg, e1.msg, "c");
    RunMore(c, es + [e0] + [e1], e2);
    SmuggledIsInvalid(hash);
    evs := es + [e0] + [e1] + [e2];
    assert e0 in evs && e0.msg in Delivered(evs);
  }

  lemma FirstStates(hash: string)
    requires hash != ""
    ensures var s := Run(Node("b", 2), 0, Ballot(0, 0, hash));
      s == Init(0).(leaderId := Some(1), block := Some(BlockOf(0, hash)), step := PRECOMMIT, uow := Some(Uow(0, false, Some(hash))), sent := s.sent)
  {
    hide Run, Start, LedByFirst, Node, Ballot, NeverProposes;
    FirstHeight(Node("b", 2));
    BallotRuns("b", 2, [], 0, 0, hash);
    assert [] + Ballot(0, 0, hash) == Ballot(0, 0, hash);
  }
}
