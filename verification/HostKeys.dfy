/** ibc/host: identifiers and the store keys of ICS-24, and why no two keys coincide. */
module HostKeys {
  import opened Common

  // ---------------------------------------------------------------- identifiers

  const IDENTIFIER_PREFIX := '#'
  const LOWER := "abcdefghijklmnopqrstuvwxyz"
  const UPPER := "ABCDEFGHIJKLMNOPQRSTUVWXYZ"
  const DIGITS_AND_MARKS := "0123456789._+-#[]<>"
  const IDENTIFIER_CHARSET := LOWER + UPPER + DIGITS_AND_MARKS

  const DEFAULT_MIN_ID_LENGTH := 32
  const DEFAULT_MAX_ID_LENGTH := 64
  const MIN_CLIENT_ID_LENGTH := 9
  const MIN_CONNECTION_ID_LENGTH := 10
  const MIN_CHANNEL_ID_LENGTH := 8
  const MIN_PORT_ID_LENGTH := 2
  const MAX_PORT_ID_LENGTH := 128

  predicate IsSpace(c: char) {
    c == ' ' || '\t' <= c <= '\r' || c == '\U{85}' || c == '\U{A0}'
  }

  /** What an identifier must look like. */
  predicate ValidId(id: string, min: nat, max: nat) {
    && min <= |id| <= max && id != [] && id[0] == IDENTIFIER_PREFIX
    && forall i :: 0 <= i < |id| ==> InCharset(id[i])
  }

  predicate InCharset(c: char) {
    c in IDENTIFIER_CHARSET
  }

  /** Runs the checks in order and stops at the first that fails. */
  method BasicValidation(id: string, minLength: nat, maxLength: nat) returns (ok: bool)
    ensures ok <==> ValidId(id, minLength, maxLength)
    ensures ok ==> '/' !in id
  {
    hide InCharset;
    SlashNotInCharset();
    var blank := true;
    for i := 0 to |id|
      invariant blank <==> forall j :: 0 <= j < i ==> IsSpace(id[j])
    {
      if !IsSpace(id[i]) { blank := false; }
    }
    if blank { return false; }
    if |id| < minLength || |id| > maxLength { return false; }
    if id[0] != IDENTIFIER_PREFIX { return false; }
    for i := 0 to |id|
      invariant '/' !in id[..i]
    {
      if id[i] == '/' { return false; }
    }
    for i := 0 to |id|
      invariant forall j :: 0 <= j < i ==> InCharset(id[j])
    {
      if !InCharset(id[i]) { return false; }
    }
    return true;
  }

  lemma SlashNotInCharset()
    ensures !InCharset('/') && InCharset(IDENTIFIER_PREFIX)
  {
    assert '/' !in LOWER;
    assert '/' !in UPPER;
    assert '/' !in DIGITS_AND_MARKS;
    assert DIGITS_AND_MARKS[14] == IDENTIFIER_PREFIX;
  }

  /** `random` supplies the values of the seeded generator, reduced as Intn does. */
  method GenerateIdentifier(min: nat, max: nat, random: nat -> nat) returns (id: string)
    requires min <= DEFAULT_MIN_ID_LENGTH && DEFAULT_MIN_ID_LENGTH - min + 1 < max
    ensures ValidId(id, DEFAULT_MIN_ID_LENGTH - min + 1, max)
    ensures 2 * min <= DEFAULT_MIN_ID_LENGTH + 1 ==> ValidId(id, min, max)
  {
    var localMin := DEFAULT_MIN_ID_LENGTH - min;
    var size := random(0) % (max - 1 - localMin) + localMin;
    var b: seq<char> := [];
    for i := 0 to size
      invariant |b| == i && forall j :: 0 <= j < i ==> InCharset(b[j])
    {
      b := b + [IDENTIFIER_CHARSET[random(i + 1) % |IDENTIFIER_CHARSET|]];
    }
    SlashNotInCharset();
    id := [IDENTIFIER_PREFIX] + b;
  }

  // ---------------------------------------------------------------- path printers

  function Itoa(n: nat): (s: string)
    ensures s != [] && forall i :: 0 <= i < |s| ==> '0' <= s[i] <= '9'
  {
    if n < 10 then ['0' + n as char] else Itoa(n / 10) + ['0' + (n % 10) as char]
  }

  function FullClientPath(clientId: string, key: string): string {
    "clients" + "/" + clientId + "/" + key
  }

  function ConsensusStatePath(height: nat): string {
    "consensusStates" + "/" + Itoa(height)
  }

  function ChannelPath(portId: string, channelId: string): string {
    "ports" + "/" + portId + "/" + "channels" + "/" + channelId
  }

  function SequencePath(sequence: nat): string {
    "sequences" + "/" + Itoa(sequence)
  }

  /** What is stored in the IBC store. */
  datatype Entry =
    | ClientState(client: string)
    | ConsensusState(client: string, height: nat)
    | ClientConnections(client: string)
    | Connection(connection: string)
    | ChannelEnd(port: string, channel: string)
    | ChannelCapability(port: string, channel: string)
    | NextSequenceSend(port: string, channel: string)
    | NextSequenceRecv(port: string, channel: string)
    | NextSequenceAck(port: string, channel: string)
    | PacketCommitment(port: string, channel: string, sequence: nat)
    | PacketAck(port: string, channel: string, sequence: nat)
    | PacketReceipt(port: string, channel: string, sequence: nat)
    | Port(port: string)

  function StoreKey(e: Entry): string {
    match e
    case ClientState(id) => FullClientPath(id, "clientState")
    case ConsensusState(id, h) => FullClientPath(id, ConsensusStatePath(h))
    case ClientConnections(id) => FullClientPath(id, "connections")
    case Connection(id) => "connections" + "/" + id
    case ChannelEnd(p, ch) => "channelEnds" + "/" + ChannelPath(p, ch)
    case ChannelCapability(p, ch) => "capabilities" + "/" + ChannelPath(p, ch)
    case NextSequenceSend(p, ch) => "nextSequenceSend" + "/" + ChannelPath(p, ch)
    case NextSequenceRecv(p, ch) => "nextSequenceRecv" + "/" + ChannelPath(p, ch)
    case NextSequenceAck(p, ch) => "nextSequenceAck" + "/" + ChannelPath(p, ch)
    case PacketCommitment(p, ch, n) => "commitments" + "/" + ChannelPath(p, ch) + "/" + "sequences" + "/" + Itoa(n)
    case PacketAck(p, ch, n) => "acks" + "/" + ChannelPath(p, ch) + "/" + "sequences" + "/" + Itoa(n)
    case PacketReceipt(p, ch, n) => "receipts" + "/" + ChannelPath(p, ch) + "/" + SequencePath(n)
    case Port(p) => "ports" + "/" + p
  }

  predicate ValidEntry(e: Entry) {
    && (e.ClientState? || e.ConsensusState? || e.ClientConnections? ==> ValidId(e.client, MIN_CLIENT_ID_LENGTH, DEFAULT_MAX_ID_LENGTH))
    && (e.Connection? ==> ValidId(e.connection, MIN_CONNECTION_ID_LENGTH, DEFAULT_MAX_ID_LENGTH))
    && (!(e.ClientState? || e.ConsensusState? || e.ClientConnections? || e.Connection?) ==>
          ValidId(e.port, MIN_PORT_ID_LENGTH, MAX_PORT_ID_LENGTH))
    && (!(e.ClientState? || e.ConsensusState? || e.ClientConnections? || e.Connection? || e.Port?) ==>
          ValidId(e.channel, MIN_CHANNEL_ID_LENGTH, DEFAULT_MAX_ID_LENGTH))
  }

  // ---------------------------------------------------------------- segments

  function Join(segments: seq<string>): string
    requires segments != []
  {
    if |segments| == 1 then segments[0] else segments[0] + "/" + Join(segments[1..])
  }

  /** The slash-separated parts of a key. */
  function Segments(e: Entry): (r: seq<string>)
    ensures r != []
  {
    match e
    case ClientState(id) => ["clients", id, "clientState"]
    case ConsensusState(id, h) => ["clients", id, "consensusStates", Itoa(h)]
    case ClientConnections(id) => ["clients", id, "connections"]
    case Connection(id) => ["connections", id]
    case ChannelEnd(p, ch) => ["channelEnds", "ports", p, "channels", ch]
    case ChannelCapability(p, ch) => ["capabilities", "ports", p, "channels", ch]
    case NextSequenceSend(p, ch) => ["nextSequenceSend", "ports", p, "channels", ch]
    case NextSequenceRecv(p, ch) => ["nextSequenceRecv", "ports", p, "channels", ch]
    case NextSequenceAck(p, ch) => ["nextSequenceAck", "ports", p, "channels", ch]
    case PacketCommitment(p, ch, n) => ["commitments", "ports", p, "channels", ch, "sequences", Itoa(n)]
    case PacketAck(p, ch, n) => ["acks", "ports", p, "channels", ch, "sequences", Itoa(n)]
    case PacketReceipt(p, ch, n) => ["receipts", "ports", p, "channels", ch, "sequences", Itoa(n)]
    case Port(p) => ["ports", p]
  }

  lemma Join2(a: string, b: string)
    ensures Join([a, b]) == a + "/" + b
  {
    assert [a, b][1..] == [b];
  }

  lemma JoinMore(a: string, rest: seq<string>)
    requires rest != []
    ensures Join([a] + rest) == a + "/" + Join(rest)
  {
    assert ([a] + rest)[1..] == rest;
  }

  lemma JoinChannel(kind: string, p: string, ch: string)
    ensures Join([kind, "ports", p, "channels", ch]) == kind + "/" + ChannelPath(p, ch)
  {
    hide Join;
    Join2("channels", ch);
    JoinMore(p, ["channels", ch]);
    JoinMore("ports", [p, "channels", ch]);
    JoinMore(kind, ["ports", p, "channels", ch]);
    assert [kind] + ["ports", p, "channels", ch] == [kind, "ports", p, "channels", ch];
    assert ["ports"] + [p, "channels", ch] == ["ports", p, "channels", ch];
    assert [p] + ["channels", ch] == [p, "channels", ch];
  }

  lemma JoinPacket(kind: string, p: string, ch: string, n: string)
    ensures Join([kind, "ports", p, "channels", ch, "sequences", n]) == kind + "/" + ChannelPath(p, ch) + "/" + "sequences" + "/" + n
  {
    hide Join;
    Join2("sequences", n);
    JoinMore(ch, ["sequences", n]);
    JoinMore("channels", [ch, "sequences", n]);
    JoinMore(p, ["channels", ch, "sequences", n]);
    JoinMore("ports", [p, "channels", ch, "sequences", n]);
    JoinMore(kind, ["ports", p, "channels", ch, "sequences", n]);
    assert [kind] + ["ports", p, "channels", ch, "sequences", n] == [kind, "ports", p, "channels", ch, "sequences", n];
    assert ["ports"] + [p, "channels", ch, "sequences", n] == ["ports", p, "channels", ch, "sequences", n];
    assert [p] + ["channels", ch, "sequences", n] == [p, "channels", ch, "sequences", n];
    assert ["channels"] + [ch, "sequences", n] == ["channels", ch, "sequences", n];
    assert [ch] + ["sequences", n] == [ch, "sequences", n];
  }

  lemma JoinClient(id: string, key: string)
    ensures Join(["clients", id, key]) == FullClientPath(id, key)
  {
    Join2(id, key);
    JoinMore("clients", [id, key]);
    assert ["clients"] + [id, key] == ["clients", id, key];
  }

  lemma JoinConsensus(id: string, h: string)
    ensures Join(["clients", id, "consensusStates", h]) == "clients" + "/" + id + "/" + ("consensusStates" + "/" + h)
  {
    Join2("consensusStates", h);
    JoinMore(id, ["consensusStates", h]);
    JoinMore("clients", [id, "consensusStates", h]);
    assert ["clients"] + [id, "consensusStates", h] == ["clients", id, "consensusStates", h];
    assert [id] + ["consensusStates", h] == [id, "consensusStates", h];
  }

  /** Every printer of a store key joins the segments of its entry. */
  lemma StoreKeyJoinsSegments(e: Entry)
    ensures StoreKey(e) == Join(Segments(e))
  {
    hide Join;
    match e
    case ClientState(id) => JoinClient(id, "clientState");
    case ConsensusState(id, h) => JoinConsensus(id, Itoa(h));
    case ClientConnections(id) => JoinClient(id, "connections");
    case Connection(id) => Join2("connections", id);
    case ChannelEnd(p, ch) => JoinChannel("channelEnds", p, ch);
    case ChannelCapability(p, ch) => JoinChannel("capabilities", p, ch);
    case NextSequenceSend(p, ch) => JoinChannel("nextSequenceSend", p, ch);
    case NextSequenceRecv(p, ch) => JoinChannel("nextSequenceRecv", p, ch);
    case NextSequenceAck(p, ch) => JoinChannel("nextSequenceAck", p, ch);
    case PacketCommitment(p, ch, n) => JoinPacket("commitments", p, ch, Itoa(n));
    case PacketAck(p, ch, n) => JoinPacket("acks", p, ch, Itoa(n));
    case PacketReceipt(p, ch, n) => JoinPacket("receipts", p, ch, Itoa(n));
    case Port(p) => Join2("ports", p);
  }

  ghost predicate AllNoSlash(segments: seq<string>) {
    forall i :: 0 <= i < |segments| ==> NoSlash(segments[i])
  }

  /** Up to its first slash a joined string is its first segment. */
  lemma JoinHead(a: seq<string>)
    requires a != [] && AllNoSlash(a)
    ensures |a[0]| <= |Join(a)| && Join(a)[..|a[0]|] == a[0]
    ensures |a| == 1 <==> |Join(a)| == |a[0]|
    ensures |a| > 1 ==> Join(a)[|a[0]|] == '/' && Join(a)[|a[0]| + 1..] == Join(a[1..])
  {
  }

  /** A slash-free string cannot reach past the first slash of another. */
  lemma HeadNotShorter(a: seq<string>, b: seq<string>)
    requires a != [] && b != [] && AllNoSlash(a) && AllNoSlash(b) && Join(a) == Join(b)
    ensures |a[0]| >= |b[0]|
  {
    JoinHead(a);
    JoinHead(b);
    assert NoSlash(b[0]);
  }

  lemma {:induction false} JoinInjective(a: seq<string>, b: seq<string>)
    requires a != [] && b != [] && AllNoSlash(a) && AllNoSlash(b) && Join(a) == Join(b)
    ensures a == b
  {
    HeadNotShorter(a, b);
    HeadNotShorter(b, a);
    JoinHead(a);
    JoinHead(b);
    assert a[0] == b[0];
    if |a| > 1 {
      JoinInjective(a[1..], b[1..]);
    }
    assert a == [a[0]] + a[1..] && b == [b[0]] + b[1..];
  }

  lemma {:induction false} ItoaInjective(m: nat, n: nat)
    requires Itoa(m) == Itoa(n)
    ensures m == n
  {
    var s := Itoa(m);
    assert s[|s| - 1] == '0' + (m % 10) as char && s[|s| - 1] == '0' + (n % 10) as char;
    assert |s| == 1 <==> m < 10;
    assert |s| == 1 <==> n < 10;
    if m >= 10 {
      assert Itoa(m / 10) == s[..|s| - 1] == Itoa(n / 10);
      ItoaInjective(m / 10, n / 10);
    }
  }

  lemma ValidIdNoSlash(id: string, min: nat, max: nat)
    requires ValidId(id, min, max)
    ensures NoSlash(id)
  {
    SlashNotInCharset();
  }

  lemma WordsHaveNoSlash()
    ensures NoSlash("clients") && NoSlash("clientState") && NoSlash("consensusStates") && NoSlash("connections")
    ensures NoSlash("ports") && NoSlash("channels") && NoSlash("sequences") && NoSlash("channelEnds") && NoSlash("capabilities")
    ensures NoSlash("nextSequenceSend") && NoSlash("nextSequenceRecv") && NoSlash("nextSequenceAck")
    ensures NoSlash("commitments") && NoSlash("acks") && NoSlash("receipts")
  {
  }

  lemma SegmentsHaveNoSlash(e: Entry)
    requires ValidEntry(e)
    ensures AllNoSlash(Segments(e))
  {
    hide NoSlash;
    hide ValidId;
    WordsHaveNoSlash();
    forall n: nat ensures NoSlash(Itoa(n)) { ItoaNoSlash(n); }
    forall id, min: nat, max: nat | ValidId(id, min, max) ensures NoSlash(id) { ValidIdNoSlash(id, min, max); }
  }

  lemma ItoaNoSlash(n: nat)
    ensures NoSlash(Itoa(n))
  {
  }

  /** Which printer wrote the segments: the first word tells, except that client keys also need the third. */
  function Kind(segments: seq<string>): nat
    requires |segments| >= 2
  {
    var word := segments[0];
    if word == "clients" then
      if |segments| == 4 then 2 else if |segments| == 3 && segments[2] == "connections" then 3 else 1
    else if word == "connections" then 4
    else if word == "channelEnds" then 5
    else if word == "capabilities" then 6
    else if word == "nextSequenceSend" then 7
    else if word == "nextSequenceRecv" then 8
    else if word == "nextSequenceAck" then 9
    else if word == "commitments" then 10
    else if word == "acks" then 11
    else if word == "receipts" then 12
    else 13
  }

  function KindOf(e: Entry): nat {
    match e
    case ClientState(_) => 1
    case ConsensusState(_, _) => 2
    case ClientConnections(_) => 3
    case Connection(_) => 4
    case ChannelEnd(_, _) => 5
    case ChannelCapability(_, _) => 6
    case NextSequenceSend(_, _) => 7
    case NextSequenceRecv(_, _) => 8
    case NextSequenceAck(_, _) => 9
    case PacketCommitment(_, _, _) => 10
    case PacketAck(_, _, _) => 11
    case PacketReceipt(_, _, _) => 12
    case Port(_) => 13
  }

  lemma KindFromSegments(e: Entry)
    ensures |Segments(e)| >= 2 && Kind(Segments(e)) == KindOf(e)
  {
  }

  lemma SegmentsInjective(e: Entry, f: Entry)
    requires Segments(e) == Segments(f)
    ensures e == f
  {
    hide Kind;
    KindFromSegments(e);
    KindFromSegments(f);
    forall m: nat, n: nat | Itoa(m) == Itoa(n) ensures m == n { ItoaInjective(m, n); }
    var r := Segments(e);
    assert r[1] == Segments(f)[1];
  }

  /** Path-space injectivity: the store keys of two different valid entries, of any kinds, differ. */
  lemma StoreKeysAreDistinct(e: Entry, f: Entry)
    requires ValidEntry(e) && ValidEntry(f) && StoreKey(e) == StoreKey(f)
    ensures e == f
  {
    StoreKeyJoinsSegments(e);
    StoreKeyJoinsSegments(f);
    SegmentsHaveNoSlash(e);
    SegmentsHaveNoSlash(f);
    JoinInjective(Segments(e), Segments(f));
    SegmentsInjective(e, f);
  }

  /** Validation is needed: an identifier with a slash can shift the boundary between port and channel. */
  lemma SlashesCollide()
    ensures var e, f := ChannelEnd("#p/channels/#c", "#d"), ChannelEnd("#p", "#c/channels/#d");
            e != f && StoreKey(e) == StoreKey(f)
  {
    assert |"#p/channels/#c"| != |"#p"|;
    assert ChannelPath("#p/channels/#c", "#d") == "ports/#p/channels/#c/channels/#d";
    assert ChannelPath("#p", "#c/channels/#d") == "ports/#p/channels/#c/channels/#d";
  }
}
