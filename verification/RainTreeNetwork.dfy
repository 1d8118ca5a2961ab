/** A RainTree broadcast across the network, with messages handled in any order. */
module RainTreeNetwork {
  import opened Ternary
  import opened TernaryDigits
  import opened TernaryHits
  import opened RainTree

  ghost predicate WellAddressed(n: nat, pkts: seq<Packet>) {
    forall i :: 0 <= i < |pkts| ==> pkts[i].to < n && 0 < pkts[i].level
  }

  // ---------------------------------------------------------------- the network

  /** Messages in flight and the positions that have received one, oldest first. */
  datatype Net = Net(inflight: seq<Packet>, received: seq<nat>)

  /** A broadcast from the top level. */
  function Start(n: nat, t: Targets, levels: nat, origin: nat): (net: Net)
    requires origin < n && Fits(n, t)
    ensures WellAddressed(n, net.inflight)
  {
    Net(Sends(n, t, origin, levels), [])
  }

  /** The receiver of message `i` continues the broadcast one level down. */
  function Deliver(n: nat, t: Targets, net: Net, i: nat): (r: Net)
    requires i < |net.inflight| && Fits(n, t) && WellAddressed(n, net.inflight)
    ensures WellAddressed(n, r.inflight)
  {
    var pkt := net.inflight[i];
    Net(net.inflight[..i] + net.inflight[i + 1..] + Sends(n, t, pkt.to, pkt.level - 1), net.received + [pkt.to])
  }

  /** Handle messages in the order a schedule picks them; picks beyond the last message do nothing. */
  function Play(n: nat, t: Targets, net: Net, schedule: seq<nat>): (r: Net)
    requires Fits(n, t) && WellAddressed(n, net.inflight)
    ensures WellAddressed(n, r.inflight)
  {
    if schedule == [] then net else
    var before := Play(n, t, net, schedule[..|schedule| - 1]);
    if before.inflight == [] then before
    else Deliver(n, t, before, schedule[|schedule| - 1] % |before.inflight|)
  }

  // ---------------------------------------------------------------- what is still to come

  function Top(pkts: seq<Packet>): (r: nat)
    ensures forall i :: 0 <= i < |pkts| ==> pkts[i].level <= r
    ensures if pkts == [] then r == 0 else exists i :: 0 <= i < |pkts| && pkts[i].level == r
  {
    if pkts == [] then 0 else
    var m := |pkts| - 1;
    var r := Top(pkts[..m]);
    if r >= pkts[m].level && m > 0 then
      assert exists i :: 0 <= i < m && pkts[..m][i].level == r && pkts[i].level == r;
      r
    else pkts[m].level
  }

  /** How many messages position `q` will receive because of these packets. */
  ghost function Due(n: nat, t: Targets, pkts: seq<Packet>, q: nat): nat
    requires Fits(n, t) && WellAddressed(n, pkts)
    decreases Top(pkts), |pkts|
  {
    if pkts == [] then 0 else
    var m := |pkts| - 1;
    assert forall i :: 0 <= i < m ==> pkts[..m][i] == pkts[i];
    Due(n, t, pkts[..m], q) + Here(q, pkts[m].to) + Due(n, t, Sends(n, t, pkts[m].to, pkts[m].level - 1), q)
  }

  /** How many messages will be handled because of these packets. */
  ghost function Pending(n: nat, t: Targets, pkts: seq<Packet>): nat
    requires Fits(n, t) && WellAddressed(n, pkts)
    decreases Top(pkts), |pkts|
  {
    if pkts == [] then 0 else
    var m := |pkts| - 1;
    assert forall i :: 0 <= i < m ==> pkts[..m][i] == pkts[i];
    Pending(n, t, pkts[..m]) + 1 + Pending(n, t, Sends(n, t, pkts[m].to, pkts[m].level - 1))
  }

  lemma {:induction false} Append(n: nat, t: Targets, a: seq<Packet>, b: seq<Packet>, q: nat)
    requires Fits(n, t) && WellAddressed(n, a) && WellAddressed(n, b)
    ensures Due(n, t, a + b, q) == Due(n, t, a, q) + Due(n, t, b, q)
    ensures Pending(n, t, a + b) == Pending(n, t, a) + Pending(n, t, b)
    decreases |b|
  {
    hide Sends, Top;
    if b == [] {
      assert a + b == a;
    } else {
      var m := |b| - 1;
      Append(n, t, a, b[..m], q);
      assert (a + b)[..|a| + m] == a + b[..m];
    }
  }

  /** Taking one packet out leaves the rest of the account unchanged. */
  lemma Extract(n: nat, t: Targets, pkts: seq<Packet>, i: nat, q: nat)
    requires Fits(n, t) && WellAddressed(n, pkts) && i < |pkts|
    ensures var rest := pkts[..i] + pkts[i + 1..]; var onward := Sends(n, t, pkts[i].to, pkts[i].level - 1);
      && WellAddressed(n, rest)
      && Due(n, t, pkts, q) == Due(n, t, rest, q) + Here(q, pkts[i].to) + Due(n, t, onward, q)
      && Pending(n, t, pkts) == Pending(n, t, rest) + 1 + Pending(n, t, onward)
  {
    hide Sends, Top;
    var front, back := pkts[..i + 1], pkts[i + 1..];
    assert pkts == front + back;
    Append(n, t, front, back, q);
    Append(n, t, pkts[..i], back, q);
    assert front[..i] == pkts[..i] && front[i] == pkts[i];
  }

  function Count(xs: seq<nat>, q: nat): nat {
    if xs == [] then 0 else Count(xs[..|xs| - 1], q) + Here(q, xs[|xs| - 1])
  }

  /** Conservation: received plus still due never changes, and every delivery uses up one pending message. */
  lemma DeliverConserves(n: nat, t: Targets, net: Net, i: nat, q: nat)
    requires i < |net.inflight| && Fits(n, t) && WellAddressed(n, net.inflight)
    ensures var r := Deliver(n, t, net, i);
      && Count(r.received, q) + Due(n, t, r.inflight, q) == Count(net.received, q) + Due(n, t, net.inflight, q)
      && Pending(n, t, r.inflight) + 1 == Pending(n, t, net.inflight)
      && |r.received| == |net.received| + 1
  {
    hide Due, Pending, Sends;
    var pkt := net.inflight[i];
    var rest := net.inflight[..i] + net.inflight[i + 1..];
    Extract(n, t, net.inflight, i, q);
    Append(n, t, rest, Sends(n, t, pkt.to, pkt.level - 1), q);
    assert (net.received + [pkt.to])[..|net.received|] == net.received;
  }

  lemma {:induction false} PlayConserves(n: nat, t: Targets, net: Net, schedule: seq<nat>, q: nat)
    requires Fits(n, t) && WellAddressed(n, net.inflight)
    ensures var r := Play(n, t, net, schedule);
      && Count(r.received, q) + Due(n, t, r.inflight, q) == Count(net.received, q) + Due(n, t, net.inflight, q)
      && |r.received| + Pending(n, t, r.inflight) == |net.received| + Pending(n, t, net.inflight)
      && (r.inflight == [] || |r.received| == |net.received| + |schedule|)
      && |r.received| <= |net.received| + |schedule|
  {
    if schedule != [] {
      var shorter := schedule[..|schedule| - 1];
      PlayConserves(n, t, net, shorter, q);
      var before := Play(n, t, net, shorter);
      if before.inflight != [] {
        DeliverConserves(n, t, before, schedule[|schedule| - 1] % |before.inflight|, q);
      }
    }
  }

  // ---------------------------------------------------------------- bounds for every network size

  lemma EmptyAccount(n: nat, t: Targets, q: nat)
    requires Fits(n, t)
    ensures Pending(n, t, []) == 0 && Due(n, t, [], q) == 0
  {
  }

  lemma PairAccount(n: nat, t: Targets, pkts: seq<Packet>, q: nat)
    requires Fits(n, t) && WellAddressed(n, pkts) && |pkts| <= 2
    ensures |pkts| == 1 ==>
      var s0 := Sends(n, t, pkts[0].to, pkts[0].level - 1);
      Pending(n, t, pkts) == 1 + Pending(n, t, s0) && Due(n, t, pkts, q) == Here(q, pkts[0].to) + Due(n, t, s0, q)
    ensures |pkts| == 2 ==>
      var s0, s1 := Sends(n, t, pkts[0].to, pkts[0].level - 1), Sends(n, t, pkts[1].to, pkts[1].level - 1);
      && Pending(n, t, pkts) == 2 + Pending(n, t, s0) + Pending(n, t, s1)
      && Due(n, t, pkts, q) == Here(q, pkts[0].to) + Due(n, t, s0, q) + Here(q, pkts[1].to) + Due(n, t, s1, q)
  {
    hide Sends, Top;
    if |pkts| == 2 {
      var first := pkts[..1];
      assert first[..0] == [] && first[0] == pkts[0];
      assert Pending(n, t, first) == 1 + Pending(n, t, Sends(n, t, pkts[0].to, pkts[0].level - 1));
      assert Due(n, t, first, q) == Here(q, pkts[0].to) + Due(n, t, Sends(n, t, pkts[0].to, pkts[0].level - 1), q);
    }
  }

  /** A broadcast from a level causes at most 3^level - 1 messages in the whole network. */
  lemma {:induction false} PendingBound(n: nat, t: Targets, p: nat, level: nat)
    requires p < n && Fits(n, t)
    ensures Pending(n, t, Sends(n, t, p, level)) <= Pow(3, level) - 1
    decreases level
  {
    hide TargetIndices, Top, Pending, Due;
    EmptyAccount(n, t, 0);
    if level > 0 {
      var now := ToPackets(n, p, TargetIndices(n, t, level), level);
      PairAccount(n, t, now, 0);
      Append(n, t, now, Sends(n, t, p, level - 1), 0);
      PendingBound(n, t, p, level - 1);
      if |now| >= 1 { PendingBound(n, t, now[0].to, level - 1); }
      if |now| == 2 { PendingBound(n, t, now[1].to, level - 1); }
    }
  }

  lemma PendingPositive(n: nat, t: Targets, pkts: seq<Packet>)
    requires Fits(n, t) && WellAddressed(n, pkts) && pkts != []
    ensures Pending(n, t, pkts) > 0
  {
    hide Sends, Top;
  }

  // ---------------------------------------------------------------- what arrives in the end

  /** A broadcast over some levels, with messages handled in the order of a schedule. */
  function Broadcast(n: nat, t: Targets, levels: nat, origin: nat, schedule: seq<nat>): Net
    requires origin < n && Fits(n, t)
  {
    Play(n, t, Start(n, t, levels, origin), schedule)
  }

  /** Whatever the order, a broadcast ends after at most 3^levels - 1 messages, and each peer gets what was due to it. */
  lemma BroadcastEnds(n: nat, t: Targets, levels: nat, origin: nat, schedule: seq<nat>, q: nat)
    requires origin < n && Fits(n, t)
    ensures var net := Broadcast(n, t, levels, origin, schedule); var first := Sends(n, t, origin, levels);
      && |net.received| < Pow(3, levels)
      && (net.inflight == [] <==> |schedule| >= Pending(n, t, first))
      && |net.received| == (if |schedule| < Pending(n, t, first) then |schedule| else Pending(n, t, first))
      && Count(net.received, q) <= Due(n, t, first, q)
      && (net.inflight == [] ==> Count(net.received, q) == Due(n, t, first, q))
  {
    hide Due, Pending, Sends, Play, Pow;
    var start := Start(n, t, levels, origin);
    PlayConserves(n, t, start, schedule, q);
    PendingBound(n, t, origin, levels);
    EmptyAccount(n, t, q);
    var net := Broadcast(n, t, levels, origin, schedule);
    if net.inflight != [] {
      PendingPositive(n, t, net.inflight);
    }
  }

  // ---------------------------------------------------------------- messages and hits

  ghost predicate NoSelf(t: Targets, l: nat) {
    forall i: nat {:trigger t(i)} | 1 <= i <= l :: t(i).0 > 0 && t(i).1 > 0
  }

  lemma LevelAccount(n: nat, t: Targets, p: nat, l: nat, q: nat)
    requires p < n && Fits(n, t) && l > 0
    ensures var out, a, b := Sends(n, t, p, l), Wrap(n, p, t(l).0), Wrap(n, p, t(l).1);
      var s, sa, sb := Sends(n, t, p, l - 1), Sends(n, t, a, l - 1), Sends(n, t, b, l - 1);
      && Due(n, t, out, q) == Due(n, t, s, q)
         + (if t(l).0 == 0 then 0 else Here(q, a) + Due(n, t, sa, q)) + (if t(l).1 == 0 then 0 else Here(q, b) + Due(n, t, sb, q))
      && Pending(n, t, out) == Pending(n, t, s)
         + (if t(l).0 == 0 then 0 else 1 + Pending(n, t, sa)) + (if t(l).1 == 0 then 0 else 1 + Pending(n, t, sb))
  {
    hide Top, Pending, Due;
    EmptyAccount(n, t, q);
    var now := ToPackets(n, p, TargetIndices(n, t, l), l);
    PairAccount(n, t, now, q);
    Append(n, t, now, Sends(n, t, p, l - 1), q);
  }

  /** What a broadcast delivers, with the broadcaster itself, is at most what the targets hit; skipped targets cost. */
  lemma {:induction false} DueAndHits(n: nat, t: Targets, p: nat, l: nat, q: nat)
    requires p < n && Fits(n, t)
    ensures Due(n, t, Sends(n, t, p, l), q) + Here(q, p) <= Hits(n, t, p, l, q)
    ensures NoSelf(t, l) ==> Due(n, t, Sends(n, t, p, l), q) + Here(q, p) == Hits(n, t, p, l, q)
    ensures NoSelf(t, l) ==> Pending(n, t, Sends(n, t, p, l)) == Pow(3, l) - 1
    decreases l
  {
    hide Top, Pending, Due, Sends;
    if l == 0 {
      NothingSent(n, t, p, q);
    } else {
      LevelAccount(n, t, p, l, q);
      var a, b := Wrap(n, p, t(l).0), Wrap(n, p, t(l).1);
      DueAndHits(n, t, p, l - 1, q);
      DueAndHits(n, t, a, l - 1, q);
      DueAndHits(n, t, b, l - 1, q);
    }
  }

  lemma NothingSent(n: nat, t: Targets, p: nat, q: nat)
    requires p < n && Fits(n, t)
    ensures Sends(n, t, p, 0) == [] && Due(n, t, Sends(n, t, p, 0), q) == 0 && Pending(n, t, Sends(n, t, p, 0)) == 0
  {
    EmptyAccount(n, t, q);
  }

  // ---------------------------------------------------------------- coverage, exactly

  /** Every peer but the origin receives exactly one message, and the origin none. */
  ghost predicate Covered(n: nat, origin: nat, net: Net) {
    forall q: nat {:trigger Count(net.received, q)} | q < n :: Count(net.received, q) == if q == origin then 0 else 1
  }

  ghost predicate AllDue(n: nat, t: Targets, levels: nat, origin: nat)
    requires origin < n && Fits(n, t)
  {
    forall q: nat {:trigger Here(q, origin)} | q < n :: Due(n, t, Sends(n, t, origin, levels), q) + Here(q, origin) == 1
  }

  lemma {:induction false} HitsAtLeast(n: nat, t: Targets, p: nat, l: nat, x: nat)
    requires p < n && Fits(n, t) && x <= n && AllDue(n, t, l, p)
    ensures forall q: nat | q < x :: Hits(n, t, p, l, q) >= 1
  {
    forall q: nat | q < x ensures Hits(n, t, p, l, q) >= 1 {
      DueAndHits(n, t, p, l, q);
      assert Here(q, p) <= 1;
    }
  }

  lemma DueIffGood(k: nat, t: Targets, origin: nat)
    requires origin < Pow(3, k) && Fits(Pow(3, k), t)
    ensures AllDue(Pow(3, k), t, k, origin) <==> GoodTargets(t, k)
    ensures GoodTargets(t, k) ==> NoSelf(t, k)
  {
    hide Pow, Hits, HitsBelow, Due, Sends, Here;
    var n := Pow(3, k);
    OneHitEachIff(k, t, origin);
    if AllDue(n, t, k, origin) {
      HitsAtLeast(n, t, origin, k, n);
      AllHits(n, t, origin, k);
      EvenlySpread(n, t, origin, k, n);
    }
    if GoodTargets(t, k) {
      forall i: nat | 1 <= i <= k ensures t(i).0 > 0 && t(i).1 > 0 {
        assert GoodLevel(t, k, i);
      }
      forall q: nat | q < n ensures Due(n, t, Sends(n, t, origin, k), q) + Here(q, origin) == 1 {
        DueAndHits(n, t, origin, k, q);
      }
    }
  }

  /**
   Coverage, exactly: among 3^k peers, whoever broadcasts and in whatever order messages are handled, every
   other peer receives exactly one message if and only if the targets are good.
   */
  lemma BroadcastCoversIff(k: nat, t: Targets, origin: nat, schedule: seq<nat>)
    requires origin < Pow(3, k) && Fits(Pow(3, k), t) && |schedule| >= Pow(3, k)
    ensures Covered(Pow(3, k), origin, Broadcast(Pow(3, k), t, k, origin, schedule)) <==> GoodTargets(t, k)
  {
    hide Pow, Due, Sends, GoodTargets, Broadcast, Pending, Count;
    var n := Pow(3, k);
    DueIffGood(k, t, origin);
    PendingBound(n, t, origin, k);
    var net := Broadcast(n, t, k, origin, schedule);
    forall q: nat | q < n ensures Count(net.received, q) == Due(n, t, Sends(n, t, origin, k), q) {
      BroadcastEnds(n, t, k, origin, schedule, q);
    }
    if Covered(n, origin, net) {
      forall q: nat | q < n ensures Due(n, t, Sends(n, t, origin, k), q) + Here(q, origin) == 1 {
        assert Count(net.received, q) == if q == origin then 0 else 1;
      }
    }
    if AllDue(n, t, k, origin) {
      forall q: nat | q < n ensures Count(net.received, q) == if q == origin then 0 else 1 {
        assert Here(q, origin) <= 1;
      }
    }
  }

  /** With good targets no message is ever wasted: exactly 3^k - 1 are sent, and never two to one peer. */
  lemma GoodBroadcast(k: nat, t: Targets, origin: nat, schedule: seq<nat>, q: nat)
    requires origin < Pow(3, k) && q < Pow(3, k) && Fits(Pow(3, k), t) && GoodTargets(t, k)
    ensures var n := Pow(3, k); var net := Broadcast(n, t, k, origin, schedule);
      && |net.received| == (if |schedule| < n then |schedule| else n - 1)
      && (net.inflight == [] <==> |schedule| >= n - 1)
      && Count(net.received, q) <= (if q == origin then 0 else 1)
  {
    hide Pow, Due, Sends, GoodTargets, Broadcast, Pending, Count, Hits;
    DueIffGood(k, t, origin);
    DueAndHits(Pow(3, k), t, origin, k, q);
    BroadcastEnds(Pow(3, k), t, k, origin, schedule, q);
    assert Here(q, origin) == if q == origin then 1 else 0;
  }
}
