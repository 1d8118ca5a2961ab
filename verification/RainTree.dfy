/**
 p2p/raintree: the number of levels, the targets of each level, and what one node sends.
 */
module RainTree {
  import opened Float64
  import opened RainTreeSizes
  import opened Ternary
  import opened TernaryHits

  // ---------------------------------------------------------------- levels

  /** Whether log3(n), rounded to the nearest 2 / m, is at most l. */
  predicate WithinLevels(n: nat, m: nat, l: nat) {
    Pow(n, m) < Pow(3, m * l + 1)
  }

  lemma {:induction false} PowMonotone(a: nat, b: nat, m: nat)
    requires a <= b
    ensures Pow(a, m) <= Pow(b, m)
  {
    if m > 0 {
      PowMonotone(a, b, m - 1);
      MulMonotone(a, Pow(a, m - 1), b, Pow(b, m - 1));
    }
  }

  lemma {:induction false} PowMul(b: nat, d: nat, e: nat)
    ensures Pow(Pow(b, d), e) == Pow(b, e * d)
    decreases e
  {
    if e > 0 {
      PowMul(b, d, e - 1);
      PowAdd(b, d, (e - 1) * d);
      assert d + (e - 1) * d == e * d;
    }
  }

  lemma EnoughLevels(n: nat, m: nat, l: nat)
    requires n <= Pow(3, l)
    ensures WithinLevels(n, m, l)
  {
    PowMonotone(n, Pow(3, l), m);
    PowMul(3, l, m);
    PowGrows(m * l, m * l + 1);
  }

  lemma {:induction false} LevelBelowPower(l: nat)
    ensures l < Pow(3, l)
  {
    if l > 0 {
      LevelBelowPower(l - 1);
    }
  }

  function LevelsFrom(n: nat, m: nat, l: nat): (r: nat)
    requires m >= 1 && (l == 0 || !WithinLevels(n, m, l - 1))
    ensures WithinLevels(n, m, r) && (r > 0 ==> !WithinLevels(n, m, r - 1))
    decreases n - l
  {
    if WithinLevels(n, m, l) then l else
    assert l < n by {
      LevelBelowPower(l);
      if n <= Pow(3, l) { EnoughLevels(n, m, l); }
    }
    LevelsFrom(n, m, l + 1)
  }

  /** Logarithms are rounded to seven decimals, so to the nearest 2 / PRECISION. */
  const PRECISION: nat := 20_000_000

  /** The logarithm to base three, rounded to seven decimals and then rounded up. */
  function MaxLevels(n: nat): (r: nat)
    ensures r > 0 ==> Pow(3, r - 1) < n
  {
    var r := LevelsFrom(n, PRECISION, 0);
    assert r > 0 ==> Pow(3, r - 1) < n by {
      if r > 0 && n <= Pow(3, r - 1) { EnoughLevels(n, PRECISION, r - 1); }
    }
    r
  }

  // ---------------------------------------------------------------- targets

  /** The two targets of every level, as the code computes them; levels above the top have none. */
  function LevelTargets(n: nat, levels: nat): Targets {
    (level: nat) =>
      if level <= levels then
        var size := PeerstoreSize(n, levels, level);
        (FirstTarget(size), SecondTarget(size))
      else (0, 0)
  }

  lemma LevelTargetsFit(n: nat, levels: nat)
    requires 1 <= n < TWO_53
    ensures Fits(n, LevelTargets(n, levels))
  {
    hide PeerstoreSize, FirstTarget, SecondTarget;
    var t := LevelTargets(n, levels);
    forall level: nat ensures t(level).0 < n && t(level).1 < n {
      if level <= levels { TargetsInView(n, levels, level); }
    }
  }

  // ---------------------------------------------------------------- one node

  /** A message on its way to the node at a position of the sorted ring. */
  datatype Packet = Packet(to: nat, level: nat)

  /** The indices a level sends to; index 0 is the node itself and is skipped. */
  function TargetIndices(n: nat, t: Targets, level: nat): (r: seq<nat>)
    requires Fits(n, t)
    ensures |r| <= 2 && forall i :: 0 <= i < |r| ==> 0 < r[i] < n
  {
    (if t(level).0 == 0 then [] else [t(level).0]) + (if t(level).1 == 0 then [] else [t(level).1])
  }

  function ToPackets(n: nat, p: nat, indices: seq<nat>, level: nat): (r: seq<Packet>)
    requires p < n && forall i :: 0 <= i < |indices| ==> indices[i] < n
    ensures |r| == |indices| && forall i :: 0 <= i < |r| ==> r[i] == Packet(Wrap(n, p, indices[i]), level)
  {
    seq(|indices|, i requires 0 <= i < |indices| => Packet(Wrap(n, p, indices[i]), level))
  }

  /** Everything a node at position `p` sends when it broadcasts from a level, demoting itself down to one. */
  function Sends(n: nat, t: Targets, p: nat, level: nat): (r: seq<Packet>)
    requires p < n && Fits(n, t)
    ensures forall i :: 0 <= i < |r| ==> r[i].to < n && 0 < r[i].level <= level
  {
    if level == 0 then [] else ToPackets(n, p, TargetIndices(n, t, level), level) + Sends(n, t, p, level - 1)
  }

  /** The node's peer list: the sorted ring from its own position on. */
  function View<A>(ring: seq<A>, p: nat): (v: seq<A>)
    requires p < |ring|
    ensures |v| == |ring| && forall i :: 0 <= i < |v| ==> v[i] == ring[Wrap(|ring|, p, i)]
  {
    ring[p..] + ring[..p]
  }

  function Addressed<A>(ring: seq<A>, pkts: seq<Packet>): (r: seq<(A, nat)>)
    requires forall i :: 0 <= i < |pkts| ==> pkts[i].to < |ring|
    ensures |r| == |pkts| && forall i :: 0 <= i < |r| ==> r[i] == (ring[pkts[i].to], pkts[i].level)
  {
    seq(|pkts|, i requires 0 <= i < |pkts| => (ring[pkts[i].to], pkts[i].level))
  }

  lemma AddressedAppend<A>(ring: seq<A>, p: nat, indices: seq<nat>, index: nat, level: nat)
    requires p < |ring| && index < |ring| && forall i :: 0 <= i < |indices| ==> indices[i] < |ring|
    ensures Addressed(ring, ToPackets(|ring|, p, indices + [index], level))
         == Addressed(ring, ToPackets(|ring|, p, indices, level)) + [(View(ring, p)[index], level)]
  {
  }

  lemma AddressedConcat<A>(ring: seq<A>, a: seq<Packet>, b: seq<Packet>)
    requires forall i :: 0 <= i < |a| ==> a[i].to < |ring|
    requires forall i :: 0 <= i < |b| ==> b[i].to < |ring|
    ensures Addressed(ring, a + b) == Addressed(ring, a) + Addressed(ring, b)
  {
  }

  /** What the code's targets make a node send at one level. */
  function LevelSends(n: nat, levels: nat, p: nat, level: nat): (r: seq<Packet>)
    requires p < n < TWO_53
    ensures forall i :: 0 <= i < |r| ==> r[i].to < n
  {
    LevelTargetsFit(n, levels);
    ToPackets(n, p, TargetIndices(n, LevelTargets(n, levels), level), level)
  }

  /** What the code's targets make a node send from a level down. */
  function NodeSends(n: nat, levels: nat, p: nat, level: nat): (r: seq<Packet>)
    requires p < n < TWO_53
    ensures forall i :: 0 <= i < |r| ==> r[i].to < n
  {
    LevelTargetsFit(n, levels);
    Sends(n, LevelTargets(n, levels), p, level)
  }

  lemma NodeSendsStep(n: nat, levels: nat, p: nat, level: nat)
    requires p < n < TWO_53
    ensures NodeSends(n, levels, p, level)
         == if level == 0 then [] else LevelSends(n, levels, p, level) + NodeSends(n, levels, p, level - 1)
  {
  }

  lemma LevelSendsIs(n: nat, levels: nat, p: nat, level: nat, indices: seq<nat>)
    requires p < n < TWO_53 && level <= levels
    requires var size := PeerstoreSize(n, levels, level);
      indices == (if FirstTarget(size) == 0 then [] else [FirstTarget(size)])
               + (if SecondTarget(size) == 0 then [] else [SecondTarget(size)])
    requires forall i :: 0 <= i < |indices| ==> indices[i] < n
    ensures LevelSends(n, levels, p, level) == ToPackets(n, p, indices, level)
  {
    hide PeerstoreSize, FirstTarget, SecondTarget;
    LevelTargetsFit(n, levels);
    assert indices == TargetIndices(n, LevelTargets(n, levels), level);
  }

  /** A node that knows its own peer list only; sends are recorded as address and level. */
  class Router<A(==)> {
    const view: seq<A>
    const levels: nat
    var outbox: seq<(A, nat)>

    constructor (view: seq<A>, levels: nat)
      ensures this.view == view && this.levels == levels && outbox == []
    {
      this.view, this.levels, outbox := view, levels, [];
    }

    /** Sends to both targets of the level unless they are the node itself, then demotes. */
    method BroadcastAtLevel(level: nat, ghost ring: seq<A>, ghost p: nat)
      requires p < |ring| < TWO_53 && view == View(ring, p) && level <= levels
      modifies this`outbox
      ensures outbox == old(outbox) + Addressed(ring, NodeSends(|ring|, levels, p, level))
      decreases level
    {
      hide NodeSends, LevelSends, View;
      NodeSendsStep(|ring|, levels, p, level);
      if level == 0 { return; }
      SendToTargets(level, ring, p);
      BroadcastAtLevel(level - 1, ring, p);
      AddressedConcat(ring, LevelSends(|ring|, levels, p, level), NodeSends(|ring|, levels, p, level - 1));
    }

    method SendToTargets(level: nat, ghost ring: seq<A>, ghost p: nat)
      requires p < |ring| < TWO_53 && view == View(ring, p) && level <= levels
      modifies this`outbox
      ensures outbox == old(outbox) + Addressed(ring, LevelSends(|ring|, levels, p, level))
    {
      hide *;
      TargetsInView(|view|, levels, level);
      var size := PeerstoreSize(|view|, levels, level);
      var targets := [FirstTarget(size), SecondTarget(size)];
      ghost var done: seq<nat> := [];
      for i := 0 to 2
        invariant forall j :: 0 <= j < |done| ==> done[j] < |ring|
        invariant done == (if i == 0 || targets[0] == 0 then [] else [targets[0]]) + (if i < 2 || targets[1] == 0 then [] else [targets[1]])
        invariant outbox == old(outbox) + Addressed(ring, ToPackets(|ring|, p, done, level))
      {
        if targets[i] != 0 {
          AddressedAppend(ring, p, done, targets[i], level);
          outbox := outbox + [(view[targets[i]], level)];
          done := done + [targets[i]];
        }
      }
      LevelSendsIs(|ring|, levels, p, level, done);
    }
  }
}
