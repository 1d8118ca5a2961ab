/**
 p2p/module.go: envelopes are checked against the nonce deduper and then recorded in it, as two
 separate critical sections that goroutines may interleave.
 */
module NonceDedup {
  import opened Common
  import opened FifoSet

  type Nonce = uint64

  /** The deduper's queue, the nonces passed on so far, and the goroutines between check and insert. */
  datatype State = State(queue: seq<Nonce>, accepted: seq<Nonce>, pending: map<nat, Nonce>)

  datatype Event = Check(thread: nat, nonce: Nonce) | Insert(thread: nat)

  function Step(capacity: nat, s: State, ev: Event): State {
    match ev
    case Check(t, nonce) =>
      if t in s.pending || nonce in s.queue then s else s.(pending := s.pending[t := nonce])
    case Insert(t) =>
      if t !in s.pending then s else
      var nonce := s.pending[t];
      var u := s.(pending := s.pending - {t});
      if nonce in s.queue then u else u.(queue := Appended(capacity, s.queue, nonce), accepted := s.accepted + [nonce])
  }

  function Run(capacity: nat, evs: seq<Event>): State {
    if evs == [] then State([], [], map[]) else Step(capacity, Run(capacity, evs[..|evs| - 1]), evs[|evs| - 1])
  }

  /** The last `capacity` elements, or all of them. */
  function Window<T>(capacity: nat, xs: seq<T>): seq<T> {
    if |xs| <= capacity then xs else xs[|xs| - capacity..]
  }

  /** Between two occurrences of a nonce lie at least `capacity` others. */
  predicate Spread(capacity: nat, xs: seq<Nonce>) {
    forall i, j :: 0 <= i < j < |xs| && xs[i] == xs[j] ==> j - i > capacity
  }

  lemma AcceptKeepsWindow(capacity: nat, accepted: seq<Nonce>, nonce: Nonce)
    requires Spread(capacity, accepted) && nonce !in Window(capacity, accepted)
    ensures Spread(capacity, accepted + [nonce])
    ensures Appended(capacity, Window(capacity, accepted), nonce) == Window(capacity, accepted + [nonce])
  {
    var w := Window(capacity, accepted);
    assert forall i :: |accepted| - |w| <= i < |accepted| ==> accepted[i] == w[i - (|accepted| - |w|)];
  }

  /**
   Under every interleaving the deduper holds exactly the last accepted nonces up to its capacity,
   and a nonce is accepted again only after at least that many others.
   */
  lemma {:induction false} DeduperIsSlidingWindow(capacity: nat, evs: seq<Event>)
    ensures var s := Run(capacity, evs); s.queue == Window(capacity, s.accepted) && Spread(capacity, s.accepted)
  {
    if evs != [] {
      DeduperIsSlidingWindow(capacity, evs[..|evs| - 1]);
      var s := Run(capacity, evs[..|evs| - 1]);
      var ev := evs[|evs| - 1];
      if ev.Insert? && ev.thread in s.pending && s.pending[ev.thread] !in s.queue {
        AcceptKeepsWindow(capacity, s.accepted, s.pending[ev.thread]);
      }
    }
  }

  /** A nonce still in the window is never passed on again, whoever checked it before it got there. */
  lemma NoDuplicateWithinWindow(capacity: nat, evs: seq<Event>, ev: Event)
    ensures var s := Run(capacity, evs); var t := Step(capacity, s, ev);
      t.accepted == s.accepted || (|t.accepted| == |s.accepted| + 1 && t.accepted[|s.accepted|] !in Window(capacity, s.accepted))
  {
    DeduperIsSlidingWindow(capacity, evs);
  }

  /** An insert passes its nonce on exactly when it is not among the last accepted ones, and frees its thread either way. */
  lemma InsertAcceptsIff(capacity: nat, evs: seq<Event>, t: nat)
    requires t in Run(capacity, evs).pending
    ensures var s := Run(capacity, evs); var r := Run(capacity, evs + [Insert(t)]);
      && r.accepted == s.accepted + (if s.pending[t] in Window(capacity, s.accepted) then [] else [s.pending[t]])
      && r.pending == s.pending - {t}
  {
    assert (evs + [Insert(t)])[..|evs|] == evs;
    DeduperIsSlidingWindow(capacity, evs);
  }

  /** A check lets an idle thread go on with its nonce exactly when that is not among the last accepted ones. */
  lemma CheckPassesIff(capacity: nat, evs: seq<Event>, t: nat, nonce: Nonce)
    requires t !in Run(capacity, evs).pending
    ensures var s := Run(capacity, evs); var r := Run(capacity, evs + [Check(t, nonce)]);
      && r.accepted == s.accepted
      && r.pending == if nonce in Window(capacity, s.accepted) then s.pending else s.pending[t := nonce]
  {
    assert (evs + [Check(t, nonce)])[..|evs|] == evs;
    DeduperIsSlidingWindow(capacity, evs);
  }

  /** An envelope that one thread handles without interruption is passed on exactly when its nonce is not in the window. */
  lemma EnvelopePassedOnIff(capacity: nat, evs: seq<Event>, t: nat, nonce: Nonce)
    requires t !in Run(capacity, evs).pending
    ensures var s := Run(capacity, evs); var r := Run(capacity, evs + [Check(t, nonce)] + [Insert(t)]);
      r.accepted == s.accepted + (if nonce in Window(capacity, s.accepted) then [] else [nonce]) && r.pending == s.pending
  {
    var checked := evs + [Check(t, nonce)];
    CheckPassesIff(capacity, evs, t, nonce);
    if nonce in Window(capacity, Run(capacity, evs).accepted) {
      assert (checked + [Insert(t)])[..|checked|] == checked;
    } else {
      InsertAcceptsIff(capacity, checked, t);
      assert Run(capacity, checked).pending - {t} == Run(capacity, evs).pending;
    }
  }

  /** The object that runs this protocol; a nonce is its own index. */
  class Handler {
    const deduper: GenericFifoSet<Nonce, Nonce>
    var published: seq<Nonce>

    constructor (capacity: nat)
      ensures Valid() && fresh(deduper) && deduper.capacity == capacity && deduper.queue == [] && published == []
    {
      deduper := new GenericFifoSet(capacity, (n: Nonce) => n);
      published := [];
    }

    ghost predicate Valid()
      reads this, deduper
    {
      deduper.Valid() && (forall n: Nonce :: deduper.indexer(n) == n)
    }

    method IsNonceAlreadyObserved(nonce: Nonce) returns (seen: bool)
      requires Valid()
      ensures seen <==> nonce in deduper.queue
    {
      seen := deduper.Contains(nonce);
    }

    /** Records the nonce and publishes the envelope, or fails if another goroutine got there first. */
    method ObserveAndPublish(nonce: Nonce) returns (ok: bool)
      requires Valid()
      modifies this, deduper
      ensures Valid()
      ensures ok <==> nonce !in old(deduper.queue)
      ensures published == if ok then old(published) + [nonce] else old(published)
      ensures ok && deduper.capacity > 0 ==> deduper.queue != [] && deduper.queue[|deduper.queue| - 1] == nonce
      ensures deduper.queue == if ok then Window(deduper.capacity, old(deduper.queue) + [nonce]) else old(deduper.queue)
      ensures forall pending: map<nat, Nonce>, t: nat :: t in pending && pending[t] == nonce ==>
        State(deduper.queue, published, pending - {t})
        == Step(deduper.capacity, State(old(deduper.queue), old(published), pending), Insert(t))
    {
      assert nonce in deduper.queue <==> nonce in deduper.indices by {
        if nonce in deduper.indices {
          var d :| d in deduper.queue && deduper.indexer(d) == nonce;
        }
        if nonce in deduper.queue {
          assert deduper.indexer(nonce) in Indices(deduper.indexer, deduper.queue);
        }
      }
      ok := deduper.Push(nonce);
      if ok { published := published + [nonce]; }
    }

    /** One envelope from check to publication, without another goroutine in between. */
    method HandlePocketEnvelope(nonce: Nonce) returns (ok: bool)
      requires Valid()
      modifies this, deduper
      ensures Valid() && ok
      ensures published == if nonce in old(deduper.queue) then old(published) else old(published) + [nonce]
      ensures deduper.queue == if nonce in old(deduper.queue) then old(deduper.queue) else Window(deduper.capacity, old(deduper.queue) + [nonce])
    {
      var seen := IsNonceAlreadyObserved(nonce);
      if seen { return true; }
      ok := ObserveAndPublish(nonce);
    }
  }
}
