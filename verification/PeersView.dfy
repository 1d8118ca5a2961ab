/** p2p/types/peers_view.go: the peers of a store as a sorted list rotated to start at the node itself. */
module PeersView {
  import opened AddressOrder
  import opened Collections

  datatype Peer = Peer(address: string, serviceUrl: string)

  /** PeerAddrMap: peers keyed by their address. */
  type Store = map<string, Peer>

  predicate Keyed(store: Store) {
    forall a :: a in store ==> store[a].address == a
  }

  // ---------------------------------------------------------------- list helpers

  method InsertElementAtIndex<T>(slice: seq<T>, element: T, index: nat) returns (r: seq<T>)
    requires index <= |slice|
    ensures r == slice[..index] + [element] + slice[index..]
  {
    r := slice + [element];
    r := r[..index + 1] + r[index..|r| - 1];
    r := r[index := element];
  }

  method RemoveElementAtIndex<T>(slice: seq<T>, index: nat) returns (r: seq<T>)
    requires index < |slice|
    ensures |r| == |slice| - 1 && slice == r[..index] + [slice[index]] + r[index..]
  {
    r := [];
    r := r + slice[..index];
    r := r + slice[index + 1..];
  }

  // ---------------------------------------------------------------- the view

  /** The addresses are the store's in ring order from `start`; the peers follow them index by index. */
  ghost predicate ViewOf(start: string, store: Store, addrs: seq<string>, peers: seq<Peer>) {
    && InRingOrder(start, addrs) && Elements(addrs) == store.Keys
    && |peers| == |addrs| && forall i :: 0 <= i < |addrs| ==> peers[i] == store[addrs[i]]
  }

  /** There is only one view of a store: the incremental and the rebuilt list coincide. */
  lemma ViewUnique(start: string, store: Store, addrs: seq<string>, peers: seq<Peer>, addrs': seq<string>, peers': seq<Peer>)
    requires ViewOf(start, store, addrs, peers) && ViewOf(start, store, addrs', peers')
    ensures addrs == addrs' && peers == peers'
  {
    RingOrderUnique(start, addrs, addrs');
  }

  /** A view of a store that holds `start` begins with it. */
  lemma StartComesFirst(start: string, addrs: seq<string>)
    requires InRingOrder(start, addrs) && start in addrs
    ensures addrs[0] == start
  {
    hide RingLess;
    RingFacts(start);
    var i :| 0 <= i < |addrs| && addrs[i] == start;
  }

  lemma ViewStarts(start: string, store: Store, addrs: seq<string>, peers: seq<Peer>)
    requires ViewOf(start, store, addrs, peers) && start in store
    ensures InRingOrder(start, addrs) && addrs != [] && addrs[0] == start && |peers| == |addrs|
  {
    assert start in Elements(addrs);
    StartComesFirst(start, addrs);
  }

  function First(start: string, addrs: seq<string>): string {
    if addrs == [] then start else addrs[0]
  }

  /** Read from its first address a view has the same order. */
  lemma ViewFromFirst(start: string, store: Store, addrs: seq<string>, peers: seq<Peer>)
    requires ViewOf(start, store, addrs, peers)
    ensures InRingOrder(First(start, addrs), addrs) && Elements(addrs) == store.Keys && |peers| == |addrs|
  {
    hide RingLess;
    RingFacts(start);
    forall i, j | 0 <= i < j < |addrs| ensures RingLess(addrs[0], addrs[i], addrs[j]) {
      assert !RingLess(start, addrs[i], addrs[0]) && !RingLess(start, addrs[j], addrs[0]);
      RingFromPivot(start, addrs[0], addrs[i], addrs[j]);
    }
  }

  /** Rotating a sorted list at the first address not below `start` gives ring order. */
  lemma RotateSorted(start: string, xs: seq<string>, i: nat)
    requires Ascending(xs) && i <= |xs|
    requires forall j :: 0 <= j < i ==> Less(xs[j], start)
    requires forall j :: i <= j < |xs| ==> !Less(xs[j], start)
    ensures InRingOrder(start, xs[i..] + xs[..i]) && Elements(xs[i..] + xs[..i]) == Elements(xs)
  {
    hide Less;
    assert xs == xs[..i] + xs[i..];
  }

  class SortedPeersView {
    var sortedAddrs: seq<string>
    var sortedPeers: seq<Peer>

    ghost predicate Valid(start: string, store: Store)
      reads this
    {
      ViewOf(start, store, sortedAddrs, sortedPeers)
    }

    /** `peerList` is the store's peers in whatever order its map is iterated. */
    constructor (start: string, store: Store, peerList: seq<Peer>)
      requires Keyed(store)
      requires Distinct(seq(|peerList|, i requires 0 <= i < |peerList| => peerList[i].address))
      requires forall a :: a in store <==> exists i :: 0 <= i < |peerList| && peerList[i].address == a
      ensures Valid(start, store)
    {
      sortedAddrs, sortedPeers := [], [];
      new;
      for i := 0 to |peerList|
        invariant sortedPeers == []
        invariant |sortedAddrs| == i && forall j :: 0 <= j < i ==> sortedAddrs[j] == peerList[j].address
      {
        sortedAddrs := sortedAddrs + [peerList[i].address];
      }
      assert sortedAddrs == seq(|peerList|, i requires 0 <= i < |peerList| => peerList[i].address);
      assert Elements(sortedAddrs) == store.Keys by {
        forall a | a in store.Keys ensures a in sortedAddrs {
          var i :| 0 <= i < |peerList| && peerList[i].address == a;
          assert sortedAddrs[i] == a;
        }
      }
      SortAddrs(start);
      var addrs := sortedAddrs;
      for i := 0 to |addrs|
        invariant sortedAddrs == addrs
        invariant |sortedPeers| == i && forall j :: 0 <= j < i ==> sortedAddrs[j] in store && sortedPeers[j] == store[sortedAddrs[j]]
      {
        assert sortedAddrs[i] in Elements(sortedAddrs);
        sortedPeers := sortedPeers + [store[sortedAddrs[i]]];
      }
    }

    method SortAddrs(start: string)
      requires Distinct(sortedAddrs)
      modifies this`sortedAddrs
      ensures InRingOrder(start, sortedAddrs) && Elements(sortedAddrs) == old(Elements(sortedAddrs))
    {
      SortStringsSorts(sortedAddrs);
      sortedAddrs := SortStrings(sortedAddrs);
      var i := SearchStrings(sortedAddrs, start);
      RotateSorted(start, sortedAddrs, i);
      sortedAddrs := sortedAddrs[i..] + sortedAddrs[..i];
    }

    /**
     Where an address is stored or would be inserted: everything before it comes earlier in the ring,
     nothing from there on does. The start address itself is sent past the end.
     */
    method GetAddrIndex(ghost start: string, addr: string) returns (i: nat)
      requires InRingOrder(start, sortedAddrs) && (sortedAddrs != [] ==> sortedAddrs[0] == start)
      ensures i <= |sortedAddrs|
      ensures addr != start ==> forall j :: 0 <= j < i ==> RingLess(start, sortedAddrs[j], addr)
      ensures addr != start ==> forall j :: i <= j < |sortedAddrs| ==> !RingLess(start, sortedAddrs[j], addr)
      ensures addr == start ==> i == |sortedAddrs|
    {
      var addrs := sortedAddrs;
      var wrapIdx := Search(|addrs|, v => 0 <= v < |addrs| ==> Less(addrs[v], addrs[0]));
      var frontAddrs := addrs[..wrapIdx];
      var backAddrs := addrs[wrapIdx..];
      WrapSplits(start, addrs, wrapIdx);
      i := SearchStrings(frontAddrs, addr);
      if i == 0 {
        i := SearchStrings(backAddrs, addr);
        BackIndex(start, addrs, wrapIdx, addr, i);
        i := i + |frontAddrs|;
      } else {
        FrontIndex(start, addrs, wrapIdx, addr, i);
      }
    }

    /**
     `start` is the first address of the list, self by convention. Inserting a peer gives the view
     of the extended store exactly when its address was not there before.
     */
    method Add(ghost start: string, ghost store: Store, peer: Peer)
      requires Valid(start, store) && (start in store || store == map[])
      modifies this
      ensures Valid(start, store[peer.address := peer]) <==> peer.address !in store
      ensures peer.address in store ==> !InRingOrder(start, sortedAddrs)
    {
      if sortedAddrs != [] {
        assert sortedAddrs[0] in Elements(sortedAddrs);
        StartComesFirst(start, sortedAddrs);
      }
      var i := GetAddrIndex(start, peer.address);
      if peer.address in store {
        DuplicateBreaksView(start, sortedAddrs, peer.address, i);
      } else {
        if peer.address == start { NoElements(sortedAddrs); }
        InsertKeepsView(start, store, sortedAddrs, sortedPeers, peer, i);
      }
      sortedAddrs := InsertElementAtIndex(sortedAddrs, peer.address, i);
      sortedPeers := InsertElementAtIndex(sortedPeers, peer, i);
    }

    /**
     Removing an address leaves the view of the store without it exactly when the address is a peer
     other than the first of the list, or is unknown and would be inserted at the end. The first is the
     node itself when the store holds it, and the next address in the ring otherwise.
     */
    method Remove(ghost start: string, ghost store: Store, addr: string)
      requires Valid(start, store)
      modifies this
      ensures Valid(start, store - {addr}) <==>
        var first := First(start, old(sortedAddrs));
        (addr in store && addr != first) || (addr !in store && forall a :: a in store ==> RingLess(first, a, addr))
    {
      hide RingLess, Elements;
      ghost var first := First(start, sortedAddrs);
      ViewFromFirst(start, store, sortedAddrs, sortedPeers);
      hide ViewOf, InRingOrder;
      var i := GetAddrIndex(first, addr);
      RemoveIndex(first, store, sortedAddrs, addr, i);
      if i == |sortedAddrs| {
        UnchangedView(start, store, sortedAddrs, sortedPeers, addr);
        return;
      }
      RemoveFromView(start, store, sortedAddrs, sortedPeers, addr, i);
      ghost var addrs, peers := sortedAddrs, sortedPeers;
      sortedAddrs := RemoveElementAtIndex(sortedAddrs, i);
      sortedPeers := RemoveElementAtIndex(sortedPeers, i);
      assert sortedAddrs == addrs[..i] + addrs[i + 1..] && sortedPeers == peers[..i] + peers[i + 1..];
    }
  }

  // ---------------------------------------------------------------- why the searches are right

  /** The binary search for the wrap point separates the addresses from `start` up and those below it. */
  lemma WrapSplits(start: string, addrs: seq<string>, w: nat)
    requires InRingOrder(start, addrs) && (addrs != [] ==> addrs[0] == start) && w <= |addrs|
    requires (w < |addrs| ==> Less(addrs[w], start)) && (w > 0 ==> !Less(addrs[w - 1], start))
    ensures Ascending(addrs[..w]) && Ascending(addrs[w..]) && (addrs != [] ==> w > 0)
    ensures forall j :: 0 <= j < w ==> !Less(addrs[j], start)
    ensures forall j :: w <= j < |addrs| ==> Less(addrs[j], start)
  {
    hide Less;
    OrderFacts();
  }

  lemma FrontIndex(start: string, addrs: seq<string>, w: nat, addr: string, i: nat)
    requires InRingOrder(start, addrs) && 0 < i <= w <= |addrs| && addrs[0] == start
    requires forall j :: 0 <= j < w ==> !Less(addrs[j], start)
    requires forall j :: w <= j < |addrs| ==> Less(addrs[j], start)
    requires forall j :: 0 <= j < i ==> Less(addrs[..w][j], addr)
    requires forall j :: i <= j < w ==> !Less(addrs[..w][j], addr)
    ensures addr != start
    ensures forall j :: 0 <= j < i ==> RingLess(start, addrs[j], addr)
    ensures forall j :: i <= j < |addrs| ==> !RingLess(start, addrs[j], addr)
  {
    hide Less;
    OrderFacts();
    assert Less(addrs[..w][0], addr);
    forall j | 0 <= j < w ensures addrs[..w][j] == addrs[j] {}
  }

  lemma BackIndex(start: string, addrs: seq<string>, w: nat, addr: string, i: nat)
    requires InRingOrder(start, addrs) && w <= |addrs| && i <= |addrs| - w && (addrs != [] ==> addrs[0] == start && w > 0)
    requires forall j :: 0 <= j < w ==> !Less(addrs[j], start) && !Less(addrs[j], addr)
    requires forall j :: w <= j < |addrs| ==> Less(addrs[j], start)
    requires forall j :: 0 <= j < i ==> Less(addrs[w..][j], addr)
    requires forall j :: i <= j < |addrs| - w ==> !Less(addrs[w..][j], addr)
    ensures addr == start ==> w + i == |addrs|
    ensures addr != start ==> forall j :: 0 <= j < w + i ==> RingLess(start, addrs[j], addr)
    ensures addr != start ==> forall j :: w + i <= j < |addrs| ==> !RingLess(start, addrs[j], addr)
  {
    hide Less;
    OrderFacts();
    forall j | w <= j < |addrs| ensures addrs[w..][j - w] == addrs[j] {}
    assert i < |addrs| - w ==> Less(addrs[w..][i], start) && !Less(addrs[w..][i], addr);
  }

  lemma InsertKeepsView(start: string, store: Store, addrs: seq<string>, peers: seq<Peer>, peer: Peer, i: nat)
    requires ViewOf(start, store, addrs, peers) && peer.address !in store && i <= |addrs|
    requires forall j :: 0 <= j < i ==> RingLess(start, addrs[j], peer.address)
    requires forall j :: i <= j < |addrs| ==> !RingLess(start, addrs[j], peer.address)
    ensures ViewOf(start, store[peer.address := peer],
                   addrs[..i] + [peer.address] + addrs[i..], peers[..i] + [peer] + peers[i..])
  {
    hide RingLess;
    var a := peer.address;
    var r := addrs[..i] + [a] + addrs[i..];
    InsertElements(addrs, a, i);
    assert forall j :: 0 <= j < |addrs| ==> addrs[j] in Elements(addrs);
    InsertRingOrder(start, addrs, a, i);
    hide InRingOrder;
    InsertAligned(store, addrs, peers, peer, i);
  }

  lemma InsertAligned(store: Store, addrs: seq<string>, peers: seq<Peer>, peer: Peer, i: nat)
    requires |peers| == |addrs| && i <= |addrs| && peer.address !in store
    requires forall j :: 0 <= j < |addrs| ==> addrs[j] in store && peers[j] == store[addrs[j]]
    ensures var r, ps := addrs[..i] + [peer.address] + addrs[i..], peers[..i] + [peer] + peers[i..];
            forall j :: 0 <= j < |r| ==> r[j] in store[peer.address := peer] && ps[j] == store[peer.address := peer][r[j]]
  {
    var r, ps := addrs[..i] + [peer.address] + addrs[i..], peers[..i] + [peer] + peers[i..];
    forall j | 0 <= j < |r| ensures r[j] in store[peer.address := peer] && ps[j] == store[peer.address := peer][r[j]] {
      assert r[j] == (if j < i then addrs[j] else if j == i then peer.address else addrs[j - 1]);
      assert ps[j] == (if j < i then peers[j] else if j == i then peer else peers[j - 1]);
    }
  }

  lemma NoElements(addrs: seq<string>)
    ensures Elements(addrs) == {} ==> addrs == []
  {
    NonEmptyElements(addrs);
  }

  lemma DuplicateBreaksView(start: string, addrs: seq<string>, a: string, i: nat)
    requires a in addrs && i <= |addrs|
    ensures !InRingOrder(start, addrs[..i] + [a] + addrs[i..])
  {
    hide RingLess;
    RingFacts(start);
    var r := addrs[..i] + [a] + addrs[i..];
    var j :| 0 <= j < |addrs| && addrs[j] == a;
    var k := if j < i then j else j + 1;
    assert r[k] == a && r[i] == a;
  }

  /** For addresses at or after `pivot`, the rings from `start` and from `pivot` agree. */
  lemma RingFromPivot(start: string, pivot: string, a: string, b: string)
    requires !RingLess(start, a, pivot) && !RingLess(start, b, pivot)
    ensures RingLess(start, a, b) <==> RingLess(pivot, a, b)
  {
    hide Less;
    OrderFacts();
  }

  /**
   A node that is not among its peers lists them from the next address on. An insertion then keeps
   the list a rebuild would give exactly when the new address does not fall in the gap before it.
   */
  lemma InsertWithoutSelf(start: string, store: Store, addrs: seq<string>, peers: seq<Peer>, peer: Peer,
                          addrs': seq<string>, peers': seq<Peer>)
    requires ViewOf(start, store, addrs, peers) && addrs != [] && start !in store && peer.address !in store
    requires ViewOf(addrs[0], store[peer.address := peer], addrs', peers')
    ensures ViewOf(start, store[peer.address := peer], addrs', peers') <==> !RingLess(start, peer.address, addrs[0])
  {
    hide RingLess;
    var pivot, a := addrs[0], peer.address;
    RingFacts(start);
    RingFacts(pivot);
    assert addrs[0] in Elements(addrs);
    StartComesFirst(pivot, addrs') by { assert pivot in Elements(addrs'); }
    if RingLess(start, a, pivot) {
      assert a in Elements(addrs');
      var k :| 0 <= k < |addrs'| && addrs'[k] == a;
      assert !RingLess(start, addrs'[0], addrs'[k]);
    } else {
      forall i, j | 0 <= i < j < |addrs'| ensures RingLess(start, addrs'[i], addrs'[j]) {
        NotBeforePivot(start, store, addrs, a, addrs', i);
        NotBeforePivot(start, store, addrs, a, addrs', j);
        RingFromPivot(start, pivot, addrs'[i], addrs'[j]);
      }
    }
  }

  lemma NotBeforePivot(start: string, store: Store, addrs: seq<string>, a: string, addrs': seq<string>, i: nat)
    requires InRingOrder(start, addrs) && addrs != [] && Elements(addrs) == store.Keys
    requires Elements(addrs') == store.Keys + {a} && i < |addrs'| && !RingLess(start, a, addrs[0])
    ensures !RingLess(start, addrs'[i], addrs[0])
  {
    hide RingLess;
    RingFacts(start);
    assert addrs'[i] in Elements(addrs');
    if addrs'[i] != a {
      assert addrs'[i] in Elements(addrs);
      var j :| 0 <= j < |addrs| && addrs[j] == addrs'[i];
    }
  }

  lemma InsertElements<T>(xs: seq<T>, x: T, i: nat)
    requires i <= |xs|
    ensures Elements(xs[..i] + [x] + xs[i..]) == Elements(xs) + {x}
  {
    assert xs == xs[..i] + xs[i..];
  }

  lemma InsertRingOrder(start: string, addrs: seq<string>, a: string, i: nat)
    requires InRingOrder(start, addrs) && i <= |addrs| && a !in addrs
    requires forall j :: 0 <= j < i ==> RingLess(start, addrs[j], a)
    requires forall j :: i <= j < |addrs| ==> !RingLess(start, addrs[j], a)
    ensures InRingOrder(start, addrs[..i] + [a] + addrs[i..])
  {
    hide RingLess;
    RingFacts(start);
  }

  lemma RemoveIndex(start: string, store: Store, addrs: seq<string>, addr: string, i: nat)
    requires InRingOrder(start, addrs) && Elements(addrs) == store.Keys && i <= |addrs|
    requires addrs != [] ==> addrs[0] == start
    requires addr != start ==> forall j :: 0 <= j < i ==> RingLess(start, addrs[j], addr)
    requires addr != start ==> forall j :: i <= j < |addrs| ==> !RingLess(start, addrs[j], addr)
    requires addr == start ==> i == |addrs|
    ensures addr in store && addr != start ==> i < |addrs| && addrs[i] == addr
    ensures addr !in store ==> (i == |addrs| <==> forall a :: a in store ==> RingLess(start, a, addr))
  {
    hide RingLess;
    RingFacts(start);
    assert forall j :: 0 <= j < |addrs| ==> addrs[j] in Elements(addrs);
    if addr in store && addr != start {
      var j :| 0 <= j < |addrs| && addrs[j] == addr;
    }
    if addr !in store && i == |addrs| {
      forall a | a in store ensures RingLess(start, a, addr) {
        var j :| 0 <= j < |addrs| && addrs[j] == a;
      }
    }
  }

  lemma UnchangedView(start: string, store: Store, addrs: seq<string>, peers: seq<Peer>, addr: string)
    requires ViewOf(start, store, addrs, peers)
    ensures ViewOf(start, store - {addr}, addrs, peers) <==> addr !in store
  {
    if addr in store {
      assert addr in Elements(addrs) && addr !in (store - {addr}).Keys;
    } else {
      assert store - {addr} == store;
    }
  }

  lemma RemoveFromRing(start: string, addrs: seq<string>, i: nat)
    requires InRingOrder(start, addrs) && i < |addrs|
    ensures var r := addrs[..i] + addrs[i + 1..];
            InRingOrder(start, r) && addrs[i] !in r && Elements(r) == Elements(addrs) - {addrs[i]}
  {
    hide RingLess;
    RingFacts(start);
    var r := addrs[..i] + addrs[i + 1..];
    assert addrs == addrs[..i] + [addrs[i]] + addrs[i + 1..];
    assert addrs[i] !in r by {
      forall j | 0 <= j < |r| ensures r[j] != addrs[i] {}
    }
  }

  lemma RemoveFromView(start: string, store: Store, addrs: seq<string>, peers: seq<Peer>, addr: string, i: nat)
    requires ViewOf(start, store, addrs, peers) && i < |addrs|
    requires addr in store ==> addrs[i] == addr
    ensures ViewOf(start, store - {addr}, addrs[..i] + addrs[i + 1..], peers[..i] + peers[i + 1..]) <==> addr in store
  {
    hide InRingOrder;
    var r := addrs[..i] + addrs[i + 1..];
    RemoveFromRing(start, addrs, i);
    assert addrs[i] in Elements(addrs);
    if addr in store {
      assert (store - {addr}).Keys == store.Keys - {addr};
      forall j | 0 <= j < |r| ensures r[j] in store - {addr} { assert r[j] in Elements(r); }
    } else {
      assert addrs[i] in (store - {addr}).Keys && addrs[i] !in Elements(r);
    }
  }
}
