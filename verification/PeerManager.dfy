/** p2p/types/peer_manager.go, p2p/types/peer.go and the new-height handling that keeps peers in step. */
module PeerManager {
  import opened AddressOrder
  import opened Collections
  import opened PeersView
  import RainTree

  // ---------------------------------------------------------------- peer lists

  function AddressesOf(peers: seq<Peer>): (r: seq<string>)
    ensures |r| == |peers| && forall i :: 0 <= i < |r| ==> r[i] == peers[i].address
  {
    seq(|peers|, i requires 0 <= i < |peers| => peers[i].address)
  }

  ghost predicate Lists(store: Store, peers: seq<Peer>) {
    && Distinct(AddressesOf(peers))
    && (forall i :: 0 <= i < |peers| ==> peers[i].address in store && store[peers[i].address] == peers[i])
    && (forall a :: a in store ==> exists i :: 0 <= i < |peers| && peers[i].address == a)
  }

  /** The peers of a store in whatever order the map yields them. */
  method GetPeerList(store: Store) returns (peers: seq<Peer>)
    requires Keyed(store)
    ensures Lists(store, peers)
  {
    peers := [];
    var rest := store.Keys;
    while rest != {}
      invariant rest <= store.Keys && Distinct(AddressesOf(peers))
      invariant forall i :: 0 <= i < |peers| ==> peers[i].address in store && store[peers[i].address] == peers[i] && peers[i].address !in rest
      invariant forall a :: a in store ==> a in rest || exists i :: 0 <= i < |peers| && peers[i].address == a
      decreases rest
    {
      var a :| a in rest;
      ghost var before := peers;
      peers := peers + [store[a]];
      assert forall i :: 0 <= i < |before| ==> peers[i] == before[i];
      assert peers[|before|].address == a;
      rest := rest - {a};
    }
  }

  /** The first loop of PeerList.Delta. */
  method ByAddress(peers: seq<Peer>) returns (common: Store)
    requires Distinct(AddressesOf(peers))
    ensures forall p: Peer :: (p.address in common && common[p.address] == p) <==> p in peers
    ensures common.Keys == Elements(AddressesOf(peers)) && Keyed(common)
  {
    common := map[];
    for i := 0 to |peers|
      invariant forall p: Peer :: (p.address in common && common[p.address] == p) <==> p in peers[..i]
      invariant common.Keys == Elements(AddressesOf(peers)[..i]) && Keyed(common)
    {
      FreshAddress(peers, i);
      common := common[peers[i].address := peers[i]];
    }
    assert peers[..|peers|] == peers && AddressesOf(peers)[..|peers|] == AddressesOf(peers);
  }

  lemma AddedFresh(added: seq<Peer>, compare: seq<Peer>, i: nat)
    requires Distinct(AddressesOf(compare)) && i < |compare| && Distinct(AddressesOf(added))
    requires forall p :: p in added ==> p in compare[..i]
    ensures compare[i].address !in AddressesOf(added) && Distinct(AddressesOf(added + [compare[i]]))
  {
    FreshAddress(compare, i);
    forall j | 0 <= j < |added| ensures added[j].address != compare[i].address {
      InPrefix(compare, i, added[j]);
    }
  }

  /** PeerList.Delta: what `compare` has and `peers` has not, and the reverse. */
  method Delta(peers: seq<Peer>, compare: seq<Peer>) returns (added: seq<Peer>, removed: seq<Peer>)
    requires Distinct(AddressesOf(peers)) && Distinct(AddressesOf(compare))
    ensures Distinct(AddressesOf(added)) && Distinct(AddressesOf(removed))
    ensures forall p :: p in added <==> p in compare && p.address !in AddressesOf(peers)
    ensures forall p :: p in removed <==> p in peers && p.address !in AddressesOf(compare)
  {
    hide Distinct, Lists;
    var common := ByAddress(peers);
    added := [];
    NoAddresses();
    for i := 0 to |compare|
      invariant Keyed(common)
      invariant forall p: Peer :: (p.address in common && common[p.address] == p) <==> p in peers && p.address !in AddressesOf(compare)[..i]
      invariant common.Keys == Elements(AddressesOf(peers)) - Elements(AddressesOf(compare)[..i])
      invariant forall p :: p in added <==> p in compare[..i] && p.address !in AddressesOf(peers)
      invariant Distinct(AddressesOf(added))
    {
      var c := compare[i];
      FreshAddress(compare, i);
      assert compare[..i + 1] == compare[..i] + [c];
      assert AddressesOf(compare)[..i + 1] == AddressesOf(compare)[..i] + [c.address];
      if c.address !in common {
        AddedFresh(added, compare, i);
        added := added + [c];
      } else {
        common := common - {c.address};
      }
    }
    assert compare[..|compare|] == compare && AddressesOf(compare)[..|compare|] == AddressesOf(compare);
    removed := GetPeerList(common);
    ListedPeers(common, removed);
  }

  lemma NoAddresses()
    ensures Distinct(AddressesOf([]))
  {
  }

  lemma ListedPeers(store: Store, peers: seq<Peer>)
    requires Lists(store, peers)
    ensures Distinct(AddressesOf(peers)) && forall p :: p in peers <==> p.address in store && store[p.address] == p
  {
    forall p ensures p in peers <==> p.address in store && store[p.address] == p {
      if p.address in store && store[p.address] == p {
        var i :| 0 <= i < |peers| && peers[i].address == p.address;
      }
    }
  }

  lemma FreshAddress(peers: seq<Peer>, i: nat)
    requires Distinct(AddressesOf(peers)) && i < |peers|
    ensures peers[i].address !in AddressesOf(peers)[..i]
    ensures peers[..i + 1] == peers[..i] + [peers[i]] && AddressesOf(peers)[..i + 1] == AddressesOf(peers)[..i] + [peers[i].address]
    ensures forall p :: p in peers[..i] ==> p.address in AddressesOf(peers)[..i]
  {
    forall p | p in peers[..i] ensures p.address in AddressesOf(peers)[..i] {
      InPrefix(peers, i, p);
    }
  }

  lemma InPrefix(peers: seq<Peer>, i: nat, p: Peer)
    requires i <= |peers| && p in peers[..i]
    ensures p.address in AddressesOf(peers)[..i]
  {
    var j :| 0 <= j < i && peers[j] == p;
    assert AddressesOf(peers)[..i][j] == p.address;
  }

  function WithPeers(store: Store, peers: seq<Peer>): Store {
    if peers == [] then store else
    var p := peers[|peers| - 1];
    var before := WithPeers(store, peers[..|peers| - 1]);
    if p.address in before then before else before[p.address := p]
  }

  function WithoutPeers(store: Store, peers: seq<Peer>): Store {
    if peers == [] then store else WithoutPeers(store, peers[..|peers| - 1]) - {peers[|peers| - 1].address}
  }

  lemma {:induction false} WithPeersKeys(store: Store, peers: seq<Peer>, i: nat)
    requires i <= |peers|
    ensures var r := WithPeers(store, peers[..i]);
      && r.Keys == store.Keys + Elements(AddressesOf(peers)[..i])
      && forall a :: a in r ==> if a in store then r[a] == store[a] else r[a] in peers && r[a].address == a
  {
    if i > 0 {
      WithPeersKeys(store, peers, i - 1);
      assert peers[..i][..i - 1] == peers[..i - 1] && peers[i - 1] in peers;
      assert AddressesOf(peers)[..i] == AddressesOf(peers)[..i - 1] + [peers[i - 1].address];
    }
  }

  lemma {:induction false} WithoutPeersKeys(store: Store, peers: seq<Peer>, i: nat)
    requires i <= |peers|
    ensures WithoutPeers(store, peers[..i]) == store - Elements(AddressesOf(peers)[..i])
  {
    if i > 0 {
      WithoutPeersKeys(store, peers, i - 1);
      assert peers[..i][..i - 1] == peers[..i - 1];
      assert AddressesOf(peers)[..i] == AddressesOf(peers)[..i - 1] + [peers[i - 1].address];
    }
  }

  // ---------------------------------------------------------------- the manager

  /** The store and the view that events keep in step, and the number of RainTree levels. */
  class SortedPeerManager {
    const startAddr: string
    const view: SortedPeersView
    var pstore: Store
    var maxNumLevels: nat

    ghost predicate Valid()
      reads this, view
    {
      && Keyed(pstore) && startAddr in pstore
      && view.Valid(startAddr, pstore)
      && maxNumLevels == RainTree.MaxLevels(|pstore|)
    }

    constructor (startAddr: string, pstore: Store)
      requires Keyed(pstore) && startAddr in pstore
      ensures Valid() && fresh(view) && this.pstore == pstore && this.startAddr == startAddr
    {
      var peers := GetPeerList(pstore);
      this.startAddr, this.pstore := startAddr, pstore;
      view := new SortedPeersView(startAddr, pstore, peers);
      maxNumLevels := RainTree.MaxLevels(|pstore|);
    }

    /** An add event for a known address leaves the store alone but still inserts into the view, which then lists it twice. */
    method HandleAdd(peer: Peer)
      requires Valid()
      modifies this, view
      ensures pstore == if peer.address in old(pstore) then old(pstore) else old(pstore)[peer.address := peer]
      ensures Valid() <==> peer.address !in old(pstore)
    {
      view.Add(startAddr, pstore, peer);
      if peer.address !in pstore {
        pstore := pstore[peer.address := peer];
      }
      maxNumLevels := RainTree.MaxLevels(|pstore|);
    }

    /** The router's guard makes adding safe for every peer. */
    method AddPeer(peer: Peer)
      requires Valid()
      modifies this, view
      ensures Valid()
      ensures pstore == if peer.address in old(pstore) then old(pstore) else old(pstore)[peer.address := peer]
    {
      if peer.address in pstore { return; }
      HandleAdd(peer);
    }

    /** Removing an unknown peer takes a neighbour out of the view, unless the peer would have come last. */
    method RemovePeer(peer: Peer)
      requires Valid()
      modifies this, view
      ensures pstore == old(pstore) - {peer.address}
      ensures Valid() <==>
        || (peer.address in old(pstore) && peer.address != startAddr)
        || (peer.address !in old(pstore) && forall a :: a in old(pstore) ==> RingLess(startAddr, a, peer.address))
    {
      ViewStarts(startAddr, pstore, view.sortedAddrs, view.sortedPeers);
      view.Remove(startAddr, pstore, peer.address);
      pstore := pstore - {peer.address};
      maxNumLevels := RainTree.MaxLevels(|pstore|);
    }

    method AddAll(added: seq<Peer>)
      requires Valid()
      modifies this, view
      ensures Valid() && pstore == WithPeers(old(pstore), added)
    {
      hide Valid, Elements;
      for i := 0 to |added|
        invariant Valid() && pstore == WithPeers(old(pstore), added[..i])
      {
        assert added[..i + 1][..i] == added[..i];
        AddPeer(added[i]);
      }
      assert added[..|added|] == added;
    }

    method RemoveAll(removed: seq<Peer>)
      requires Valid() && Distinct(AddressesOf(removed))
      requires forall p :: p in removed ==> p.address in pstore && p.address != startAddr
      modifies this, view
      ensures Valid() && pstore == WithoutPeers(old(pstore), removed)
    {
      hide Valid;
      for i := 0 to |removed|
        invariant Valid() && pstore == WithoutPeers(old(pstore), removed[..i])
      {
        assert removed[..i + 1][..i] == removed[..i];
        FreshAddress(removed, i);
        WithoutPeersKeys(old(pstore), removed, i);
        assert removed[i] in removed;
        RemovePeer(removed[i]);
      }
      assert removed[..|removed|] == removed;
    }

    /**
     A new height brings a new set of staked peers. Afterwards the store holds exactly their
     addresses, peers known before keep their entry, and the view and levels match the store.
     */
    method HandleNewHeight(updated: Store)
      requires Valid() && Keyed(updated) && startAddr in updated
      modifies this, view
      ensures Valid()
      ensures pstore.Keys == updated.Keys
      ensures forall a :: a in pstore ==> pstore[a] == if a in old(pstore) then old(pstore)[a] else updated[a]
    {
      var oldPeers := GetPeerList(pstore);
      var newPeers := GetPeerList(updated);
      var added, removed := Delta(oldPeers, newPeers);
      SyncedStore(pstore, updated, oldPeers, newPeers, added, removed);
      hide Valid;
      AddAll(added);
      RemoveAll(removed);
    }
  }

  /** Applying the delta of two stores' listings to the first gives the addresses of the second. */
  lemma SyncedStore(before: Store, updated: Store, oldPeers: seq<Peer>, newPeers: seq<Peer>, added: seq<Peer>, removed: seq<Peer>)
    requires Lists(before, oldPeers) && Lists(updated, newPeers) && Keyed(before) && Keyed(updated)
    requires forall p :: p in added <==> p in newPeers && p.address !in AddressesOf(oldPeers)
    requires forall p :: p in removed <==> p in oldPeers && p.address !in AddressesOf(newPeers)
    ensures forall p :: p in removed ==> p.address in WithPeers(before, added) && p.address !in updated
    ensures var r := WithoutPeers(WithPeers(before, added), removed);
      && r.Keys == updated.Keys
      && forall a :: a in r ==> r[a] == if a in before then before[a] else updated[a]
  {
    hide Lists;
    ListedAddresses(before, oldPeers);
    ListedAddresses(updated, newPeers);
    SyncedKeys(before, updated, oldPeers, newPeers, added, removed);
    WithPeersKeys(before, added, |added|);
    assert added[..|added|] == added && AddressesOf(added)[..|added|] == AddressesOf(added);
    WithoutPeersKeys(WithPeers(before, added), removed, |removed|);
    assert removed[..|removed|] == removed && AddressesOf(removed)[..|removed|] == AddressesOf(removed);
    assert forall a :: a in updated ==> a in Elements(AddressesOf(newPeers));
  }

  lemma ListedAddresses(store: Store, peers: seq<Peer>)
    requires Lists(store, peers)
    ensures Elements(AddressesOf(peers)) == store.Keys
    ensures forall p :: p in peers <==> p.address in store && store[p.address] == p
  {
    forall a | a in store.Keys ensures a in AddressesOf(peers) {
      var i :| 0 <= i < |peers| && peers[i].address == a;
      assert AddressesOf(peers)[i] == a;
    }
    forall p: Peer | p.address in store && store[p.address] == p ensures p in peers {
      var i :| 0 <= i < |peers| && peers[i].address == p.address;
    }
  }

  /** The peers of one list that are missing from another are those of the keys between the two. */
  lemma MissingKeys(store: Store, peers: seq<Peer>, others: seq<Peer>, missing: seq<Peer>)
    requires Lists(store, peers) && Keyed(store)
    requires forall p :: p in missing <==> p in peers && p.address !in AddressesOf(others)
    ensures Elements(AddressesOf(missing)) == store.Keys - Elements(AddressesOf(others))
  {
    ListedAddresses(store, peers);
    forall a ensures a in Elements(AddressesOf(missing)) <==> a in store && a !in AddressesOf(others) {
      if a in store && a !in AddressesOf(others) {
        assert store[a] in missing;
        var j :| 0 <= j < |missing| && missing[j] == store[a];
        assert AddressesOf(missing)[j] == a;
      }
      if a in AddressesOf(missing) {
        var j :| 0 <= j < |missing| && AddressesOf(missing)[j] == a;
        assert missing[j] in missing;
      }
    }
  }

  /** Old addresses plus the added ones minus the removed ones are the updated ones. */
  lemma SyncedKeys(before: Store, updated: Store, oldPeers: seq<Peer>, newPeers: seq<Peer>, added: seq<Peer>, removed: seq<Peer>)
    requires Lists(before, oldPeers) && Lists(updated, newPeers) && Keyed(before) && Keyed(updated)
    requires forall p :: p in added <==> p in newPeers && p.address !in AddressesOf(oldPeers)
    requires forall p :: p in removed <==> p in oldPeers && p.address !in AddressesOf(newPeers)
    ensures before.Keys + Elements(AddressesOf(added)) - Elements(AddressesOf(removed)) == updated.Keys
  {
    hide Lists;
    hide AddressesOf;
    ListedAddresses(before, oldPeers);
    ListedAddresses(updated, newPeers);
    MissingKeys(updated, newPeers, oldPeers, added);
    MissingKeys(before, oldPeers, newPeers, removed);
  }

  /** A node's view is the sorted ring of all peers read from its own position: what a broadcast walks. */
  lemma ViewIsRotation(ring: seq<string>, p: nat, store: Store, addrs: seq<string>, peers: seq<Peer>)
    requires Ascending(ring) && Elements(ring) == store.Keys && p < |ring|
    requires ViewOf(ring[p], store, addrs, peers)
    ensures addrs == RainTree.View(ring, p)
  {
    assert forall j :: 0 <= j < p ==> Less(ring[j], ring[p]);
    forall j | p <= j < |ring| ensures !Less(ring[j], ring[p]) {
      LessTotal(ring[j], ring[p]);
    }
    RotateSorted(ring[p], ring, p);
    RingOrderUnique(ring[p], addrs, ring[p..] + ring[..p]);
  }
}
