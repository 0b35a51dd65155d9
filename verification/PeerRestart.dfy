/** Peers across a restart: saved at shutdown, read back and reconnected at the next start. */
module PeerRestart {
  import opened Wrappers
  import opened Records
  import opened NodeFiles
  import opened Listing
  import opened NodeStores
  import Lifecycle

  /** What the peer manager reports about a connected peer. */
  datatype PeerDetails = PeerDetails(nodeId: PublicKey, address: Option<SocketAddress>)

  type PeerMap = map<PublicKey, PeerInfo>

  /** One pass of the save loop: a peer without address is skipped, a failed write ignored. */
  function SaveOne(m: PeerMap, peer: PeerDetails, diskOk: bool): PeerMap {
    if peer.address.None? || !diskOk then m
    else m[peer.nodeId := PeerInfo(peer.nodeId, peer.address.value)]
  }

  function SaveAll(m: PeerMap, peers: seq<PeerDetails>, diskOk: seq<bool>): PeerMap
    requires |peers| == |diskOk|
  {
    if peers == [] then m
    else SaveOne(SaveAll(m, peers[..|peers| - 1], diskOk[..|peers| - 1]),
                 peers[|peers| - 1], diskOk[|peers| - 1])
  }

  method SavePeers(store: NodeStore, peers: seq<PeerDetails>, diskOk: seq<bool>)
    requires store.Valid() && |peers| == |diskOk|
    modifies store
    ensures store.Valid() && store.contents.payments == old(store.contents).payments
    ensures store.contents.peers == SaveAll(old(store.contents).peers, peers, diskOk)
  {
    for i := 0 to |peers|
      invariant store.Valid() && store.contents.payments == old(store.contents).payments
      invariant store.contents.peers == SaveAll(old(store.contents).peers, peers[..i], diskOk[..i])
    {
      SaveNext(old(store.contents).peers, peers, diskOk, i);
      match peers[i].address
      case None =>
      case Some(address) => var _ := store.AddPeer(PeerInfo(peers[i].nodeId, address), diskOk[i]);
    }
    assert peers[..|peers|] == peers && diskOk[..|peers|] == diskOk;
  }

  lemma SaveNext(m: PeerMap, peers: seq<PeerDetails>, diskOk: seq<bool>, i: nat)
    requires |peers| == |diskOk| && i < |peers|
    ensures SaveAll(m, peers[..i + 1], diskOk[..i + 1])
            == SaveOne(SaveAll(m, peers[..i], diskOk[..i]), peers[i], diskOk[i])
  {
    assert peers[..i + 1][..i] == peers[..i] && diskOk[..i + 1][..i] == diskOk[..i];
  }

  /** The stored peers after a shutdown that finds the event handler in this state. */
  function PeersAfter(handler: Lifecycle.Handler, m: PeerMap, peers: seq<PeerDetails>, diskOk: seq<bool>): PeerMap
    requires |peers| == |diskOk|
  {
    if handler.Stopped? then m else SaveAll(m, peers, diskOk)
  }

  /**
   * Shutdown joins the background process first. If its event handler has stopped on an unwrap the
   * process is gone, the join panics in turn, and the save loop is never reached.
   */
  method Shutdown(store: NodeStore, handler: Lifecycle.Handler, peers: seq<PeerDetails>, diskOk: seq<bool>)
    returns (panicked: bool)
    requires store.Valid() && |peers| == |diskOk|
    modifies store
    ensures store.Valid() && store.contents.payments == old(store.contents).payments
    ensures store.contents.peers == PeersAfter(handler, old(store.contents).peers, peers, diskOk)
    ensures panicked == handler.Stopped?
  {
    if handler.Stopped? {
      return true;
    }
    SavePeers(store, peers, diskOk);
    panicked := false;
  }

  // ----- Reconnecting -----

  /** The addresses the node can dial. */
  datatype Endpoint = V4(addr4: Bytes4, port: U16) | V6(addr16: Bytes16, port: U16)

  function EndpointOf(a: SocketAddress): Option<Endpoint> {
    match a
    case TcpIpV4(addr, port) => Some(V4(addr, port))
    case TcpIpV6(addr, port) => Some(V6(addr, port))
    case _ => None
  }

  /** The stored address that is dialed as `e`. */
  function AddressFor(e: Endpoint): SocketAddress {
    match e
    case V4(addr, port) => TcpIpV4(addr, port)
    case V6(addr, port) => TcpIpV6(addr, port)
  }

  lemma EndpointOfExact(a: SocketAddress, e: Endpoint)
    ensures EndpointOf(a) == Some(e) <==> a == AddressFor(e)
  {
  }

  datatype Attempt = Attempt(nodeId: PublicKey, endpoint: Endpoint)

  /** The dialable peers of `m`, once each, at their stored address. */
  ghost predicate AttemptsExactly(attempts: seq<Attempt>, m: PeerMap) {
    && (forall i, j :: 0 <= i < j < |attempts| ==> attempts[i].nodeId != attempts[j].nodeId)
    && (forall key, endpoint :: Attempt(key, endpoint) in attempts
          <==> key in m && m[key].address == AddressFor(endpoint))
  }

  /** What the loop has tried after the first `i` listed peers. */
  ghost predicate Tried(attempts: seq<Attempt>, peers: seq<PeerInfo>, i: nat)
    requires i <= |peers|
  {
    && (forall a :: a in attempts <==> DialedBy(peers, i, a))
    && (forall a, b :: 0 <= a < b < |attempts| ==> attempts[a].nodeId != attempts[b].nodeId)
  }

  ghost predicate DialedAs(p: PeerInfo, a: Attempt) {
    p.nodeId == a.nodeId && EndpointOf(p.address) == Some(a.endpoint)
  }

  ghost predicate DialedBy(peers: seq<PeerInfo>, i: nat, a: Attempt)
    requires i <= |peers|
  {
    exists k :: 0 <= k < i && DialedAs(peers[k], a)
  }

  lemma TriedNext(attempts: seq<Attempt>, peers: seq<PeerInfo>, i: nat)
    requires i < |peers| && Tried(attempts, peers, i)
    requires forall a, b :: 0 <= a < b < |peers| ==> peers[a].nodeId != peers[b].nodeId
    ensures match EndpointOf(peers[i].address)
            case None => Tried(attempts, peers, i + 1)
            case Some(endpoint) => Tried(attempts + [Attempt(peers[i].nodeId, endpoint)], peers, i + 1)
  {
    match EndpointOf(peers[i].address)
    case None =>
      forall a ensures DialedBy(peers, i, a) <==> DialedBy(peers, i + 1, a) {
        assert !DialedAs(peers[i], a);
      }
    case Some(endpoint) =>
      var more := attempts + [Attempt(peers[i].nodeId, endpoint)];
      forall a ensures a in more <==> DialedBy(peers, i + 1, a) {
        if a in attempts {
          var k :| 0 <= k < i && DialedAs(peers[k], a);
        }
        assert a == Attempt(peers[i].nodeId, endpoint) <==> DialedAs(peers[i], a);
      }
      forall a, b | 0 <= a < b < |more| ensures more[a].nodeId != more[b].nodeId {
        if b == |attempts| {
          assert more[a] in attempts;
          var k :| 0 <= k < i && DialedAs(peers[k], more[a]);
        }
      }
  }

  /** The peers whose attempts succeed, in the order they are tried. */
  function Reached(attempts: seq<Attempt>, reachable: Attempt -> bool): seq<PublicKey> {
    if attempts == [] then []
    else
      var init, last := attempts[..|attempts| - 1], attempts[|attempts| - 1];
      Reached(init, reachable) + if reachable(last) then [last.nodeId] else []
  }

  lemma {:induction false} ReachedExact(attempts: seq<Attempt>, reachable: Attempt -> bool, key: PublicKey)
    ensures key in Reached(attempts, reachable)
            <==> exists e :: Attempt(key, e) in attempts && reachable(Attempt(key, e))
  {
    if attempts != [] {
      var init, last := attempts[..|attempts| - 1], attempts[|attempts| - 1];
      ReachedExact(init, reachable, key);
      assert attempts == init + [last];
      assert last == Attempt(last.nodeId, last.endpoint);
    }
  }

  lemma ReachedNext(attempts: seq<Attempt>, next: Attempt, reachable: Attempt -> bool)
    ensures Reached(attempts + [next], reachable)
            == Reached(attempts, reachable) + if reachable(next) then [next.nodeId] else []
  {
    assert (attempts + [next])[..|attempts|] == attempts;
  }

  /**
   * The reconnect loop run at start-up. `reachable` decides each attempt; a failed one is logged and the loop goes
   * on, so the attempts are the same whatever it says.
   */
  method Reconnect(store: NodeStore, reachable: Attempt -> bool)
    returns (attempts: seq<Attempt>, connected: seq<PublicKey>)
    requires store.Valid()
    ensures AttemptsExactly(attempts, store.contents.peers)
    ensures forall key, e :: Attempt(key, e) in attempts <==>
              && key in store.contents.peers
              && match e
                 case V4(addr, port) => store.contents.peers[key].address == TcpIpV4(addr, port)
                 case V6(addr, port) => store.contents.peers[key].address == TcpIpV6(addr, port)
    ensures connected == Reached(attempts, reachable)
    ensures forall key :: key in connected
              <==> exists e :: Attempt(key, e) in attempts && reachable(Attempt(key, e))
  {
    var listed := store.ListPeers();
    var peers := listed.value;
    attempts, connected := [], [];
    for i := 0 to |peers|
      invariant Tried(attempts, peers, i)
      invariant connected == Reached(attempts, reachable)
    {
      TriedNext(attempts, peers, i);
      var endpoint := EndpointOf(peers[i].address);
      if endpoint.Some? {
        var attempt := Attempt(peers[i].nodeId, endpoint.value);
        ReachedNext(attempts, attempt, reachable);
        attempts := attempts + [attempt];
        if reachable(attempt) {
          connected := connected + [peers[i].nodeId];
        }
      }
    }
    AllTried(attempts, peers, store.contents.peers);
    forall key ensures key in connected
                       <==> exists e :: Attempt(key, e) in attempts && reachable(Attempt(key, e)) {
      ReachedExact(attempts, reachable, key);
    }
  }

  lemma AllTried(attempts: seq<Attempt>, peers: seq<PeerInfo>, m: PeerMap)
    requires ListsAll(peers, m, NodeIdOf) && Tried(attempts, peers, |peers|)
    ensures AttemptsExactly(attempts, m)
  {
    forall key, endpoint
      ensures Attempt(key, endpoint) in attempts
              <==> key in m && m[key].address == AddressFor(endpoint)
    {
      var a := Attempt(key, endpoint);
      if key in m {
        EndpointOfExact(m[key].address, endpoint);
      }
      if a in attempts {
        var k :| 0 <= k < |peers| && DialedAs(peers[k], a);
        assert peers[k] in peers;
      }
      if key in m && EndpointOf(m[key].address) == Some(endpoint) {
        assert m[key] in peers;
        var k :| 0 <= k < |peers| && peers[k] == m[key];
        assert DialedAs(peers[k], a);
      }
    }
  }

  // ----- Shutdown and next start together -----

  /** The address last saved for `key` by the loop, or the one stored before. */
  function LastSaved(peers: seq<PeerDetails>, diskOk: seq<bool>, key: PublicKey,
                     was: Option<SocketAddress>): Option<SocketAddress>
    requires |peers| == |diskOk|
  {
    if peers == [] then was
    else
      var n := |peers| - 1;
      if peers[n].nodeId == key && peers[n].address.Some? && diskOk[n] then peers[n].address
      else LastSaved(peers[..n], diskOk[..n], key, was)
  }

  function AddressIn(m: PeerMap, key: PublicKey): Option<SocketAddress> {
    if key in m then Some(m[key].address) else None
  }

  lemma {:induction false} SaveAllExact(m: PeerMap, peers: seq<PeerDetails>, diskOk: seq<bool>, key: PublicKey)
    requires |peers| == |diskOk|
    ensures AddressIn(SaveAll(m, peers, diskOk), key)
            == LastSaved(peers, diskOk, key, AddressIn(m, key))
  {
    if peers != [] {
      SaveAllExact(m, peers[..|peers| - 1], diskOk[..|peers| - 1], key);
    }
  }

  /**
   * Shutdown, then the next start on the same files: every stored peer with an IPv4 or IPv6
   * address is dialed once, at the address last saved for it, and no one else is.
   */
  method SaveThenRestart(store: NodeStore, handler: Lifecycle.Handler, peers: seq<PeerDetails>,
                         diskOk: seq<bool>, reachable: Attempt -> bool)
    returns (attempts: seq<Attempt>)
    requires store.Valid() && |peers| == |diskOk|
    modifies store
    ensures AttemptsExactly(attempts, PeersAfter(handler, old(store.contents).peers, peers, diskOk))
  {
    var _ := Shutdown(store, handler, peers, diskOk);
    var reopened := new NodeStore(store.files, store.contents);
    var connected;
    attempts, connected := Reconnect(reopened, reachable);
  }

  /**
   * A handler that stops at any moment of a run takes the peers of that run with it: after the next
   * start exactly those stored before are dialed, at their old addresses.
   */
  lemma StoppedHandlerForgetsPeers(s: Lifecycle.Sys, steps: seq<Lifecycle.Step>, i: nat, m: PeerMap,
                                   peers: seq<PeerDetails>, diskOk: seq<bool>, attempts: seq<Attempt>)
    requires Lifecycle.Run(s, steps).Some? && |peers| == |diskOk|
    requires i <= |steps| && Lifecycle.StateAt(s, steps, i).handler.Stopped?
    requires forall j :: i <= j < |steps| ==> !steps[j].Restart?
    requires AttemptsExactly(attempts, PeersAfter(Lifecycle.Run(s, steps).value.handler, m, peers, diskOk))
    ensures AttemptsExactly(attempts, m)
  {
    Lifecycle.StateSuffix(s, steps, i, 0);
    Lifecycle.StoppedStays(Lifecycle.StateAt(s, steps, i), steps[i..]);
  }

  /** In a proper run whose events carry their fields the save loop is reached. */
  lemma ProperRunSavesPeers(s: Lifecycle.Sys, steps: seq<Lifecycle.Step>, invoices: set<PaymentId>, m: PeerMap,
                            peers: seq<PeerDetails>, diskOk: seq<bool>)
    requires Lifecycle.Inv(s) && Lifecycle.Separated(s, invoices) && Lifecycle.Run(s, steps).Some?
    requires Lifecycle.Proper(s, steps, invoices) && !s.handler.Stopped? && |peers| == |diskOk|
    requires forall i :: 0 <= i < |steps| ==> Lifecycle.CompleteAt(s, steps, i)
    ensures PeersAfter(Lifecycle.Run(s, steps).value.handler, m, peers, diskOk) == SaveAll(m, peers, diskOk)
  {
    Lifecycle.ProperRunStopsExactly(s, steps, invoices);
    Lifecycle.StateEnds(s, steps);
  }

  /**
   * What the attempts of a restart are, peer by peer: a peer connected at shutdown and saved is
   * dialed at the last address saved for it, a peer only stored before at its old address.
   */
  lemma RestartDialsLastSaved(attempts: seq<Attempt>, m: PeerMap, peers: seq<PeerDetails>,
                              diskOk: seq<bool>, key: PublicKey, endpoint: Endpoint)
    requires |peers| == |diskOk| && AttemptsExactly(attempts, SaveAll(m, peers, diskOk))
    ensures Attempt(key, endpoint) in attempts
            <==> var address := LastSaved(peers, diskOk, key, AddressIn(m, key));
                 address == Some(AddressFor(endpoint))
  {
    SaveAllExact(m, peers, diskOk, key);
  }

  /** A peer listed once at shutdown and saved is dialed at the address it was connected at. */
  lemma ConnectedPeersAreDialed(attempts: seq<Attempt>, m: PeerMap, peers: seq<PeerDetails>,
                                diskOk: seq<bool>, i: nat, endpoint: Endpoint)
    requires |peers| == |diskOk| && AttemptsExactly(attempts, SaveAll(m, peers, diskOk))
    requires i < |peers| && diskOk[i] && peers[i].address == Some(AddressFor(endpoint))
    requires forall j :: i < j < |peers| ==> peers[j].nodeId != peers[i].nodeId
    ensures Attempt(peers[i].nodeId, endpoint) in attempts
  {
    LastOfUnique(peers, diskOk, i, AddressIn(m, peers[i].nodeId));
    RestartDialsLastSaved(attempts, m, peers, diskOk, peers[i].nodeId, endpoint);
  }

  lemma {:induction false} LastOfUnique(peers: seq<PeerDetails>, diskOk: seq<bool>, i: nat,
                                        was: Option<SocketAddress>)
    requires |peers| == |diskOk| && i < |peers| && diskOk[i] && peers[i].address.Some?
    requires forall j :: i < j < |peers| ==> peers[j].nodeId != peers[i].nodeId
    ensures LastSaved(peers, diskOk, peers[i].nodeId, was) == peers[i].address
  {
    if i < |peers| - 1 {
      LastOfUnique(peers[..|peers| - 1], diskOk[..|peers| - 1], i, was);
    }
  }
}
