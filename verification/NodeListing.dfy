/** The two listings of the node's store, in runs where any store operation may interleave. */
module NodeListing {
  import opened Wrappers
  import opened Bytes
  import opened KeyedFiles
  import opened Records
  import opened NodeFiles
  import opened Listing
  import PaymentCodec
  import PeerCodec

  function PaymentText(id: PaymentId): string {
    Hex(id)
  }

  function PeerText(key: PublicKey): string {
    Hex(key)
  }

  function PaymentKind(): Kind<PaymentId, Payment> {
    Kind(PAYMENTS, PaymentText, PaymentIdOf, PaymentCodec.EncodePayment, DecodePayment)
  }

  function PeerKind(): Kind<PublicKey, PeerInfo> {
    Kind(PEERS, PeerText, NodeIdOf, PeerCodec.EncodePeer, DecodePeer)
  }

  lemma PaymentKindLawful()
    ensures Lawful(PaymentKind())
  {
    var kind := PaymentKind();
    forall p ensures kind.dec(kind.enc(p)) == Some(p) {
      PaymentDecodes(p);
    }
    forall a: PaymentId, b: PaymentId | kind.text(a) == kind.text(b) ensures a == b {
      HexInjective(a, b);
    }
  }

  lemma PeerKindLawful()
    ensures Lawful(PeerKind())
  {
    var kind := PeerKind();
    forall p ensures kind.dec(kind.enc(p)) == Some(p) {
      PeerDecodes(p);
    }
    forall a: PublicKey, b: PublicKey | kind.text(a) == kind.text(b) ensures a == b {
      HexInjective(a, b);
    }
  }

  lemma PaymentsSound(c: Contents)
    requires Keyed(c)
    ensures Sound(PaymentKind(), FilesOf(c))
  {
    var kind, files := PaymentKind(), FilesOf(c);
    forall name | PAYMENTS.File(name) in files
      ensures exists v :: Filed(kind, name, files[PAYMENTS.File(name)], v)
    {
      var id := PaymentFileSource(c, name);
      assert Filed(kind, name, files[PAYMENTS.File(name)], c.payments[id]);
    }
  }

  lemma PeersSound(c: Contents)
    requires Keyed(c)
    ensures Sound(PeerKind(), FilesOf(c))
  {
    var kind, files := PeerKind(), FilesOf(c);
    forall name | PEERS.File(name) in files
      ensures exists v :: Filed(kind, name, files[PEERS.File(name)], v)
    {
      var key := PeerFileSource(c, name);
      assert Filed(kind, name, files[PEERS.File(name)], c.peers[key]);
    }
  }

  // ----- Runs of the node's store -----

  /** A store operation of another thread, in one lock hold. */
  ghost predicate Operate(s: ListingState, t: ListingState) {
    exists op :: t == s.(files := Apply(s.files, op))
  }

  ghost predicate NodeRun(space: Space, c: Contents, tr: seq<ListingState>) {
    && Keyed(c) && |tr| > 0 && tr[0].files == FilesOf(c)
    && NodeSteps(space, tr)
  }

  ghost predicate NodeSteps(space: Space, tr: seq<ListingState>) {
    forall i :: 0 <= i < |tr| - 1 ==> NodeMoves(space, tr, i)
  }

  ghost predicate NodeMoves(space: Space, tr: seq<ListingState>, i: nat)
    requires i + 1 < |tr|
  {
    Operate(tr[i], tr[i + 1]) || TakeNames(space, tr[i], tr[i + 1]) || ReadOne(space, tr[i], tr[i + 1])
  }

  ghost predicate NodeCall(space: Space, c: Contents, tr: seq<ListingState>, b: nat) {
    && NodeRun(space, c, tr)
    && b + 1 < |tr| && tr[b].lister.Idle? && tr[b + 1].lister.Walking?
    && tr[|tr| - 1].lister.Walking? && tr[|tr| - 1].lister.todo == []
  }

  lemma {:induction false} RunStandsFor(space: Space, c: Contents, tr: seq<ListingState>, i: nat)
    returns (d: Contents)
    requires NodeRun(space, c, tr) && i < |tr|
    ensures Keyed(d) && tr[i].files == FilesOf(d)
  {
    if i == 0 {
      return c;
    }
    d := RunStandsFor(space, c, tr, i - 1);
    d := MoveStandsFor(space, tr, i - 1, d);
  }

  lemma MoveStandsFor(space: Space, tr: seq<ListingState>, i: nat, c: Contents) returns (d: Contents)
    requires i + 1 < |tr| && NodeSteps(space, tr) && Keyed(c) && tr[i].files == FilesOf(c)
    ensures Keyed(d) && tr[i + 1].files == FilesOf(d)
  {
    MoveKeepsOrOperates(space, tr, i);
    if Operate(tr[i], tr[i + 1]) {
      d := OperationStandsFor(tr[i], tr[i + 1], c);
    } else {
      d := c;
    }
  }

  lemma MoveKeepsOrOperates(space: Space, tr: seq<ListingState>, i: nat)
    requires i + 1 < |tr| && NodeSteps(space, tr)
    ensures Operate(tr[i], tr[i + 1]) || tr[i + 1].files == tr[i].files
  {
    assert NodeMoves(space, tr, i);
  }

  lemma OperationStandsFor(s: ListingState, t: ListingState, c: Contents) returns (d: Contents)
    requires Operate(s, t) && Keyed(c) && s.files == FilesOf(c)
    ensures Keyed(d) && t.files == FilesOf(d)
  {
    var op :| t == s.(files := Apply(s.files, op));
    ApplyRefines(c, op);
    d := Act(c, op);
  }

  lemma NodeCallIsCall(space: Space, c: Contents, tr: seq<ListingState>, b: nat)
    requires NodeCall(space, c, tr, b)
    ensures IsCall(space, tr, b)
  {
    forall i | 0 <= i < |tr| - 1 ensures Moves(space, tr, i) {
      assert NodeMoves(space, tr, i);
      if Operate(tr[i], tr[i + 1]) {
        assert Elsewhere(tr[i], tr[i + 1]);
      }
    }
  }

  // ----- Payments -----

  /** At some moment of the call `get_payment` would have returned `p`. */
  ghost predicate Gettable(tr: seq<ListingState>, b: nat, p: Payment) {
    exists j :: b <= j < |tr| && LookupPayment(tr[j].files, p.paymentId) == Ok(p)
  }

  /** What a caller of `list_payments` can rely on. */
  ghost predicate GoodPayments(tr: seq<ListingState>, b: nat, ps: seq<Payment>) {
    && (forall i, j :: 0 <= i < j < |ps| ==> ps[i].paymentId != ps[j].paymentId)
    && (forall p :: p in ps ==> Gettable(tr, b, p))
    && (forall id :: PresentThroughout(tr, b, PaymentFile(id)) ==> Includes(ps, id))
  }

  ghost predicate Includes(ps: seq<Payment>, id: PaymentId) {
    exists p :: p in ps && p.paymentId == id
  }

  /** The listing theory's lookup is `get_payment`. */
  lemma LookupIsGet(files: Files, id: PaymentId)
    ensures Lookup(PaymentKind(), files, id) == LookupPayment(files, id)
  {
  }

  lemma StoredIsGettable(tr: seq<ListingState>, b: nat, p: Payment)
    requires StoredDuring(PaymentKind(), tr, b, p)
    ensures Gettable(tr, b, p)
  {
    var j :| b <= j < |tr| && Lookup(PaymentKind(), tr[j].files, PaymentKind().idOf(p)) == Ok(p);
    LookupIsGet(tr[j].files, p.paymentId);
  }

  lemma GoodIsGoodPayments(tr: seq<ListingState>, b: nat, ps: seq<Payment>)
    requires GoodListing(PaymentKind(), tr, b, ps)
    ensures GoodPayments(tr, b, ps)
  {
    var kind := PaymentKind();
    forall p | p in ps ensures Gettable(tr, b, p) {
      StoredIsGettable(tr, b, p);
    }
    forall id | PresentThroughout(tr, b, PaymentFile(id)) ensures Includes(ps, id) {
      assert kind.space.File(kind.text(id)) == PaymentFile(id);
      var p :| p in ps && kind.idOf(p) == id;
    }
    forall i, j | 0 <= i < j < |ps| ensures ps[i].paymentId != ps[j].paymentId {
      assert kind.idOf(ps[i]) != kind.idOf(ps[j]);
    }
  }

  /**
   * Whatever adds, updates and removals run between its lock holds, a listing of payments never
   * fails, returns no id twice, returns only payments that `get_payment` would have returned at
   * some moment of the call, and returns every id that was present throughout.
   */
  lemma ListPaymentsInterleaved(c: Contents, tr: seq<ListingState>, b: nat)
    requires NodeCall(PAYMENTS, c, tr, b)
    ensures var r := Collect(PaymentKind(), false, tr[|tr| - 1].lister.seen);
            r.Ok? && GoodPayments(tr, b, r.value)
  {
    var kind := PaymentKind();
    forall i | 0 <= i < |tr| ensures Sound(kind, tr[i].files) {
      var d := RunStandsFor(PAYMENTS, c, tr, i);
      PaymentsSound(d);
    }
    NodeCallIsCall(PAYMENTS, c, tr, b);
    PaymentKindLawful();
    ListingUnderInterference(kind, tr, b);
    GoodIsGoodPayments(tr, b, Collect(kind, false, tr[|tr| - 1].lister.seen).value);
  }

  // ----- Peers -----

  lemma PeersSoundThroughout(c: Contents, tr: seq<ListingState>)
    requires NodeRun(PEERS, c, tr)
    ensures forall i :: 0 <= i < |tr| ==> Sound(PeerKind(), tr[i].files)
  {
    forall i | 0 <= i < |tr| ensures Sound(PeerKind(), tr[i].files) {
      var d := RunStandsFor(PEERS, c, tr, i);
      PeersSound(d);
    }
  }

  /**
   * A listing of peers succeeds exactly when each file it reads is there when it is read: a peer
   * removed in between fails the whole call, where a listing of payments skips it. When it
   * succeeds it returns one record per listed file, each as stored at some moment of the call.
   */
  lemma ListPeersInterleaved(c: Contents, tr: seq<ListingState>, b: nat)
    requires NodeCall(PEERS, c, tr, b)
    ensures var r := Collect(PeerKind(), true, tr[|tr| - 1].lister.seen);
            && (r.Ok? <==> PresentWhenRead(PEERS, tr, b, |tr| - 1))
            && (r.Err? ==> r.error == NotFound)
            && (r.Ok? ==> |r.value| == |tr[b + 1].lister.todo|
                          && GoodListing(PeerKind(), tr, b, r.value))
  {
    PeersSoundThroughout(c, tr);
    NodeCallIsCall(PEERS, c, tr, b);
    PeerKindLawful();
    StrictUnderInterference(PeerKind(), tr, b);
  }

  /** The step is a `remove_peer` of a stored peer. */
  ghost predicate RemovesPeer(s: ListingState, t: ListingState, key: PublicKey) {
    PeerFile(key) in s.files && t == s.(files := Apply(s.files, DeletePeer(key)))
  }

  /** Nothing else makes a peer's file go away. */
  lemma OnlyRemovalRemoves(s: ListingState, t: ListingState, key: PublicKey)
    requires Operate(s, t) && PeerFile(key) in s.files && !RemovesPeer(s, t, key)
    ensures PeerFile(key) in t.files
  {
    var op :| t == s.(files := Apply(s.files, op));
    NamesDistinct();
    assert op.DeletePeer? ==> op.key != key;
  }

  /** No step of the call removes a peer that was stored at its start. */
  ghost predicate NoneRemoved(tr: seq<ListingState>, b: nat) {
    forall i, key :: b <= i < |tr| - 1 && PeerFile(key) in tr[b].files ==> !RemovedAt(tr, i, key)
  }

  ghost predicate RemovedAt(tr: seq<ListingState>, i: nat, key: PublicKey)
    requires i + 1 < |tr|
  {
    RemovesPeer(tr[i], tr[i + 1], key)
  }

  lemma {:induction false} PeerStays(c: Contents, tr: seq<ListingState>, b: nat, n: nat, key: PublicKey)
    requires NodeCall(PEERS, c, tr, b) && NoneRemoved(tr, b) && b <= n < |tr|
    requires PeerFile(key) in tr[b].files
    ensures PeerFile(key) in tr[n].files
  {
    if n > b {
      PeerStays(c, tr, b, n - 1, key);
      assert NodeMoves(PEERS, tr, n - 1) && !RemovedAt(tr, n - 1, key);
      if Operate(tr[n - 1], tr[n]) {
        OnlyRemovalRemoves(tr[n - 1], tr[n], key);
      }
    }
  }

  /**
   * While no stored peer is removed, listing peers succeeds, whatever else is added or written
   * beside it, and returns every peer that was stored when the call began.
   */
  lemma ListPeersUndisturbed(c: Contents, tr: seq<ListingState>, b: nat)
    requires NodeCall(PEERS, c, tr, b) && NoneRemoved(tr, b)
    ensures var r := Collect(PeerKind(), true, tr[|tr| - 1].lister.seen);
            && r.Ok? && GoodListing(PeerKind(), tr, b, r.value)
            && forall key :: PeerFile(key) in tr[b].files ==> exists p :: p in r.value && p.nodeId == key
  {
    var kind, names := PeerKind(), tr[b + 1].lister.todo;
    var r := Collect(kind, true, tr[|tr| - 1].lister.seen);
    forall key | PeerFile(key) in tr[b].files
      ensures PresentThroughout(tr, b, PeerFile(key))
    {
      forall j | b <= j < |tr| ensures PeerFile(key) in tr[j].files {
        PeerStays(c, tr, b, j, key);
      }
    }
    NoneMissed(c, tr, b);
    ListPeersInterleaved(c, tr, b);
    forall key | PeerFile(key) in tr[b].files ensures exists p :: p in r.value && p.nodeId == key {
      assert kind.space.File(kind.text(key)) == PeerFile(key);
      var p :| p in r.value && kind.idOf(p) == key;
    }
  }

  lemma NoneMissed(c: Contents, tr: seq<ListingState>, b: nat)
    requires NodeCall(PEERS, c, tr, b)
    requires forall key :: PeerFile(key) in tr[b].files ==> PresentThroughout(tr, b, PeerFile(key))
    ensures PresentWhenRead(PEERS, tr, b, |tr| - 1)
  {
    PeersSoundThroughout(c, tr);
    NodeCallIsCall(PEERS, c, tr, b);
    var d := RunStandsFor(PEERS, c, tr, b);
    forall name | PEERS.File(name) in tr[b].files
      ensures PresentThroughout(tr, b, PEERS.File(name))
    {
      var key := PeerFileSource(d, name);
      assert PEERS.File(name) == PeerFile(key);
    }
    PresentThroughoutRead(PeerKind(), tr, b);
  }

  lemma OnlyName(p: PeerInfo, name: string)
    ensures PEERS.File(name) in FilesOf(Contents(map[], map[p.nodeId := p]))
            <==> name == PeerText(p.nodeId)
  {
    var c := Contents(map[], map[p.nodeId := p]);
    if PEERS.File(name) in FilesOf(c) {
      var key := PeerFileSource(c, name);
    }
    PeerFileAt(c, p.nodeId);
  }

  /** A run in which removing the only peer after the names were taken fails the listing. */
  lemma ListPeersCanFail(p: PeerInfo) returns (c: Contents, tr: seq<ListingState>)
    ensures NodeCall(PEERS, c, tr, 0)
    ensures Collect(PeerKind(), true, tr[|tr| - 1].lister.seen) == Err(NotFound)
  {
    c := Contents(map[], map[p.nodeId := p]);
    var name, op := PeerText(p.nodeId), DeletePeer(p.nodeId);
    OnlyNames(p);
    RemovedIsGone(FilesOf(c), p.nodeId);
    tr := MissedFileRun(PeerKind(), FilesOf(c), Apply(FilesOf(c), op), name);
    OperateBy(tr[1], tr[2], op);
    FourStates(PEERS, tr);
  }

  lemma OnlyNames(p: PeerInfo)
    ensures forall n :: PEERS.File(n) in FilesOf(Contents(map[], map[p.nodeId := p]))
                        <==> n == PeerText(p.nodeId)
  {
    forall n ensures PEERS.File(n) in FilesOf(Contents(map[], map[p.nodeId := p]))
                     <==> n == PeerText(p.nodeId) {
      OnlyName(p, n);
    }
  }

  lemma RemovedIsGone(files: Files, key: PublicKey)
    ensures PEERS.File(PeerText(key)) !in Apply(files, DeletePeer(key))
  {
  }

  lemma OperateBy(s: ListingState, t: ListingState, op: Op)
    requires t == s.(files := Apply(s.files, op))
    ensures Operate(s, t)
  {
  }

  lemma FourStates(space: Space, tr: seq<ListingState>)
    requires |tr| == 4
    requires TakeNames(space, tr[0], tr[1]) && Operate(tr[1], tr[2]) && ReadOne(space, tr[2], tr[3])
    ensures NodeSteps(space, tr)
  {
    forall i | 0 <= i < 3 ensures NodeMoves(space, tr, i) {
      assert i == 0 || i == 1 || i == 2;
    }
  }

  /** Take one name, lose its file, read it. */
  lemma MissedFileRun<K(!new), V(!new)>(kind: Kind<K, V>, f0: Files, f1: Files, name: string)
    returns (tr: seq<ListingState>)
    requires forall n :: kind.space.File(n) in f0 <==> n == name
    requires kind.space.File(name) !in f1
    ensures |tr| == 4 && tr[0] == ListingState(f0, Idle) && tr[1].files == f0 && tr[2] == tr[1].(files := f1)
    ensures TakeNames(kind.space, tr[0], tr[1]) && ReadOne(kind.space, tr[2], tr[3])
    ensures tr[3].lister.Walking? && tr[3].lister.todo == []
    ensures Collect(kind, true, tr[3].lister.seen) == Err(NotFound)
  {
    var s1, s2 := ListingState(f0, Walking([name], [])), ListingState(f1, Walking([name], []));
    var gone := Observation(name, None);
    assert [name][1..] == [] && [] + [gone] == [gone];
    tr := [ListingState(f0, Idle), s1, s2, ListingState(f1, Walking([], [gone]))];
  }
}
