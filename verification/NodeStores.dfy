/**
 * The node's durable store of payments and peers. The files are the state; the ghost `contents`
 * are the two maps they stand for.
 */
module NodeStores {
  import opened Wrappers
  import opened Bytes
  import opened KeyedFiles
  import opened Records
  import opened NodeFiles
  import opened Listing
  import opened NodeListing
  import opened StatusLists
  import opened Streams
  import PaymentCodec
  import PeerCodec

  // ----- A listing with nothing running beside it -----

  function ReadAll(files: Files, space: Space, names: seq<string>): (obs: seq<Observation>)
    ensures |obs| == |names|
  {
    seq(|names|, i requires 0 <= i < |names| => Observation(names[i], Stored(files, space, names[i])))
  }

  /** `m` is what the files of the space hold. */
  ghost predicate Mirrors<K(!new), V(!new)>(kind: Kind<K, V>, files: Files, m: map<K, V>) {
    && (forall name, v :: Found(kind, Observation(name, Stored(files, kind.space, name)), v)
          ==> kind.idOf(v) in m && m[kind.idOf(v)] == v)
    && (forall k :: k in m ==> kind.idOf(m[k]) == k)
    && (forall k :: k in m ==> Stored(files, kind.space, kind.text(k)) == Some(kind.enc(m[k])))
  }

  lemma QuietReads<K(!new), V(!new)>(kind: Kind<K, V>, files: Files, names: seq<string>)
    requires Sound(kind, files) && Enumerates(names, files, kind.space)
    ensures AllFaithful(kind, ReadAll(files, kind.space, names))
    ensures forall o :: o in ReadAll(files, kind.space, names) ==> o.data.Some?
  {
    var obs := ReadAll(files, kind.space, names);
    forall k | 0 <= k < |obs| ensures Faithful(kind, obs[k]) && obs[k].data.Some? {
      assert names[k] in names;
    }
  }

  lemma QuietListing<K(!new), V(!new)>(
      kind: Kind<K, V>, strict: bool, files: Files, names: seq<string>, m: map<K, V>)
    requires Lawful(kind) && Sound(kind, files) && Enumerates(names, files, kind.space)
    requires Mirrors(kind, files, m)
    ensures var r := Collect(kind, strict, ReadAll(files, kind.space, names));
            r.Ok? && ListsAll(r.value, m, kind.idOf)
  {
    var obs := ReadAll(files, kind.space, names);
    QuietReads(kind, files, names);
    CollectHarvest(kind, obs);
    CollectStrict(kind, obs);
    assert forall k :: 0 <= k < |obs| ==> obs[k] in obs;
    var vs := Collect(kind, false, obs).value;
    forall v | v in vs ensures kind.idOf(v) in m && m[kind.idOf(v)] == v {
      assert FoundIn(kind, obs, v);
    }
    forall k | k in m ensures m[k] in vs && kind.idOf(m[k]) == k {
      var name := kind.text(k);
      assert name in names;
      var i :| 0 <= i < |names| && names[i] == name;
      assert Found(kind, obs[i], m[k]);
      assert FoundIn(kind, obs, m[k]);
    }
  }

  lemma PaymentFoundIsHeld(c: Contents, name: string, bytes: seq<Byte>, p: Payment)
    requires Keyed(c) && Stored(FilesOf(c), PAYMENTS, name) == Some(bytes)
    requires Filed(PaymentKind(), name, bytes, p)
    ensures p.paymentId in c.payments && c.payments[p.paymentId] == p
  {
    var id := PaymentFileSource(c, name);
    PaymentDecodes(p);
    PaymentDecodes(c.payments[id]);
  }

  lemma PaymentsHeld(c: Contents)
    requires Keyed(c)
    ensures Mirrors(PaymentKind(), FilesOf(c), c.payments)
  {
    var kind, files := PaymentKind(), FilesOf(c);
    forall name, p | Found(kind, Observation(name, Stored(files, kind.space, name)), p)
      ensures kind.idOf(p) in c.payments && c.payments[kind.idOf(p)] == p
    {
      PaymentFoundIsHeld(c, name, Stored(files, kind.space, name).value, p);
    }
    forall id | id in c.payments
      ensures Stored(files, kind.space, kind.text(id)) == Some(kind.enc(c.payments[id]))
    {
      PaymentFileAt(c, id);
    }
  }

  lemma PeerFoundIsHeld(c: Contents, name: string, bytes: seq<Byte>, p: PeerInfo)
    requires Keyed(c) && Stored(FilesOf(c), PEERS, name) == Some(bytes)
    requires Filed(PeerKind(), name, bytes, p)
    ensures p.nodeId in c.peers && c.peers[p.nodeId] == p
  {
    var key := PeerFileSource(c, name);
    PeerDecodes(p);
    PeerDecodes(c.peers[key]);
  }

  lemma PeersHeld(c: Contents)
    requires Keyed(c)
    ensures Mirrors(PeerKind(), FilesOf(c), c.peers)
  {
    var kind, files := PeerKind(), FilesOf(c);
    forall name, p | Found(kind, Observation(name, Stored(files, kind.space, name)), p)
      ensures kind.idOf(p) in c.peers && c.peers[kind.idOf(p)] == p
    {
      PeerFoundIsHeld(c, name, Stored(files, kind.space, name).value, p);
    }
    forall key | key in c.peers
      ensures Stored(files, kind.space, kind.text(key)) == Some(kind.enc(c.peers[key]))
    {
      PeerFileAt(c, key);
    }
  }

  /** Records gathered so far, joined with what the rest of the loop will make. */
  ghost function JoinList<V>(done: seq<V>, rest: Result<seq<V>, IoError>): Result<seq<V>, IoError> {
    match rest
    case Err(e) => Err(e)
    case Ok(vs) => Ok(done + vs)
  }

  lemma JoinNothing<V>(r: Result<seq<V>, IoError>)
    ensures JoinList([], r) == r
  {
    if r.Ok? {
      assert [] + r.value == r.value;
    }
  }

  lemma JoinDone<K, V>(kind: Kind<K, V>, strict: bool, obs: seq<Observation>, done: seq<V>)
    ensures JoinList(done, Collect(kind, strict, obs[|obs|..])) == Ok(done)
  {
    assert obs[|obs|..] == [] && done + [] == done;
  }

  lemma CollectStep<K, V>(kind: Kind<K, V>, strict: bool, obs: seq<Observation>, i: nat, done: seq<V>)
    requires i < |obs|
    ensures var all := JoinList(done, Collect(kind, strict, obs[i..]));
            match obs[i].data
            case None => all == if strict then Err(NotFound)
                                else JoinList(done, Collect(kind, strict, obs[i + 1..]))
            case Some(bytes) =>
              match kind.dec(bytes)
              case None => all == Err(InvalidData)
              case Some(v) => all == JoinList(done + [v], Collect(kind, strict, obs[i + 1..]))
  {
    assert obs[i..][0] == obs[i] && obs[i..][1..] == obs[i + 1..];
    var rest := Collect(kind, strict, obs[i + 1..]);
    if obs[i].data.Some? && kind.dec(obs[i].data.value).Some? && rest.Ok? {
      var v := kind.dec(obs[i].data.value).value;
      assert done + ([v] + rest.value) == done + [v] + rest.value;
    }
  }

  /** A listing filtered by status; its error is passed on. */
  function Filtered(listed: Result<seq<Payment>, IoError>, status: PaymentStatus): Result<seq<Payment>, IoError> {
    match listed
    case Err(e) => Err(e)
    case Ok(all) => Ok(OfStatus(all, status))
  }

  // ----- Decoding a file's bytes with a fresh cursor -----

  method DecodePaymentBytes(bytes: seq<Byte>) returns (p: Option<Payment>)
    ensures p == DecodePayment(bytes)
  {
    var reader := new Reader(bytes);
    p := ReadPayment(reader);
  }

  method DecodePeerBytes(bytes: seq<Byte>) returns (p: Option<PeerInfo>)
    ensures p == DecodePeer(bytes)
  {
    var reader := new Reader(bytes);
    p := ReadPeer(reader);
  }

  method EncodePaymentBytes(p: Payment) returns (bytes: seq<Byte>)
    ensures bytes == PaymentCodec.EncodePayment(p)
  {
    var w := new Writer();
    WritePayment(w, p);
    bytes := w.bytes;
  }

  method EncodePeerBytes(p: PeerInfo) returns (bytes: seq<Byte>)
    ensures bytes == PeerCodec.EncodePeer(p)
  {
    var w := new Writer();
    WritePeer(w, p);
    bytes := w.bytes;
  }

  class NodeStore {
    var files: Files
    ghost var contents: Contents

    ghost predicate Valid()
      reads this
    {
      Keyed(contents) && files == FilesOf(contents)
    }

    /** Opens a directory that stands for `c`. */
    constructor (files: Files, ghost c: Contents)
      requires Keyed(c) && files == FilesOf(c)
      ensures Valid() && contents == c && this.files == files
    {
      this.files := files;
      this.contents := c;
    }

    /** The key-value store's list: the names in a space, each once, in no particular order. */
    method ListNames(space: Space) returns (names: seq<string>)
      ensures Enumerates(names, files, space)
    {
      names := [];
      var todo := set k | k in files && k.primary == space.primary && k.secondary == space.secondary;
      while todo != {}
        invariant forall i, j :: 0 <= i < j < |names| ==> names[i] != names[j]
        invariant forall name :: name in names <==> space.File(name) in files && space.File(name) !in todo
        invariant forall k :: k in todo ==> k in files && k == space.File(k.name)
        decreases |todo|
      {
        var k :| k in todo;
        names := names + [k.name];
        todo := todo - {k};
      }
    }

    /** Installs the directory that `op` leaves behind. */
    method Commit(ghost op: Op, after: Files)
      requires Valid() && after == Apply(files, op)
      modifies this
      ensures Valid() && files == after && contents == Act(old(contents), op)
    {
      ApplyRefines(contents, op);
      files := after;
      contents := Act(contents, op);
    }

    method AddPayment(p: Payment, diskOk: bool) returns (r: Result<(), IoError>)
      requires Valid()
      modifies this
      ensures Valid()
      ensures r == if diskOk then Ok(()) else Err(WriteFailed)
      ensures contents == if diskOk then old(contents).(payments := old(contents).payments[p.paymentId := p])
                          else old(contents)
      ensures files == if diskOk then old(files)[FileKey("payments", "", Hex(p.paymentId)) :=
                                                   PaymentCodec.EncodePayment(p)]
                       else old(files)
    {
      var key := Hex(p.paymentId);
      var serialized := EncodePaymentBytes(p);
      if !diskOk {
        return Err(WriteFailed);
      }
      Commit(PutPayment(p), files[PAYMENTS.File(key) := serialized]);
      r := Ok(());
    }

    method UpdatePayment(p: Payment, diskOk: bool) returns (r: Result<(), IoError>)
      requires Valid()
      modifies this
      ensures Valid()
      ensures r == if diskOk then Ok(()) else Err(WriteFailed)
      ensures contents == if diskOk then old(contents).(payments := old(contents).payments[p.paymentId := p])
                          else old(contents)
      ensures files == if diskOk then old(files)[FileKey("payments", "", Hex(p.paymentId)) :=
                                                   PaymentCodec.EncodePayment(p)]
                       else old(files)
    {
      r := AddPayment(p, diskOk);
    }

    /** Reads any directory; in one that stands for two maps it looks the payment up. */
    method GetPayment(id: PaymentId) returns (r: Result<Payment, IoError>)
      ensures !Valid() ==> r == LookupPayment(files, id)
      ensures Valid() ==> r == if id in contents.payments then Ok(contents.payments[id]) else Err(NotFound)
    {
      if Valid() {
        LookupRefines(contents, id);
      }
      var key := Hex(id);
      if PAYMENTS.File(key) !in files {
        return Err(NotFound);
      }
      var p := DecodePaymentBytes(files[PAYMENTS.File(key)]);
      match p
      case None => r := Err(InvalidData);
      case Some(payment) => r := Ok(payment);
    }

    /** Every stored payment once. A file that cannot be decoded fails the whole listing. */
    method ListPayments() returns (r: Result<seq<Payment>, IoError>)
      ensures exists names :: Enumerates(names, files, PAYMENTS)
                              && r == Collect(PaymentKind(), false, ReadAll(files, PAYMENTS, names))
      ensures Valid() ==> r.Ok? && ListsAll(r.value, contents.payments, PaymentIdOf)
    {
      var names := ListNames(PAYMENTS);
      r := ReadPaymentsNamed(names);
      if Valid() {
        QuietPayments(names);
      }
    }

    /** The loop of `list_payments`: a file that is gone is skipped. */
    method ReadPaymentsNamed(names: seq<string>) returns (r: Result<seq<Payment>, IoError>)
      ensures r == Collect(PaymentKind(), false, ReadAll(files, PAYMENTS, names))
    {
      ghost var kind, obs := PaymentKind(), ReadAll(files, PAYMENTS, names);
      var payments: seq<Payment> := [];
      assert obs[0..] == obs;
      JoinNothing(Collect(kind, false, obs));
      for i := 0 to |names|
        invariant Collect(kind, false, obs) == JoinList(payments, Collect(kind, false, obs[i..]))
      {
        CollectStep(kind, false, obs, i, payments);
        if PAYMENTS.File(names[i]) in files {
          var p := DecodePaymentBytes(files[PAYMENTS.File(names[i])]);
          if p.None? {
            return Err(InvalidData);
          }
          payments := payments + [p.value];
        }
      }
      JoinDone(kind, false, obs, payments);
      r := Ok(payments);
    }

    lemma QuietPayments(names: seq<string>)
      requires Valid() && Enumerates(names, files, PAYMENTS)
      ensures var r := Collect(PaymentKind(), false, ReadAll(files, PAYMENTS, names));
              r.Ok? && ListsAll(r.value, contents.payments, PaymentIdOf)
    {
      PaymentKindLawful();
      PaymentsSound(contents);
      PaymentsHeld(contents);
      QuietListing(PaymentKind(), false, files, names, contents.payments);
    }

    method RemovePayment(id: PaymentId, diskOk: bool) returns (r: Result<(), IoError>)
      requires Valid()
      modifies this
      ensures Valid()
      ensures r == if diskOk then Ok(()) else Err(WriteFailed)
      ensures contents == if diskOk then old(contents).(payments := old(contents).payments - {id})
                          else old(contents)
      ensures files == if diskOk then old(files) - {FileKey("payments", "", Hex(id))} else old(files)
    {
      if !diskOk {
        return Err(WriteFailed);
      }
      Commit(DeletePayment(id), files - {PAYMENTS.File(Hex(id))});
      r := Ok(());
    }

    /** The stored payments with the given status, filtered from one listing of them all. */
    method ListPaymentsByStatus(status: PaymentStatus) returns (r: Result<seq<Payment>, IoError>)
      ensures exists names :: Enumerates(names, files, PAYMENTS)
                && r == Filtered(Collect(PaymentKind(), false, ReadAll(files, PAYMENTS, names)), status)
      ensures Valid() ==> r.Ok? && ListsAll(r.value, WithStatus(contents.payments, status), PaymentIdOf)
      ensures Valid() ==> exists all :: ListsAll(all, contents.payments, PaymentIdOf)
                                        && r == Ok(OfStatus(all, status))
    {
      var all := ListPayments();
      match all
      case Err(e) => r := Err(e);
      case Ok(payments) =>
        r := Ok(OfStatus(payments, status));
        if Valid() {
          OfStatusLists(payments, contents.payments, status);
        }
    }

    method AddPeer(p: PeerInfo, diskOk: bool) returns (r: Result<(), IoError>)
      requires Valid()
      modifies this
      ensures Valid()
      ensures r == if diskOk then Ok(()) else Err(WriteFailed)
      ensures contents == if diskOk then old(contents).(peers := old(contents).peers[p.nodeId := p])
                          else old(contents)
      ensures files == if diskOk then old(files)[FileKey("peers", "", Hex(p.nodeId)) := PeerCodec.EncodePeer(p)]
                       else old(files)
    {
      var key := Hex(p.nodeId);
      var serialized := EncodePeerBytes(p);
      if !diskOk {
        return Err(WriteFailed);
      }
      Commit(PutPeer(p), files[PEERS.File(key) := serialized]);
      r := Ok(());
    }

    method RemovePeer(key: PublicKey, diskOk: bool) returns (r: Result<(), IoError>)
      requires Valid()
      modifies this
      ensures Valid()
      ensures r == if diskOk then Ok(()) else Err(WriteFailed)
      ensures contents == if diskOk then old(contents).(peers := old(contents).peers - {key})
                          else old(contents)
      ensures files == if diskOk then old(files) - {FileKey("peers", "", Hex(key))} else old(files)
    {
      if !diskOk {
        return Err(WriteFailed);
      }
      Commit(DeletePeer(key), files - {PEERS.File(Hex(key))});
      r := Ok(());
    }

    /** Every stored peer once; with nothing running beside it only a damaged file fails it. */
    method ListPeers() returns (r: Result<seq<PeerInfo>, IoError>)
      ensures exists names :: Enumerates(names, files, PEERS)
                              && r == Collect(PeerKind(), true, ReadAll(files, PEERS, names))
      ensures Valid() ==> r.Ok? && ListsAll(r.value, contents.peers, NodeIdOf)
    {
      var names := ListNames(PEERS);
      r := ReadPeersNamed(names);
      if Valid() {
        QuietPeers(names);
      }
    }

    /** The loop of `list_peers`: a file that is gone ends it with an error. */
    method ReadPeersNamed(names: seq<string>) returns (r: Result<seq<PeerInfo>, IoError>)
      ensures r == Collect(PeerKind(), true, ReadAll(files, PEERS, names))
    {
      ghost var kind, obs := PeerKind(), ReadAll(files, PEERS, names);
      var peers: seq<PeerInfo> := [];
      assert obs[0..] == obs;
      JoinNothing(Collect(kind, true, obs));
      for i := 0 to |names|
        invariant Collect(kind, true, obs) == JoinList(peers, Collect(kind, true, obs[i..]))
      {
        CollectStep(kind, true, obs, i, peers);
        if PEERS.File(names[i]) !in files {
          return Err(NotFound);
        }
        var p := DecodePeerBytes(files[PEERS.File(names[i])]);
        if p.None? {
          return Err(InvalidData);
        }
        peers := peers + [p.value];
      }
      JoinDone(kind, true, obs, peers);
      r := Ok(peers);
    }

    lemma QuietPeers(names: seq<string>)
      requires Valid() && Enumerates(names, files, PEERS)
      ensures var r := Collect(PeerKind(), true, ReadAll(files, PEERS, names));
              r.Ok? && ListsAll(r.value, contents.peers, NodeIdOf)
    {
      PeerKindLawful();
      PeersSound(contents);
      PeersHeld(contents);
      QuietListing(PeerKind(), true, files, names, contents.peers);
    }
  }
}
