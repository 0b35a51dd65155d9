/**
 * The directory of record files behind the node's store, and the two maps it stands for. File
 * operations follow the contract of a key-value store: writes are atomic, a read returns the last
 * write, removing an absent file changes nothing.
 */
module NodeFiles {
  import opened Wrappers
  import opened Bytes
  import opened BigSize
  import opened KeyedFiles
  import opened Records
  import PaymentCodec
  import PeerCodec

  datatype IoError = NotFound | InvalidData | WriteFailed

  /** Where one kind of record is kept: a primary and a secondary namespace. */
  datatype Space = Space(primary: string, secondary: string) {
    function File(name: string): FileKey {
      FileKey(primary, secondary, name)
    }
  }

  const PAYMENTS := Space("payments", "")
  const PEERS := Space("peers", "")

  function PaymentFile(id: PaymentId): FileKey {
    PAYMENTS.File(Hex(id))
  }

  function PeerFile(key: PublicKey): FileKey {
    PEERS.File(Hex(key))
  }

  // ----- Abstract contents -----

  /** What the files stand for: payments by id and peers by key. */
  datatype Contents = Contents(payments: map<PaymentId, Payment>, peers: map<PublicKey, PeerInfo>)

  /** Every record is filed under its own id. */
  ghost predicate Keyed(c: Contents) {
    && FiledById(c.payments)
    && (forall key :: key in c.peers ==> c.peers[key].nodeId == key)
  }

  lemma NamesDistinct()
    ensures Injective(PaymentFile) && Injective(PeerFile)
    ensures Apart(PaymentFile, PeerFile) && Apart(PeerFile, PaymentFile)
  {
    forall a: PaymentId, b: PaymentId | PaymentFile(a) == PaymentFile(b) ensures a == b {
      HexInjective(a, b);
    }
    forall a: PublicKey, b: PublicKey | PeerFile(a) == PeerFile(b) ensures a == b {
      HexInjective(a, b);
    }
  }

  /** The one directory that stands for `c`. */
  ghost function FilesOf(c: Contents): Files {
    NamesDistinct();
    Union(c.payments, PaymentFile, PaymentCodec.EncodePayment,
          c.peers, PeerFile, PeerCodec.EncodePeer)
  }

  /** It does not matter which kind of record is laid out first. */
  lemma PeersFirst(c: Contents)
    ensures Injective(PaymentFile) && Injective(PeerFile)
    ensures Apart(PaymentFile, PeerFile) && Apart(PeerFile, PaymentFile)
    ensures FilesOf(c) == Union(c.peers, PeerFile, PeerCodec.EncodePeer,
                                c.payments, PaymentFile, PaymentCodec.EncodePayment)
  {
    NamesDistinct();
    UnionCommutes(c.payments, PaymentFile, PaymentCodec.EncodePayment,
                  c.peers, PeerFile, PeerCodec.EncodePeer);
  }

  // ----- Operations, on files and on contents -----

  datatype Op =
    | PutPayment(payment: Payment)
    | DeletePayment(id: PaymentId)
    | PutPeer(peer: PeerInfo)
    | DeletePeer(key: PublicKey)

  predicate IsPaymentOp(op: Op) {
    op.PutPayment? || op.DeletePayment?
  }

  function Apply(files: Files, op: Op): Files {
    match op
    case PutPayment(p) => files[PaymentFile(p.paymentId) := PaymentCodec.EncodePayment(p)]
    case DeletePayment(id) => files - {PaymentFile(id)}
    case PutPeer(p) => files[PeerFile(p.nodeId) := PeerCodec.EncodePeer(p)]
    case DeletePeer(key) => files - {PeerFile(key)}
  }

  ghost function Act(c: Contents, op: Op): Contents {
    match op
    case PutPayment(p) => c.(payments := c.payments[p.paymentId := p])
    case DeletePayment(id) => c.(payments := c.payments - {id})
    case PutPeer(p) => c.(peers := c.peers[p.nodeId := p])
    case DeletePeer(key) => c.(peers := c.peers - {key})
  }

  /** Trailing bytes after the record are not looked at. */
  function DecodePayment(bytes: seq<Byte>): Option<Payment> {
    match PaymentCodec.ReadPayment(bytes)
    case Malformed => None
    case Parsed(p, _) => Some(p)
  }

  function DecodePeer(bytes: seq<Byte>): Option<PeerInfo> {
    match PeerCodec.ReadPeer(bytes)
    case Malformed => None
    case Parsed(p, _) => Some(p)
  }

  function LookupPayment(files: Files, id: PaymentId): Result<Payment, IoError> {
    var k := PaymentFile(id);
    if k !in files then Err(NotFound)
    else
      match DecodePayment(files[k])
      case None => Err(InvalidData)
      case Some(p) => Ok(p)
  }

  // ----- Refinement -----

  lemma PaymentDecodes(p: Payment)
    ensures DecodePayment(PaymentCodec.EncodePayment(p)) == Some(p)
  {
    PaymentCodec.PaymentRoundTrip(p, []);
    assert PaymentCodec.EncodePayment(p) + [] == PaymentCodec.EncodePayment(p);
  }

  lemma PeerDecodes(p: PeerInfo)
    ensures DecodePeer(PeerCodec.EncodePeer(p)) == Some(p)
  {
    PeerCodec.PeerRoundTrip(p, []);
    assert PeerCodec.EncodePeer(p) + [] == PeerCodec.EncodePeer(p);
  }

  /** Which bytes a payment is decoded from, whoever wrote them. */
  lemma DecodePaymentExact(bytes: seq<Byte>, p: Payment)
    ensures DecodePayment(bytes) == Some(p) <==> PaymentCodec.BeginsWithForm(bytes, p)
  {
    PaymentCodec.ReadsForms(bytes, p);
  }

  lemma DecodePeerExact(bytes: seq<Byte>, p: PeerInfo)
    ensures DecodePeer(bytes) == Some(p) <==> PeerCodec.BeginsWithForm(bytes, p)
  {
    PeerCodec.ReadsForms(bytes, p);
  }

  /** What `get_payment` makes of any directory, damaged or not. */
  lemma LookupExact(files: Files, id: PaymentId)
    ensures var r := LookupPayment(files, id);
            && (r == Err(NotFound) <==> PaymentFile(id) !in files)
            && (r == Err(InvalidData) <==>
                  PaymentFile(id) in files && forall p :: !PaymentCodec.BeginsWithForm(files[PaymentFile(id)], p))
            && (forall p :: r == Ok(p) <==>
                  PaymentFile(id) in files && PaymentCodec.BeginsWithForm(files[PaymentFile(id)], p))
  {
    if PaymentFile(id) in files {
      forall p ensures DecodePayment(files[PaymentFile(id)]) == Some(p)
                       <==> PaymentCodec.BeginsWithForm(files[PaymentFile(id)], p) {
        DecodePaymentExact(files[PaymentFile(id)], p);
      }
    }
  }

  lemma PaymentFileAt(c: Contents, id: PaymentId)
    ensures PaymentFile(id) in FilesOf(c) <==> id in c.payments
    ensures id in c.payments
            ==> FilesOf(c)[PaymentFile(id)] == PaymentCodec.EncodePayment(c.payments[id])
  {
    NamesDistinct();
    UnionAt(c.payments, PaymentFile, PaymentCodec.EncodePayment,
            c.peers, PeerFile, PeerCodec.EncodePeer, id);
  }

  lemma PeerFileAt(c: Contents, key: PublicKey)
    ensures PeerFile(key) in FilesOf(c) <==> key in c.peers
    ensures key in c.peers ==> FilesOf(c)[PeerFile(key)] == PeerCodec.EncodePeer(c.peers[key])
  {
    PeersFirst(c);
    UnionAt(c.peers, PeerFile, PeerCodec.EncodePeer,
            c.payments, PaymentFile, PaymentCodec.EncodePayment, key);
  }

  /** Every file is the record of the id or key that its name spells. */
  lemma FilesCover(c: Contents, k: FileKey)
    requires k in FilesOf(c)
    ensures (exists id :: id in c.payments && k == PaymentFile(id))
            || (exists key :: key in c.peers && k == PeerFile(key))
  {
    NamesDistinct();
  }

  lemma PaymentFileSource(c: Contents, name: string) returns (id: PaymentId)
    requires PAYMENTS.File(name) in FilesOf(c)
    ensures id in c.payments && name == Hex(id)
    ensures FilesOf(c)[PAYMENTS.File(name)] == PaymentCodec.EncodePayment(c.payments[id])
  {
    FilesCover(c, PAYMENTS.File(name));
    id :| id in c.payments && PAYMENTS.File(name) == PaymentFile(id);
    PaymentFileAt(c, id);
  }

  lemma PeerFileSource(c: Contents, name: string) returns (key: PublicKey)
    requires PEERS.File(name) in FilesOf(c)
    ensures key in c.peers && name == Hex(key)
    ensures FilesOf(c)[PEERS.File(name)] == PeerCodec.EncodePeer(c.peers[key])
  {
    FilesCover(c, PEERS.File(name));
    key :| key in c.peers && PEERS.File(name) == PeerFile(key);
    PeerFileAt(c, key);
  }

  lemma PaymentOpRefines(c: Contents, op: Op)
    requires IsPaymentOp(op)
    ensures Apply(FilesOf(c), op) == FilesOf(Act(c, op))
  {
    NamesDistinct();
    match op
    case PutPayment(p) =>
      UnionPut(c.payments, PaymentFile, PaymentCodec.EncodePayment,
               c.peers, PeerFile, PeerCodec.EncodePeer, p.paymentId, p);
    case DeletePayment(id) =>
      UnionDelete(c.payments, PaymentFile, PaymentCodec.EncodePayment,
                  c.peers, PeerFile, PeerCodec.EncodePeer, id);
  }

  lemma PeerOpRefines(c: Contents, op: Op)
    requires !IsPaymentOp(op)
    ensures Apply(FilesOf(c), op) == FilesOf(Act(c, op))
  {
    PeersFirst(c);
    PeersFirst(Act(c, op));
    match op
    case PutPeer(p) =>
      UnionPut(c.peers, PeerFile, PeerCodec.EncodePeer,
               c.payments, PaymentFile, PaymentCodec.EncodePayment, p.nodeId, p);
    case DeletePeer(key) =>
      UnionDelete(c.peers, PeerFile, PeerCodec.EncodePeer,
                  c.payments, PaymentFile, PaymentCodec.EncodePayment, key);
  }

  lemma ActKeepsKeyed(c: Contents, op: Op)
    requires Keyed(c)
    ensures Keyed(Act(c, op))
  {
  }

  /** One operation on the files is one map operation on the contents. */
  lemma ApplyRefines(c: Contents, op: Op)
    requires Keyed(c)
    ensures Apply(FilesOf(c), op) == FilesOf(Act(c, op))
    ensures Keyed(Act(c, op))
  {
    ActKeepsKeyed(c, op);
    if IsPaymentOp(op) {
      PaymentOpRefines(c, op);
    } else {
      PeerOpRefines(c, op);
    }
  }

  function ApplyAll(files: Files, ops: seq<Op>): Files
    decreases |ops|
  {
    if ops == [] then files else ApplyAll(Apply(files, ops[0]), ops[1..])
  }

  ghost function ActAll(c: Contents, ops: seq<Op>): Contents
    decreases |ops|
  {
    if ops == [] then c else ActAll(Act(c, ops[0]), ops[1..])
  }

  /** Any sequence of operations keeps the files standing for the two maps. */
  lemma {:induction false} RunRefines(c: Contents, ops: seq<Op>)
    requires Keyed(c)
    ensures ApplyAll(FilesOf(c), ops) == FilesOf(ActAll(c, ops))
    ensures Keyed(ActAll(c, ops))
    decreases |ops|
  {
    if ops != [] {
      ApplyRefines(c, ops[0]);
      RunRefines(Act(c, ops[0]), ops[1..]);
    }
  }

  /** Reading the files is looking up the maps; decoding never fails. */
  lemma LookupRefines(c: Contents, id: PaymentId)
    ensures LookupPayment(FilesOf(c), id)
            == if id in c.payments then Ok(c.payments[id]) else Err(NotFound)
  {
    PaymentFileAt(c, id);
    if id in c.payments {
      PaymentDecodes(c.payments[id]);
    }
  }

  /** The operations of one kind, in order. */
  function OpsOfKind(ops: seq<Op>, payments: bool): seq<Op> {
    if ops == [] then []
    else if IsPaymentOp(ops[0]) == payments then [ops[0]] + OpsOfKind(ops[1..], payments)
    else OpsOfKind(ops[1..], payments)
  }

  /** The bytes of the file of that name, if there is one. */
  function Stored(files: Files, space: Space, name: string): Option<seq<Byte>> {
    if space.File(name) in files then Some(files[space.File(name)]) else None
  }

  /** The two directories hold the same files in the space. */
  ghost predicate AgreeOn(space: Space, a: Files, b: Files) {
    forall name :: Stored(a, space, name) == Stored(b, space, name)
  }

  function SpaceOf(payments: bool): Space {
    if payments then PAYMENTS else PEERS
  }

  /** What one operation does to a file: it replaces its own, and leaves every other alone. */
  lemma OpAt(files: Files, op: Op, space: Space, name: string)
    ensures Stored(Apply(files, op), space, name)
            == match op
               case PutPayment(p) =>
                 if space.File(name) == PaymentFile(p.paymentId) then Some(PaymentCodec.EncodePayment(p))
                 else Stored(files, space, name)
               case DeletePayment(id) =>
                 if space.File(name) == PaymentFile(id) then None else Stored(files, space, name)
               case PutPeer(p) =>
                 if space.File(name) == PeerFile(p.nodeId) then Some(PeerCodec.EncodePeer(p))
                 else Stored(files, space, name)
               case DeletePeer(key) =>
                 if space.File(name) == PeerFile(key) then None else Stored(files, space, name)
  {
  }

  lemma OpKeepsAgreement(a: Files, b: Files, op: Op, space: Space)
    requires AgreeOn(space, a, b)
    ensures AgreeOn(space, Apply(a, op), Apply(b, op))
  {
    forall name ensures Stored(Apply(a, op), space, name) == Stored(Apply(b, op), space, name) {
      OpAt(a, op, space, name);
      OpAt(b, op, space, name);
      assert Stored(a, space, name) == Stored(b, space, name);
    }
  }

  /** An operation of the other kind leaves the files of a space alone. */
  lemma OtherKindLeavesSpace(files: Files, op: Op, payments: bool)
    requires IsPaymentOp(op) != payments
    ensures AgreeOn(SpaceOf(payments), Apply(files, op), files)
  {
    forall name ensures Stored(Apply(files, op), SpaceOf(payments), name) == Stored(files, SpaceOf(payments), name) {
      OpAt(files, op, SpaceOf(payments), name);
    }
  }

  /**
   * The namespaces keep the two kinds apart in any directory: after any operations the payment
   * files are what the payment operations alone make of the payment files there were, and the peer
   * files what the peer operations make of theirs.
   */
  lemma {:induction false} NamespacesIndependent(a: Files, b: Files, ops: seq<Op>, payments: bool)
    requires AgreeOn(SpaceOf(payments), a, b)
    ensures AgreeOn(SpaceOf(payments), ApplyAll(a, ops), ApplyAll(b, OpsOfKind(ops, payments)))
    decreases |ops|
  {
    if ops != [] {
      var op, own := ops[0], OpsOfKind(ops, payments);
      if IsPaymentOp(op) == payments {
        OpKeepsAgreement(a, b, op, SpaceOf(payments));
        assert own[0] == op && own[1..] == OpsOfKind(ops[1..], payments);
        NamespacesIndependent(Apply(a, op), Apply(b, op), ops[1..], payments);
      } else {
        OtherKindLeavesSpace(a, op, payments);
        AgreeTrans(SpaceOf(payments), Apply(a, op), a, b);
        NamespacesIndependent(Apply(a, op), b, ops[1..], payments);
      }
    }
  }

  lemma AgreeTrans(space: Space, a: Files, b: Files, c: Files)
    requires AgreeOn(space, a, b) && AgreeOn(space, b, c)
    ensures AgreeOn(space, a, c)
  {
    forall name ensures Stored(a, space, name) == Stored(c, space, name) {
      assert Stored(a, space, name) == Stored(b, space, name);
      assert Stored(b, space, name) == Stored(c, space, name);
    }
  }

  /** The operation writes or removes the payment of `id`. */
  predicate Touches(op: Op, id: PaymentId) {
    match op
    case PutPayment(p) => p.paymentId == id
    case DeletePayment(other) => other == id
    case _ => false
  }

  lemma OthersLeaveIt(files: Files, op: Op, id: PaymentId)
    requires !Touches(op, id)
    ensures LookupPayment(Apply(files, op), id) == LookupPayment(files, id)
  {
    NamesDistinct();
    match op
    case PutPayment(p) => assert PaymentFile(p.paymentId) != PaymentFile(id);
    case DeletePayment(other) => assert PaymentFile(other) != PaymentFile(id);
    case PutPeer(p) => assert PeerFile(p.nodeId) != PaymentFile(id);
    case DeletePeer(key) => assert PeerFile(key) != PaymentFile(id);
  }

  lemma {:induction false} OthersAllLeaveIt(files: Files, ops: seq<Op>, id: PaymentId)
    requires forall op :: op in ops ==> !Touches(op, id)
    ensures LookupPayment(ApplyAll(files, ops), id) == LookupPayment(files, id)
    decreases |ops|
  {
    if ops != [] {
      OthersLeaveIt(files, ops[0], id);
      OthersAllLeaveIt(Apply(files, ops[0]), ops[1..], id);
    }
  }

  /**
   * The id text handed out for a payment finds that payment's record again: it decodes to the id,
   * and any text that decodes to it reads the record written, however many operations on other
   * payments and on peers have run since.
   */
  lemma IdTextFindsRecord(files: Files, p: Payment, ops: seq<Op>, text: string)
    requires Unhex(text) == Some(p.paymentId)
    requires forall op :: op in ops ==> !Touches(op, p.paymentId)
    ensures Unhex(Hex(p.paymentId)) == Some(p.paymentId)
    ensures LowerHex(text) == Hex(p.paymentId)
    ensures LookupPayment(ApplyAll(Apply(files, PutPayment(p)), ops), Unhex(text).value) == Ok(p)
  {
    HexRoundTrip(p.paymentId);
    HexDecodeSound(text);
    JustWritten(files, p);
    OthersAllLeaveIt(Apply(files, PutPayment(p)), ops, p.paymentId);
  }

  lemma JustWritten(files: Files, p: Payment)
    ensures LookupPayment(Apply(files, PutPayment(p)), p.paymentId) == Ok(p)
  {
    PaymentDecodes(p);
  }
}
