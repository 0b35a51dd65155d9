/** The stored form of a peer: its key and its last address. */
module PeerCodec {
  import opened Wrappers
  import opened Bytes
  import opened BigSize
  import opened Tlv
  import opened Records
  import opened FieldCodec

  const TYPES: set<U64> := {0, 2}

  function FieldRecords(p: PeerInfo): (rs: seq<Record>)
    ensures |rs| == 2
    ensures forall r :: r in rs ==> |r.value| <= 259
  {
    [Record(0, p.nodeId), Record(2, EncodeAddress(p.address))]
  }

  function EncodePeer(p: PeerInfo): (bs: seq<Byte>)
    ensures bs != []
  {
    StreamLength(FieldRecords(p));
    Frame(EncodeRecords(FieldRecords(p)))
  }

  function ReadKey(v: Payload): Option<PublicKey> {
    match Exact(ReadFixed(v, 33))
    case None => None
    case Some(key) => if IsCompressedKey(key) then Some(key) else None
  }

  function PeerOf(m: Fields): Option<PeerInfo>
    requires TYPES <= m.Keys
  {
    var key := ReadKey(m[0]);
    var address := Exact(ReadAddress(m[2]));
    if key.Some? && address.Some? then Some(PeerInfo(key.value, address.value)) else None
  }

  function ReadPeer(s: seq<Byte>): Parsed<PeerInfo> {
    match ReadFields(s, TYPES)
    case Malformed => Malformed
    case Parsed(m, rest) =>
      match PeerOf(m)
      case None => Malformed
      case Some(p) => Parsed(p, rest)
  }

  function FieldMap(p: PeerInfo): (m: Fields)
    ensures TYPES <= m.Keys
  {
    map[0 := p.nodeId, 2 := EncodeAddress(p.address)]
  }

  lemma PeerOfExact(m: Fields, p: PeerInfo)
    requires TYPES <= m.Keys
    ensures PeerOf(m) == Some(p) <==> m[0] == p.nodeId && m[2] == EncodeAddress(p.address)
  {
    FixedExact(m[0], 33, p.nodeId);
    AddressExact(m[2], p.address);
    if |m[0]| == 33 {
      FixedExact(m[0], 33, m[0]);
    }
  }

  lemma FieldMapHolds(p: PeerInfo)
    ensures WellFormed(FieldRecords(p), TYPES)
    ensures Holds(FieldRecords(p), TYPES, FieldMap(p))
  {
    var rs, m := FieldRecords(p), FieldMap(p);
    assert rs[0] == Record(0, m[0]) && rs[1] == Record(2, m[2]);
  }

  /** Every address form survives, whichever BigSize widths its lengths need. */
  lemma PeerRoundTrip(p: PeerInfo, s: seq<Byte>)
    ensures ReadPeer(EncodePeer(p) + s) == Parsed(p, s)
  {
    var rs, m := FieldRecords(p), FieldMap(p);
    FieldMapHolds(p);
    StreamLength(rs);
    FieldsAccept(EncodePeer(p), rs, TYPES, m, s);
    PeerOfExact(m, p);
  }

  /** What is on disk: the key under type 0, the address under type 2, inside the length prefix. */
  lemma WireLayout(p: PeerInfo)
    ensures var address := EncodeAddress(p.address);
            var body := [0, 33] + p.nodeId + [2] + Encode(|address|) + address;
            EncodePeer(p) == Encode(|body|) + body
  {
    var rs := FieldRecords(p);
    assert rs[1..] == [rs[1]] && rs[1..][1..] == [];
    assert EncodeRecords(rs[1..]) == EncodeRecord(rs[1]) + EncodeRecords([]);
    assert EncodeRecord(rs[0]) == [0, 33] + p.nodeId;
    assert EncodeRecords(rs)
        == [0, 33] + p.nodeId + [2] + Encode(|EncodeAddress(p.address)|) + EncodeAddress(p.address);
  }

  lemma EncodingPrefixFree(p: PeerInfo, q: PeerInfo, s: seq<Byte>, t: seq<Byte>)
    requires EncodePeer(p) + s == EncodePeer(q) + t
    ensures p == q && s == t
  {
    PeerRoundTrip(p, s);
    PeerRoundTrip(q, t);
  }

  /** `b` is one accepted stored form of `p`, made of the records `rs`. */
  ghost predicate FormOf(b: seq<Byte>, rs: seq<Record>, m: Fields, p: PeerInfo) {
    FrameOf(b, rs, TYPES, m) && m[0] == p.nodeId && m[2] == EncodeAddress(p.address)
  }

  lemma FormReads(b: seq<Byte>, rs: seq<Record>, m: Fields, p: PeerInfo, rest: seq<Byte>)
    requires FormOf(b, rs, m, p)
    ensures ReadPeer(b + rest) == Parsed(p, rest)
  {
    FieldsAccept(b, rs, TYPES, m, rest);
    PeerOfExact(m, p);
  }

  /**
   * The reader in full: `p` is read exactly from a frame of increasing records, unknown types odd,
   * that carries the key of `p` and the one encoding of its address.
   */
  lemma ReadPeerExact(s: seq<Byte>, p: PeerInfo, rest: seq<Byte>)
    ensures ReadPeer(s) == Parsed(p, rest)
            <==> exists b, rs, m :: FormOf(b, rs, m, p) && s == b + rest
  {
    if ReadPeer(s) == Parsed(p, rest) {
      var m := ReadFields(s, TYPES).value;
      var b, rs := FieldsSource(s, TYPES);
      PeerOfExact(m, p);
      assert FormOf(b, rs, m, p) && s == b + rest;
    }
    if exists b, rs, m :: FormOf(b, rs, m, p) && s == b + rest {
      var b, rs, m :| FormOf(b, rs, m, p) && s == b + rest;
      FormReads(b, rs, m, p, rest);
    }
  }

  ghost predicate IsForm(b: seq<Byte>, p: PeerInfo) {
    exists rs, m :: FormOf(b, rs, m, p)
  }

  /** The bytes begin with a stored form of `p`; what follows it does not matter. */
  ghost predicate BeginsWithForm(s: seq<Byte>, p: PeerInfo) {
    exists b :: b <= s && IsForm(b, p)
  }

  lemma FormRead(s: seq<Byte>, p: PeerInfo)
    requires ReadPeer(s).Parsed? && ReadPeer(s).value == p
    ensures BeginsWithForm(s, p)
  {
    var rest := ReadPeer(s).rest;
    ReadPeerExact(s, p, rest);
    var b, rs, m :| FormOf(b, rs, m, p) && s == b + rest;
    assert b <= s && IsForm(b, p);
  }

  lemma PrefixReads(s: seq<Byte>, b: seq<Byte>, p: PeerInfo)
    requires b <= s && IsForm(b, p)
    ensures ReadPeer(s) == Parsed(p, s[|b|..])
  {
    var rs, m :| FormOf(b, rs, m, p);
    FormReads(b, rs, m, p, s[|b|..]);
    Rejoin(b, s);
  }

  lemma Rejoin(b: seq<Byte>, s: seq<Byte>)
    requires b <= s
    ensures b + s[|b|..] == s
  {
  }

  lemma FormIsRead(s: seq<Byte>, p: PeerInfo)
    requires BeginsWithForm(s, p)
    ensures ReadPeer(s).Parsed? && ReadPeer(s).value == p
  {
    var b :| b <= s && IsForm(b, p);
    PrefixReads(s, b, p);
  }

  /** Which bytes `p` is read from, whatever follows it. */
  lemma ReadsForms(s: seq<Byte>, p: PeerInfo)
    ensures ReadPeer(s).Parsed? && ReadPeer(s).value == p <==> BeginsWithForm(s, p)
  {
    if ReadPeer(s).Parsed? && ReadPeer(s).value == p {
      FormRead(s, p);
    }
    if BeginsWithForm(s, p) {
      FormIsRead(s, p);
    }
  }

  /** Exactly which peers need the three-byte form for the address length and for the frame. */
  lemma LongHostnames(p: PeerInfo)
    ensures |Encode(|EncodeAddress(p.address)|)| == 3
            <==> p.address.Hostname? && |p.address.name| >= 249
    ensures |EncodeRecords(FieldRecords(p))| <= U64_MAX
    ensures |Encode(|EncodeRecords(FieldRecords(p))|)| == 3
            <==> p.address.Hostname? && |p.address.name| >= 212
  {
    var rs := FieldRecords(p);
    assert EncodeRecords(rs) == EncodeRecord(rs[0]) + EncodeRecord(rs[1]) by {
      assert rs[1..] == [rs[1]] && rs[1..][1..] == [];
      assert EncodeRecords([rs[1]]) == EncodeRecord(rs[1]) + EncodeRecords([]);
    }
  }
}
