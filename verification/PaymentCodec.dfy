/** The stored form of a payment: seven required fields in a length-prefixed TLV stream. */
module PaymentCodec {
  import opened Wrappers
  import opened Bytes
  import opened BigSize
  import opened Tlv
  import opened Records
  import opened FieldCodec

  const TYPES: set<U64> := {0, 2, 4, 6, 8, 10, 12}

  /** The value written under each type of the schema. */
  function FieldValue(p: Payment, typ: U64): (v: Payload)
    requires typ in TYPES
    ensures |v| < 0xFD
  {
    if typ == 0 then p.paymentId
    else if typ == 2 then p.paymentHash
    else if typ == 4 then EncodeOption(p.paymentPreimage)
    else if typ == 6 then EncodeTag(DirectionTag(p.direction))
    else if typ == 8 then EncodeAmount(p.amountMsat)
    else if typ == 10 then EncodeAmount(p.feePaidMsat)
    else EncodeTag(StatusTag(p.status))
  }

  function FieldRecord(p: Payment, typ: U64): Record
    requires typ in TYPES
  {
    Record(typ, FieldValue(p, typ))
  }

  /** The records in the order they are written. */
  function FieldRecords(p: Payment): (rs: seq<Record>)
    ensures |rs| == 7
    ensures forall i :: 0 <= i < 7 ==> 2 * i in TYPES && rs[i] == FieldRecord(p, 2 * i)
  {
    [FieldRecord(p, 0), FieldRecord(p, 2), FieldRecord(p, 4), FieldRecord(p, 6),
     FieldRecord(p, 8), FieldRecord(p, 10), FieldRecord(p, 12)]
  }

  function EncodePayment(p: Payment): (bs: seq<Byte>)
    ensures bs != []
  {
    StreamLength(FieldRecords(p));
    Frame(EncodeRecords(FieldRecords(p)))
  }

  /** The fields of a stream, each value consumed exactly. */
  function PaymentOf(m: Fields): Option<Payment>
    requires TYPES <= m.Keys
  {
    var id := Exact(ReadFixed(m[0], 32));
    var hash := Exact(ReadFixed(m[2], 32));
    var preimage := Exact(ReadOption(m[4], 32));
    var direction := ReadDirection(m[6]);
    var amount := Exact(ReadAmount(m[8]));
    var fee := Exact(ReadAmount(m[10]));
    var status := ReadStatus(m[12]);
    if id.Some? && hash.Some? && preimage.Some? && direction.Some? && amount.Some? && fee.Some?
       && status.Some?
    then Some(Payment(id.value, hash.value, preimage.value, direction.value, amount.value,
                      fee.value, status.value))
    else None
  }

  function ReadDirection(v: Payload): Option<PaymentDirection> {
    match Exact(ReadTag(v))
    case None => None
    case Some(tag) => DirectionOf(tag)
  }

  function ReadStatus(v: Payload): Option<PaymentStatus> {
    match Exact(ReadTag(v))
    case None => None
    case Some(tag) => StatusOf(tag)
  }

  function ReadPayment(s: seq<Byte>): Parsed<Payment> {
    match ReadFields(s, TYPES)
    case Malformed => Malformed
    case Parsed(m, rest) =>
      match PaymentOf(m)
      case None => Malformed
      case Some(p) => Parsed(p, rest)
  }

  // ----- What the reader accepts -----

  /** Each field of `p` is what its value in `m` stands for. */
  ghost predicate Represents(m: Fields, p: Payment)
    requires TYPES <= m.Keys
  {
    && m[0] == p.paymentId
    && m[2] == p.paymentHash
    && OptionImage(m[4], p.paymentPreimage, 32)
    && TagImage(m[6], DirectionTag(p.direction))
    && OptionImage(m[8], AmountBytes(p.amountMsat), 8)
    && OptionImage(m[10], AmountBytes(p.feePaidMsat), 8)
    && TagImage(m[12], StatusTag(p.status))
  }

  lemma DirectionExact(v: Payload, d: PaymentDirection)
    ensures ReadDirection(v) == Some(d) <==> TagImage(v, DirectionTag(d))
  {
    TagExact(v, DirectionTag(d));
  }

  lemma StatusExact(v: Payload, st: PaymentStatus)
    ensures ReadStatus(v) == Some(st) <==> TagImage(v, StatusTag(st))
  {
    TagExact(v, StatusTag(st));
  }

  lemma PaymentOfExact(m: Fields, p: Payment)
    requires TYPES <= m.Keys
    ensures PaymentOf(m) == Some(p) <==> Represents(m, p)
  {
    FixedExact(m[0], 32, p.paymentId);
    FixedExact(m[2], 32, p.paymentHash);
    OptionExact(m[4], p.paymentPreimage, 32);
    DirectionExact(m[6], p.direction);
    AmountExact(m[8], p.amountMsat);
    AmountExact(m[10], p.feePaidMsat);
    StatusExact(m[12], p.status);
  }

  /** `b` is one accepted stored form of `p`, made of the records `rs`. */
  ghost predicate FormOf(b: seq<Byte>, rs: seq<Record>, m: Fields, p: Payment) {
    FrameOf(b, rs, TYPES, m) && Represents(m, p)
  }

  /**
   * The reader in full: it yields `p` and leaves `rest` unread exactly when the input is a frame
   * of increasing records, unknown types odd, all seven fields present and standing for those of
   * `p`, followed by `rest`.
   */
  lemma ReadPaymentExact(s: seq<Byte>, p: Payment, rest: seq<Byte>)
    ensures ReadPayment(s) == Parsed(p, rest)
            <==> exists b, rs, m :: FormOf(b, rs, m, p) && s == b + rest
  {
    if ReadPayment(s) == Parsed(p, rest) {
      ReadPaymentSource(s, p, rest);
    }
    if exists b, rs, m :: FormOf(b, rs, m, p) && s == b + rest {
      var b, rs, m :| FormOf(b, rs, m, p) && s == b + rest;
      FormReads(b, rs, m, p, rest);
    }
  }

  lemma FormReads(b: seq<Byte>, rs: seq<Record>, m: Fields, p: Payment, rest: seq<Byte>)
    requires FormOf(b, rs, m, p)
    ensures ReadPayment(b + rest) == Parsed(p, rest)
  {
    FieldsAccept(b, rs, TYPES, m, rest);
    PaymentOfExact(m, p);
  }

  lemma ReadPaymentSource(s: seq<Byte>, p: Payment, rest: seq<Byte>)
    requires ReadPayment(s) == Parsed(p, rest)
    ensures exists b, rs, m :: FormOf(b, rs, m, p) && s == b + rest
  {
    var m := ReadFields(s, TYPES).value;
    var b, rs := FieldsSource(s, TYPES);
    PaymentOfExact(m, p);
    assert FormOf(b, rs, m, p);
  }

  ghost predicate IsForm(b: seq<Byte>, p: Payment) {
    exists rs, m :: FormOf(b, rs, m, p)
  }

  /** The bytes begin with a stored form of `p`; what follows it does not matter. */
  ghost predicate BeginsWithForm(s: seq<Byte>, p: Payment) {
    exists b :: b <= s && IsForm(b, p)
  }

  lemma FormRead(s: seq<Byte>, p: Payment)
    requires ReadPayment(s).Parsed? && ReadPayment(s).value == p
    ensures BeginsWithForm(s, p)
  {
    var rest := ReadPayment(s).rest;
    ReadPaymentExact(s, p, rest);
    var b, rs, m :| FormOf(b, rs, m, p) && s == b + rest;
    assert b <= s && IsForm(b, p);
  }

  lemma PrefixReads(s: seq<Byte>, b: seq<Byte>, p: Payment)
    requires b <= s && IsForm(b, p)
    ensures ReadPayment(s) == Parsed(p, s[|b|..])
  {
    var rs, m :| FormOf(b, rs, m, p);
    FormReads(b, rs, m, p, s[|b|..]);
    Rejoin(b, s);
  }

  lemma Rejoin(b: seq<Byte>, s: seq<Byte>)
    requires b <= s
    ensures b + s[|b|..] == s
  {
  }

  lemma FormIsRead(s: seq<Byte>, p: Payment)
    requires BeginsWithForm(s, p)
    ensures ReadPayment(s).Parsed? && ReadPayment(s).value == p
  {
    var b :| b <= s && IsForm(b, p);
    PrefixReads(s, b, p);
  }

  /** Which bytes `p` is read from, whatever follows it. */
  lemma ReadsForms(s: seq<Byte>, p: Payment)
    ensures ReadPayment(s).Parsed? && ReadPayment(s).value == p <==> BeginsWithForm(s, p)
  {
    if ReadPayment(s).Parsed? && ReadPayment(s).value == p {
      FormRead(s, p);
    }
    if BeginsWithForm(s, p) {
      FormIsRead(s, p);
    }
  }

  // ----- Round trip -----

  function FieldMap(p: Payment): (m: Fields)
    ensures TYPES <= m.Keys
  {
    map typ | typ in TYPES :: FieldValue(p, typ)
  }

  lemma FieldMapRepresents(p: Payment)
    ensures Represents(FieldMap(p), p)
  {
    EncodeOptionImage(p.paymentPreimage, 32);
    EncodeTagImage(DirectionTag(p.direction));
    EncodeOptionImage(AmountBytes(p.amountMsat), 8);
    EncodeOptionImage(AmountBytes(p.feePaidMsat), 8);
    EncodeTagImage(StatusTag(p.status));
  }

  lemma FieldRecordIn(p: Payment, rs: seq<Record>, r: Record)
    requires |rs| == 7 && forall i :: 0 <= i < 7 ==> rs[i] == FieldRecord(p, 2 * i)
    ensures r in rs <==> r.typ in TYPES && r.value == FieldValue(p, r.typ)
  {
    if r in rs {
      var i :| 0 <= i < |rs| && rs[i] == r;
    }
    if r.typ in TYPES && r.value == FieldValue(p, r.typ) {
      assert rs[r.typ / 2] == FieldRecord(p, r.typ);
    }
  }

  lemma FieldRecordsWellFormed(p: Payment)
    ensures WellFormed(FieldRecords(p), TYPES)
  {
    forall r | r in FieldRecords(p) ensures r.typ in TYPES {
      FieldRecordIn(p, FieldRecords(p), r);
    }
  }

  lemma PaymentRoundTrip(p: Payment, s: seq<Byte>)
    ensures ReadPayment(EncodePayment(p) + s) == Parsed(p, s)
  {
    StreamLength(FieldRecords(p));
    FieldRecordsWellFormed(p);
    UnknownOddSkipped(p, FieldRecords(p), s);
  }

  // ----- The bytes themselves -----

  function OptionBytes(o: Option<seq<Byte>>): (bs: seq<Byte>)
    requires o.Some? ==> |o.value| < 0xFC
  {
    match o
    case None => [0]
    case Some(x) => [|x| + 1] + x
  }

  /** A short record: a type byte, a length byte, the value. */
  function Part(typ: Byte, value: seq<Byte>): (bs: seq<Byte>)
    requires |value| < 0xFD
  {
    [typ, |value|] + value
  }

  /** The stored fields written out. */
  function WireParts(p: Payment): (parts: seq<seq<Byte>>)
    ensures |parts| == 7
  {
    var direction: Byte := match p.direction case Inbound => 0 case Outbound => 2;
    var status: Byte := match p.status case Pending => 0 case Succeeded => 2 case Failed => 4;
    [ Part(0, p.paymentId),
      Part(2, p.paymentHash),
      Part(4, OptionBytes(p.paymentPreimage)),
      Part(6, [direction, 0]),
      Part(8, OptionBytes(AmountBytes(p.amountMsat))),
      Part(10, OptionBytes(AmountBytes(p.feePaidMsat))),
      Part(12, [status, 0]) ]
  }

  function Concat(parts: seq<seq<Byte>>): seq<Byte> {
    if parts == [] then [] else parts[0] + Concat(parts[1..])
  }

  lemma ShortRecord(r: Record)
    requires r.typ < 0xFD && |r.value| < 0xFD
    ensures EncodeRecord(r) == Part(r.typ, r.value)
  {
  }

  lemma OptionLayout(o: Option<seq<Byte>>)
    requires o.Some? ==> |o.value| < 0xFC
    ensures EncodeOption(o) == OptionBytes(o)
  {
  }

  lemma TagLayout(tag: Byte)
    ensures EncodeTag(tag) == [tag, 0]
  {
  }

  lemma PartIsRecord(p: Payment, i: nat)
    requires i < 7
    ensures WireParts(p)[i] == EncodeRecord(FieldRecords(p)[i])
  {
    ShortRecord(FieldRecord(p, 2 * i));
    OptionLayout(p.paymentPreimage);
    OptionLayout(AmountBytes(p.amountMsat));
    OptionLayout(AmountBytes(p.feePaidMsat));
    TagLayout(DirectionTag(p.direction));
    TagLayout(StatusTag(p.status));
  }

  lemma {:induction false} StreamIsParts(rs: seq<Record>, parts: seq<seq<Byte>>)
    requires |rs| == |parts| && forall i :: 0 <= i < |rs| ==> parts[i] == EncodeRecord(rs[i])
    ensures EncodeRecords(rs) == Concat(parts)
  {
    if rs != [] {
      StreamIsParts(rs[1..], parts[1..]);
    }
  }

  /** What is on disk, byte for byte, inside the length prefix. */
  lemma WireLayout(p: Payment)
    ensures |Concat(WireParts(p))| <= U64_MAX && EncodePayment(p) == Frame(Concat(WireParts(p)))
  {
    StreamLength(FieldRecords(p));
    forall i | 0 <= i < 7 ensures WireParts(p)[i] == EncodeRecord(FieldRecords(p)[i]) {
      PartIsRecord(p, i);
    }
    StreamIsParts(FieldRecords(p), WireParts(p));
  }

  /** No stored payment is a proper prefix of another, and equal bytes mean equal payments. */
  lemma EncodingPrefixFree(p: Payment, q: Payment, s: seq<Byte>, t: seq<Byte>)
    requires EncodePayment(p) + s == EncodePayment(q) + t
    ensures p == q && s == t
  {
    PaymentRoundTrip(p, s);
    PaymentRoundTrip(q, t);
  }

  // ----- Forward compatibility -----

  /** `rs` is the stored form of `p` with further records of unknown odd types among its own. */
  ghost predicate Extends(rs: seq<Record>, p: Payment) {
    && WellFormed(rs, TYPES)
    && (forall r :: r in FieldRecords(p) ==> r in rs)
    && (forall r :: r in rs && r.typ in TYPES ==> r in FieldRecords(p))
  }

  lemma ExtendsHolds(p: Payment, rs: seq<Record>)
    requires Extends(rs, p)
    ensures Holds(rs, TYPES, FieldMap(p))
  {
    var m := FieldMap(p);
    forall t | t in m ensures Record(t, m[t]) in rs {
      FieldRecordIn(p, FieldRecords(p), Record(t, m[t]));
    }
    forall r | r in rs && r.typ in TYPES ensures m[r.typ] == r.value {
      FieldRecordIn(p, FieldRecords(p), r);
    }
  }

  /** Records a later version adds under odd types do not change what this version reads. */
  lemma UnknownOddSkipped(p: Payment, rs: seq<Record>, s: seq<Byte>)
    requires Extends(rs, p)
    requires |EncodeRecords(rs)| <= U64_MAX
    ensures ReadPayment(Frame(EncodeRecords(rs)) + s) == Parsed(p, s)
  {
    var m := FieldMap(p);
    FieldMapRepresents(p);
    ExtendsHolds(p, rs);
    FormReads(Frame(EncodeRecords(rs)), rs, m, p, s);
  }

  /**
   * The value lengths a field of each type can have: an optional value is absent, or its payload
   * behind a header of any width; an enum may carry a stream of unknown records.
   */
  predicate LengthFits(typ: U64, n: nat) {
    if typ == 0 || typ == 2 then n == 32
    else if typ == 4 then n in {1, 33, 35, 37, 41}
    else if typ == 8 || typ == 10 then n in {1, 9, 11, 13, 17}
    else TagLengthFits(n)
  }

  /** A variant byte and a framed stream, which is empty or has at least the two bytes of a record. */
  predicate TagLengthFits(n: nat) {
    n != 3 && OneByteThenFrame(n)
  }

  /** `n` is one byte, a BigSize and as many bytes as it counts. */
  predicate OneByteThenFrame(n: nat) {
    2 <= n <= 254 || 257 <= n <= 65539 || 65542 <= n <= 0x1_0000_0005 || n >= 0x1_0000_000A
  }

  function BodyLength(n: U64): (body: U64)
    requires OneByteThenFrame(n)
    ensures 1 + |Encode(body)| + body == n
  {
    if n <= 254 then n - 2 else if n <= 65539 then n - 4 else if n <= 0x1_0000_0005 then n - 6 else n - 10
  }

  lemma OptionLength(v: seq<Byte>, o: Option<seq<Byte>>, width: nat)
    requires OptionImage(v, o, width)
    ensures |v| in {1, 1 + width, 3 + width, 5 + width, 9 + width}
  {
    if o.Some? {
      var header: U64 :| SomeImage(v, o.value, header);
    }
  }

  lemma TagLength(v: seq<Byte>, tag: Byte)
    requires TagImage(v, tag)
    ensures TagLengthFits(|v|)
  {
    var b, rs :| TagBody(v, tag, b, rs);
    var body := EncodeRecords(rs);
    assert rs != [] ==> |body| >= |EncodeRecord(rs[0])| >= 2;
    assert |v| == 1 + |Encode(|body|)| + |body|;
  }

  lemma RepresentsLengths(m: Fields, p: Payment, typ: U64)
    requires TYPES <= m.Keys && typ in TYPES && Represents(m, p)
    ensures LengthFits(typ, |m[typ]|)
  {
    OptionLength(m[4], p.paymentPreimage, 32);
    TagLength(m[6], DirectionTag(p.direction));
    OptionLength(m[8], AmountBytes(p.amountMsat), 8);
    OptionLength(m[10], AmountBytes(p.feePaidMsat), 8);
    TagLength(m[12], StatusTag(p.status));
  }

  function Zeros(n: U64): (v: Payload)
    ensures |v| == n
  {
    seq(n, _ => 0)
  }

  /** Unknown odd records of any total length but one. */
  lemma OddStream(n: U64) returns (rs: seq<Record>)
    requires n != 1
    ensures |EncodeRecords(rs)| == n && WellFormed(rs, {}) && Holds(rs, {}, map[])
  {
    if n == 0 {
      rs := [];
    } else if OneByteThenFrame(n) {
      rs := [Record(1, Zeros(BodyLength(n)))];
      assert rs[1..] == [];
    } else {
      var second := Record(3, Zeros(BodyLength(n - 5)));
      rs := [Record(1, Zeros(3)), second];
      assert rs[1..] == [second] && rs[1..][1..] == [];
      assert EncodeRecords([second]) == EncodeRecord(second) + EncodeRecords([]);
    }
  }

  lemma TagOfLength(tag: Byte, n: U64) returns (v: Payload)
    requires TagLengthFits(n)
    ensures |v| == n && TagImage(v, tag)
  {
    var rs := OddStream(BodyLength(n));
    v := [tag] + Frame(EncodeRecords(rs));
    assert TagBody(v, tag, Frame(EncodeRecords(rs)), rs);
  }

  lemma OptionOfLength(x: seq<Byte>, n: U64) returns (v: Payload)
    requires |x| < 0xFC && n - |x| in {1, 3, 5, 9}
    ensures |v| == n && OptionImage(v, Some(x), |x|)
  {
    var header: U64 := if n - |x| == 1 then |x| + 1
                       else if n - |x| == 3 then 0xFD else if n - |x| == 5 then 0x1_0000 else 0x1_0000_0000;
    v := Encode(header) + x;
    assert SomeImage(v, x, header);
  }

  ghost predicate StandsFor(m: Fields, p: Payment) {
    m.Keys == TYPES && Represents(m, p)
  }

  function TotalLength(m: Fields): nat
    requires m.Keys == TYPES
  {
    |m[0]| + |m[2]| + |m[4]| + |m[6]| + |m[8]| + |m[10]| + |m[12]|
  }

  /** A payment with all optional fields present or all absent, and its fields as written. */
  lemma SomePayment(present: bool) returns (m: Fields, p: Payment)
    ensures StandsFor(m, p) && |m[0]| == |m[2]| == 32 && |m[6]| == |m[12]| == 2
    ensures TotalLength(m) == if present then 119 else 71
    ensures !present ==> |m[4]| == |m[8]| == |m[10]| == 1
    ensures present ==> p.paymentPreimage.Some? && p.amountMsat.Some? && p.feePaidMsat.Some?
  {
    var id: PaymentId := Zeros(32);
    var amount := if present then Some(0) else None;
    p := Payment(id, id, if present then Some(id) else None, Inbound, amount, amount, Pending);
    m := FieldMap(p);
    FieldMapRepresents(p);
  }

  lemma TotalAfter(m: Fields, typ: U64, v: Payload)
    requires m.Keys == TYPES && typ in TYPES
    ensures m[typ := v].Keys == TYPES && TotalLength(m[typ := v]) == TotalLength(m) - |m[typ]| + |v|
  {
  }

  lemma OptionsOfLength(m: Fields, p: Payment, typ: U64, n: U64) returns (m': Fields)
    requires StandsFor(m, p) && (typ == 4 || typ == 8 || typ == 10) && LengthFits(typ, n) && n != 1
    requires p.paymentPreimage.Some? && p.amountMsat.Some? && p.feePaidMsat.Some?
    ensures StandsFor(m', p) && |m'[typ]| == n
    ensures TotalLength(m') <= TotalLength(m) + n
  {
    var bytes := if typ == 4 then p.paymentPreimage.value
                 else if typ == 8 then AmountBytes(p.amountMsat).value else AmountBytes(p.feePaidMsat).value;
    var v := OptionOfLength(bytes, n);
    m' := m[typ := v];
    TotalAfter(m, typ, v);
  }

  lemma TagsOfLength(m: Fields, p: Payment, typ: U64, n: U64) returns (m': Fields)
    requires StandsFor(m, p) && (typ == 6 || typ == 12) && LengthFits(typ, n)
    ensures StandsFor(m', p) && |m'[typ]| == n
    ensures TotalLength(m') == TotalLength(m) - |m[typ]| + n
  {
    var v := TagOfLength(if typ == 6 then DirectionTag(p.direction) else StatusTag(p.status), n);
    m' := m[typ := v];
    TotalAfter(m, typ, v);
  }

  /** The other fields at their shortest if the value is an enum's, and few bytes in all otherwise. */
  ghost predicate RestShort(m: Fields, typ: U64, n: U64)
    requires m.Keys == TYPES
  {
    if typ == 6 || typ == 12 then TotalLength(m) == n + 69 else TotalLength(m) < 200
  }

  lemma FieldsOfLength(typ: U64, n: U64) returns (m: Fields, p: Payment)
    requires typ in TYPES && LengthFits(typ, n)
    ensures StandsFor(m, p) && |m[typ]| == n && RestShort(m, typ, n)
  {
    m, p := SomePayment((typ == 4 || typ == 8 || typ == 10) && n != 1);
    if typ == 6 || typ == 12 {
      m := TagsOfLength(m, p, typ, n);
    } else if typ != 0 && typ != 2 && n != 1 {
      m := OptionsOfLength(m, p, typ, n);
    }
  }

  /** One record a field, in the order of the types. */
  function RecordsFrom(m: Fields): (rs: seq<Record>)
    requires m.Keys == TYPES
    ensures |rs| == 7 && forall i :: 0 <= i < 7 ==> rs[i] == Record(2 * i, m[2 * i])
  {
    [Record(0, m[0]), Record(2, m[2]), Record(4, m[4]), Record(6, m[6]),
     Record(8, m[8]), Record(10, m[10]), Record(12, m[12])]
  }

  lemma RecordsFromSupply(m: Fields)
    requires m.Keys == TYPES
    ensures WellFormed(RecordsFrom(m), TYPES) && Holds(RecordsFrom(m), TYPES, m)
  {
    var rs := RecordsFrom(m);
    forall r | r in rs ensures r.typ in TYPES && m[r.typ] == r.value {
      var i :| 0 <= i < 7 && rs[i] == r;
    }
    forall t | t in m ensures Record(t, m[t]) in rs {
      RecordOf(m, t);
    }
  }

  lemma RecordOf(m: Fields, typ: U64)
    requires m.Keys == TYPES && typ in TYPES
    ensures Record(typ, m[typ]) in RecordsFrom(m)
  {
    assert RecordsFrom(m)[typ / 2] == Record(typ, m[typ]);
  }

  lemma DropOne(rs: seq<Record>, i: nat)
    requires i < |rs|
    ensures |EncodeRecords(rs[i..])| == |EncodeRecord(rs[i])| + |EncodeRecords(rs[i + 1..])|
  {
    assert rs[i..][1..] == rs[i + 1..];
  }

  lemma SevenLengths(rs: seq<Record>)
    requires |rs| == 7
    ensures |EncodeRecords(rs)|
            == |EncodeRecord(rs[0])| + |EncodeRecord(rs[1])| + |EncodeRecord(rs[2])| + |EncodeRecord(rs[3])|
               + |EncodeRecord(rs[4])| + |EncodeRecord(rs[5])| + |EncodeRecord(rs[6])|
  {
    assert rs[0..] == rs && rs[7..] == [];
    DropOne(rs, 0);
    DropOne(rs, 1);
    DropOne(rs, 2);
    DropOne(rs, 3);
    DropOne(rs, 4);
    DropOne(rs, 5);
    DropOne(rs, 6);
  }

  ghost predicate Carries(rs: seq<Record>, typ: U64, n: nat) {
    exists r :: r in rs && r.typ == typ && |r.value| == n
  }

  /**
   * Every length that fits is that of a field in some input the reader accepts, so no shorter list
   * would do. Beside a long value the stream has at least 91 bytes: the other fields at their
   * shortest, and a type and a length of nine bytes before the value.
   */
  lemma FittingLengthsOccur(typ: U64, n: U64) returns (rs: seq<Record>, p: Payment)
    requires typ in TYPES && LengthFits(typ, n) && n + 91 <= U64_MAX
    ensures Carries(rs, typ, n) && |EncodeRecords(rs)| <= U64_MAX
    ensures ReadPayment(Frame(EncodeRecords(rs))) == Parsed(p, [])
  {
    var m;
    m, p := FieldsOfLength(typ, n);
    rs := RecordsFrom(m);
    RecordOf(m, typ);
    StreamFits(m, typ, n);
    RecordsFromSupply(m);
    RecordsRead(rs, m, p);
  }

  lemma RecordsRead(rs: seq<Record>, m: Fields, p: Payment)
    requires StandsFor(m, p) && WellFormed(rs, TYPES) && Holds(rs, TYPES, m)
    requires |EncodeRecords(rs)| <= U64_MAX
    ensures ReadPayment(Frame(EncodeRecords(rs))) == Parsed(p, [])
  {
    var b := Frame(EncodeRecords(rs));
    FormReads(b, rs, m, p, []);
    assert b + [] == b;
  }

  lemma StreamFits(m: Fields, typ: U64, n: U64)
    requires m.Keys == TYPES && typ in TYPES && |m[typ]| == n && n + 91 <= U64_MAX
    requires RestShort(m, typ, n)
    ensures |EncodeRecords(RecordsFrom(m))| <= U64_MAX
  {
    SevenLengths(RecordsFrom(m));
    if typ == 6 || typ == 12 {
      assert |EncodeRecord(RecordsFrom(m)[typ / 2])| <= 10 + n;
    }
  }

  /** A field value of a length no value of its type has rejects the whole record. */
  lemma WrongLengthRejected(rs: seq<Record>, r: Record, s: seq<Byte>)
    requires |EncodeRecords(rs)| <= U64_MAX
    requires r in rs && r.typ in TYPES && !LengthFits(r.typ, |r.value|)
    ensures ReadPayment(Frame(EncodeRecords(rs)) + s).Malformed?
  {
    var all := Frame(EncodeRecords(rs)) + s;
    if ReadPayment(all).Parsed? {
      FrameRoundTrip(EncodeRecords(rs), s);
      StreamAccepts(rs, TYPES, -1);
      var m := ReadFields(all, TYPES).value;
      PaymentOfExact(m, ReadPayment(all).value);
      RepresentsLengths(m, ReadPayment(all).value, r.typ);
      assert false;
    }
  }

  /**
   * Out-of-order or repeated types, unknown even types and missing fields reject the record, with
   * whatever values the stream carries.
   */
  lemma BadTypesRejected(rs: seq<Record>, s: seq<Byte>)
    requires |EncodeRecords(rs)| <= U64_MAX
    requires !WellFormed(rs, TYPES) || exists t :: t in TYPES && forall r :: r in rs ==> r.typ != t
    ensures ReadPayment(Frame(EncodeRecords(rs)) + s).Malformed?
  {
    BadStreamRejected(rs, TYPES, s);
  }
}
