/** Length-prefixed TLV streams: BOLT #1, section "Type-Length-Value Format". */
module Tlv {
  import opened Wrappers
  import opened Bytes
  import opened BigSize

  /** A record's value; its length must itself fit a BigSize. */
  type Payload = s: seq<Byte> | |s| <= 0xFFFF_FFFF_FFFF_FFFF

  datatype Record = Record(typ: U64, value: Payload)

  type Fields = map<U64, Payload>

  // ----- Writing -----

  function EncodeRecord(r: Record): (bs: seq<Byte>)
    ensures 2 <= |bs| <= |r.value| + 18
    ensures r.typ < 0xFD && |r.value| < 0xFD ==> |bs| == |r.value| + 2
  {
    Encode(r.typ) + Encode(|r.value|) + r.value
  }

  function EncodeRecords(rs: seq<Record>): seq<Byte> {
    if rs == [] then [] else EncodeRecord(rs[0]) + EncodeRecords(rs[1..])
  }

  /** Short values keep a stream far below the length limit. */
  lemma {:induction false} StreamLength(rs: seq<Record>)
    requires forall r :: r in rs ==> |r.value| < 500
    ensures |EncodeRecords(rs)| <= 600 * |rs|
  {
    if rs != [] {
      StreamLength(rs[1..]);
    }
  }

  /** The outer length prefix followed by the stream. */
  function Frame(body: Payload): seq<Byte> {
    Encode(|body|) + body
  }

  // ----- Reading -----

  /** A value preceded by its length: the outer frame, and the tail of a record. */
  function ReadFrame(s: seq<Byte>): (r: Parsed<Payload>)
    ensures r.Parsed? ==> |r.rest| < |s|
  {
    match Read(s)
    case Malformed => Malformed
    case Parsed(len, rest) =>
      if |rest| < len then Malformed else Parsed(rest[..len], rest[len..])
  }

  function ReadRecord(s: seq<Byte>): (r: Parsed<Record>)
    ensures r.Parsed? ==> |r.rest| < |s|
  {
    match Read(s)
    case Malformed => Malformed
    case Parsed(typ, rest) =>
      match ReadFrame(rest)
      case Malformed => Malformed
      case Parsed(value, rest') => Parsed(Record(typ, value), rest')
  }

  /** One record's contribution: unknown (odd) types are skipped. */
  function Keep(r: Record, known: set<U64>): Fields {
    if r.typ in known then map[r.typ := r.value] else map[]
  }

  /** Whether `r` may follow type `last`: types strictly increase, unknown types are odd. */
  predicate Admissible(r: Record, known: set<U64>, last: int) {
    last < r.typ && (r.typ in known || r.typ % 2 == 1)
  }

  /** The decoder: the known fields of a stream whose earlier types end at `last`. */
  function ReadStream(s: seq<Byte>, known: set<U64>, last: int): Option<Fields>
    decreases |s|
  {
    if s == [] then Some(map[])
    else
      match ReadRecord(s)
      case Malformed => None
      case Parsed(r, rest) =>
        if !Admissible(r, known, last) then None
        else
          match ReadStream(rest, known, r.typ)
          case None => None
          case Some(m) => Some(Keep(r, known) + m)
  }

  /** A length-prefixed stream in which every known type is required. */
  function ReadFields(s: seq<Byte>, known: set<U64>): (r: Parsed<Fields>)
    ensures r.Parsed? ==> known <= r.value.Keys && |r.rest| < |s|
  {
    match ReadFrame(s)
    case Malformed => Malformed
    case Parsed(body, rest) =>
      match ReadStream(body, known, -1)
      case None => Malformed
      case Some(m) => if known <= m.Keys then Parsed(m, rest) else Malformed
  }

  // ----- What the reader accepts, stated on records instead of bytes -----

  ghost predicate Increasing(rs: seq<Record>) {
    forall i, j :: 0 <= i < j < |rs| ==> rs[i].typ < rs[j].typ
  }

  ghost predicate UnknownAreOdd(rs: seq<Record>, known: set<U64>) {
    forall r :: r in rs ==> r.typ in known || r.typ % 2 == 1
  }

  ghost predicate Above(rs: seq<Record>, last: int) {
    forall r :: r in rs ==> last < r.typ
  }

  ghost predicate WellFormed(rs: seq<Record>, known: set<U64>) {
    Increasing(rs) && UnknownAreOdd(rs, known)
  }

  /** The value `rs` gives to each known type that occurs in it. */
  ghost predicate Holds(rs: seq<Record>, known: set<U64>, m: Fields) {
    && (forall r :: r in rs && r.typ in known ==> r.typ in m && m[r.typ] == r.value)
    && (forall t :: t in m ==> t in known && Record(t, m[t]) in rs)
  }

  // ----- Framing lemmas -----

  lemma FrameRoundTrip(body: Payload, s: seq<Byte>)
    ensures ReadFrame(Frame(body) + s) == Parsed(body, s)
  {
    assert Frame(body) + s == Encode(|body|) + (body + s);
    RoundTrip(|body|, body + s);
  }

  lemma FrameCanonical(s: seq<Byte>)
    requires ReadFrame(s).Parsed?
    ensures s == Frame(ReadFrame(s).value) + ReadFrame(s).rest
  {
    Canonical(s);
    var r := Read(s);
    assert r.rest == r.rest[..r.value] + r.rest[r.value..];
  }

  lemma RecordRoundTrip(r: Record, s: seq<Byte>)
    ensures ReadRecord(EncodeRecord(r) + s) == Parsed(r, s)
  {
    Reassociate(Encode(r.typ), Encode(|r.value|), r.value, s);
    RoundTrip(r.typ, Frame(r.value) + s);
    FrameRoundTrip(r.value, s);
  }

  lemma Reassociate(a: seq<Byte>, b: seq<Byte>, c: seq<Byte>, d: seq<Byte>)
    ensures a + ((b + c) + d) == (a + b + c) + d
  {
  }

  lemma RecordCanonical(s: seq<Byte>)
    requires ReadRecord(s).Parsed?
    ensures s == EncodeRecord(ReadRecord(s).value) + ReadRecord(s).rest
  {
    Canonical(s);
    var head := Read(s);
    FrameCanonical(head.rest);
    var body := ReadFrame(head.rest);
    Reassociate(Encode(head.value), Encode(|body.value|), body.value, body.rest);
  }

  // ----- The stream decoder accepts exactly the well-formed streams -----

  /** Decoding the encoding of `rs` succeeds just when `rs` is well formed. */
  lemma {:induction false} StreamAccepts(rs: seq<Record>, known: set<U64>, last: int)
    ensures ReadStream(EncodeRecords(rs), known, last).Some?
            <==> WellFormed(rs, known) && Above(rs, last)
    ensures ReadStream(EncodeRecords(rs), known, last).Some?
            ==> Holds(rs, known, ReadStream(EncodeRecords(rs), known, last).value)
    decreases |rs|
  {
    if rs != [] {
      var r, tail := rs[0], rs[1..];
      assert rs == [r] + tail;
      RecordRoundTrip(r, EncodeRecords(tail));
      StreamAccepts(tail, known, r.typ);
      WellFormedCons(r, tail, known, last);
      if ReadStream(EncodeRecords(rs), known, last).Some? {
        var m := ReadStream(EncodeRecords(tail), known, r.typ).value;
        HoldsCons(r, tail, known, m);
      }
    }
  }

  lemma WellFormedCons(r: Record, tail: seq<Record>, known: set<U64>, last: int)
    ensures WellFormed([r] + tail, known) && Above([r] + tail, last)
            <==> Admissible(r, known, last) && WellFormed(tail, known) && Above(tail, r.typ)
  {
    if WellFormed([r] + tail, known) && Above([r] + tail, last) {
      WellFormedSplit(r, tail, known, last);
    }
    if Admissible(r, known, last) && WellFormed(tail, known) && Above(tail, r.typ) {
      WellFormedJoin(r, tail, known, last);
    }
  }

  lemma WellFormedSplit(r: Record, tail: seq<Record>, known: set<U64>, last: int)
    requires WellFormed([r] + tail, known) && Above([r] + tail, last)
    ensures Admissible(r, known, last) && WellFormed(tail, known) && Above(tail, r.typ)
  {
    var rs := [r] + tail;
    assert r == rs[0];
    forall q | q in tail ensures q in rs && r.typ < q.typ {
      var i :| 0 <= i < |tail| && tail[i] == q;
      assert rs[i + 1] == q;
    }
    forall i, j | 0 <= i < j < |tail| ensures tail[i].typ < tail[j].typ {
      assert rs[i + 1] == tail[i] && rs[j + 1] == tail[j];
    }
  }

  lemma WellFormedJoin(r: Record, tail: seq<Record>, known: set<U64>, last: int)
    requires Admissible(r, known, last) && WellFormed(tail, known) && Above(tail, r.typ)
    ensures WellFormed([r] + tail, known) && Above([r] + tail, last)
  {
    var rs := [r] + tail;
    forall i, j | 0 <= i < j < |rs| ensures rs[i].typ < rs[j].typ {
      assert rs[j] == tail[j - 1] && rs[j] in tail;
    }
    forall q | q in rs ensures last < q.typ && (q.typ in known || q.typ % 2 == 1) {
      assert q == r || q in tail;
    }
  }

  lemma HoldsCons(r: Record, tail: seq<Record>, known: set<U64>, m: Fields)
    requires Holds(tail, known, m) && Above(tail, r.typ)
    ensures Holds([r] + tail, known, Keep(r, known) + m)
  {
    var rs := [r] + tail;
    assert r == rs[0];
    forall q | q in tail ensures q in rs {
    }
    assert r.typ !in m;
  }

  /** The records a stream consists of. */
  function RecordsOf(s: seq<Byte>): seq<Record>
    decreases |s|
  {
    if s == [] then []
    else
      match ReadRecord(s)
      case Malformed => []
      case Parsed(r, rest) => [r] + RecordsOf(rest)
  }

  /** Every accepted stream is the encoding of its records, byte for byte. */
  lemma {:induction false} StreamCanonical(s: seq<Byte>, known: set<U64>, last: int)
    requires ReadStream(s, known, last).Some?
    ensures EncodeRecords(RecordsOf(s)) == s
    decreases |s|
  {
    if s != [] {
      RecordCanonical(s);
      StreamCanonical(ReadRecord(s).rest, known, ReadRecord(s).value.typ);
      assert RecordsOf(s)[1..] == RecordsOf(ReadRecord(s).rest);
    }
  }

  /** `b` is a frame around a well-formed stream of records that supplies exactly `m`. */
  ghost predicate FrameOf(b: seq<Byte>, rs: seq<Record>, known: set<U64>, m: Fields) {
    && |EncodeRecords(rs)| <= U64_MAX
    && b == Frame(EncodeRecords(rs))
    && WellFormed(rs, known)
    && Holds(rs, known, m)
    && known <= m.Keys
  }

  lemma FieldsAccept(b: seq<Byte>, rs: seq<Record>, known: set<U64>, m: Fields, s: seq<Byte>)
    requires FrameOf(b, rs, known, m)
    ensures ReadFields(b + s, known) == Parsed(m, s)
  {
    FrameRoundTrip(EncodeRecords(rs), s);
    assert Above(rs, -1);
    StreamAccepts(rs, known, -1);
    HoldsUnique(rs, known, m, ReadStream(EncodeRecords(rs), known, -1).value);
  }

  lemma HoldsUnique(rs: seq<Record>, known: set<U64>, m: Fields, m': Fields)
    requires Holds(rs, known, m) && Holds(rs, known, m')
    ensures m == m'
  {
    forall t | t in m ensures t in m' && m'[t] == m[t] {
      assert Record(t, m[t]) in rs;
    }
    forall t | t in m' ensures t in m {
      assert Record(t, m'[t]) in rs;
    }
  }

  lemma FieldsSource(s: seq<Byte>, known: set<U64>) returns (b: seq<Byte>, rs: seq<Record>)
    requires ReadFields(s, known).Parsed?
    ensures s == b + ReadFields(s, known).rest
    ensures FrameOf(b, rs, known, ReadFields(s, known).value)
  {
    FrameCanonical(s);
    var body := ReadFrame(s).value;
    StreamCanonical(body, known, -1);
    rs := RecordsOf(body);
    StreamAccepts(rs, known, -1);
    b := Frame(body);
  }

  /**
   * The reader in full: it returns `m` and leaves `rest` exactly when the input is a frame of
   * strictly increasing records, unknown types odd, whose known types are all present with the
   * values in `m`, followed by `rest`.
   */
  lemma ReadFieldsExact(s: seq<Byte>, known: set<U64>, m: Fields, rest: seq<Byte>)
    ensures ReadFields(s, known) == Parsed(m, rest)
            <==> exists b, rs :: FrameOf(b, rs, known, m) && s == b + rest
  {
    if ReadFields(s, known) == Parsed(m, rest) {
      var b, rs := FieldsSource(s, known);
    }
    if exists b, rs :: FrameOf(b, rs, known, m) && s == b + rest {
      var b, rs :| FrameOf(b, rs, known, m) && s == b + rest;
      FieldsAccept(b, rs, known, m, rest);
    }
  }

  /**
   * A frame around records that are out of order, repeat a type, carry an unknown even type or
   * miss a required type is rejected, whatever follows it.
   */
  lemma BadStreamRejected(rs: seq<Record>, known: set<U64>, s: seq<Byte>)
    requires |EncodeRecords(rs)| <= U64_MAX
    requires !WellFormed(rs, known) || exists t :: t in known && forall r :: r in rs ==> r.typ != t
    ensures ReadFields(Frame(EncodeRecords(rs)) + s, known).Malformed?
  {
    FrameRoundTrip(EncodeRecords(rs), s);
    StreamAccepts(rs, known, -1);
    if WellFormed(rs, known) {
      var t :| t in known && forall r :: r in rs ==> r.typ != t;
      var m := ReadStream(EncodeRecords(rs), known, -1);
      assert m.Some? ==> t !in m.value;
    }
  }
}
