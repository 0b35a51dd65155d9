/**
 * The mutable writer and cursor that records are printed to and parsed from, and the byte-by-byte
 * procedures over them. Each is tied to the function that says what it reads or writes.
 */
module Streams {
  import opened Wrappers
  import opened Bytes
  import opened BigSize
  import opened Tlv
  import opened Records
  import PaymentCodec
  import PeerCodec

  class Writer {
    var bytes: seq<Byte>

    constructor ()
      ensures bytes == []
    {
      bytes := [];
    }

    method WriteAll(bs: seq<Byte>)
      modifies this
      ensures bytes == old(bytes) + bs
    {
      bytes := bytes + bs;
    }
  }

  class Reader {
    const data: seq<Byte>
    var pos: nat

    predicate Valid()
      reads this
    {
      pos <= |data|
    }

    /** The bytes still to be read. */
    function Rest(): seq<Byte>
      requires Valid()
      reads this
    {
      data[pos..]
    }

    constructor (data: seq<Byte>)
      ensures Valid() && Rest() == data
    {
      this.data := data;
      pos := 0;
    }

    method ReadExact(n: nat) returns (r: Option<seq<Byte>>)
      requires Valid()
      modifies this
      ensures Valid()
      ensures r == if n <= |old(Rest())| then Some(old(Rest())[..n]) else None
      ensures r.Some? ==> Rest() == old(Rest())[n..]
    {
      if |data| - pos < n {
        return None;
      }
      r := Some(data[pos..pos + n]);
      assert r.value == Rest()[..n] && data[pos + n..] == Rest()[n..];
      pos := pos + n;
    }
  }

  /** `got` and the cursor left at `rest` are what `spec` says; a rejection leaves it anywhere. */
  ghost predicate Agrees<T>(got: Option<T>, rest: seq<Byte>, spec: Parsed<T>) {
    match spec
    case Malformed => got.None?
    case Parsed(v, s) => got == Some(v) && rest == s
  }

  // ----- Reading -----

  method ReadBigSize(r: Reader) returns (n: Option<U64>)
    requires r.Valid()
    modifies r
    ensures r.Valid() && Agrees(n, r.Rest(), Read(old(r.Rest())))
  {
    var marker := r.ReadExact(1);
    if marker.None? {
      return None;
    }
    var first := marker.value[0];
    if first < 0xFD {
      return Some(first);
    }
    var width, least := 8, 0x1_0000_0000;
    if first == 0xFD {
      width, least := 2, 0xFD;
    } else if first == 0xFE {
      width, least := 4, 0x1_0000;
    }
    var wide := r.ReadExact(width);
    if wide.None? {
      return None;
    }
    WideIsU64(wide.value);
    var value := FromBigEndian(wide.value);
    n := if value < least then None else Some(value);
  }

  method ReadLengthPrefixed(r: Reader) returns (body: Option<Payload>)
    requires r.Valid()
    modifies r
    ensures r.Valid() && Agrees(body, r.Rest(), ReadFrame(old(r.Rest())))
  {
    var len := ReadBigSize(r);
    if len.None? {
      return None;
    }
    var bytes := r.ReadExact(len.value);
    match bytes
    case None => body := None;
    case Some(bs) => body := Some(bs);
  }

  method NextRecord(r: Reader) returns (rec: Option<Record>)
    requires r.Valid()
    modifies r
    ensures r.Valid() && Agrees(rec, r.Rest(), ReadRecord(old(r.Rest())))
  {
    var typ := ReadBigSize(r);
    if typ.None? {
      return None;
    }
    var value := ReadLengthPrefixed(r);
    match value
    case None => rec := None;
    case Some(v) => rec := Some(Record(typ.value, v));
  }

  /** Fields gathered so far, joined with those of the rest of the stream. */
  ghost function Join(m: Fields, tail: Option<Fields>): Option<Fields> {
    match tail
    case None => None
    case Some(m') => Some(m + m')
  }

  lemma JoinStep(m: Fields, s: seq<Byte>, known: set<U64>, last: int)
    requires s != [] && ReadRecord(s).Parsed?
    requires Admissible(ReadRecord(s).value, known, last)
    ensures var r := ReadRecord(s);
            Join(m, ReadStream(s, known, last))
            == Join(m + Keep(r.value, known), ReadStream(r.rest, known, r.value.typ))
  {
    var r := ReadRecord(s);
    var tail := ReadStream(r.rest, known, r.value.typ);
    if tail.Some? {
      assert m + (Keep(r.value, known) + tail.value) == m + Keep(r.value, known) + tail.value;
    }
  }

  lemma JoinStop(m: Fields, s: seq<Byte>, known: set<U64>, last: int)
    requires s != []
    requires ReadRecord(s).Malformed? || !Admissible(ReadRecord(s).value, known, last)
    ensures Join(m, ReadStream(s, known, last)) == None
  {
  }

  lemma JoinEnd(m: Fields, known: set<U64>, last: int)
    ensures Join(m, ReadStream([], known, last)) == Some(m)
  {
    assert m + map[] == m;
  }

  lemma JoinStart(o: Option<Fields>)
    ensures Join(map[], o) == o
  {
    if o.Some? {
      assert map[] + o.value == o.value;
    }
  }

  /** The decoder loop: one record per iteration, remembering the last type seen. */
  method DecodeStream(r: Reader, known: set<U64>) returns (fields: Option<Fields>)
    requires r.Valid()
    modifies r
    ensures r.Valid() && fields == ReadStream(old(r.Rest()), known, -1)
  {
    var gathered: Fields := map[];
    var last: int := -1;
    ghost var goal := ReadStream(r.Rest(), known, -1);
    JoinStart(goal);
    while r.pos < |r.data|
      invariant r.Valid()
      invariant goal == Join(gathered, ReadStream(r.Rest(), known, last))
      decreases |r.Rest()|
    {
      ghost var before := r.Rest();
      var next := NextRecord(r);
      if next.None? || !Admissible(next.value, known, last) {
        JoinStop(gathered, before, known, last);
        return None;
      }
      JoinStep(gathered, before, known, last);
      gathered := gathered + Keep(next.value, known);
      last := next.value.typ;
    }
    assert r.Rest() == [];
    JoinEnd(gathered, known, last);
    fields := Some(gathered);
  }

  method DecodeFields(r: Reader, known: set<U64>) returns (fields: Option<Fields>)
    requires r.Valid()
    modifies r
    ensures r.Valid() && Agrees(fields, r.Rest(), ReadFields(old(r.Rest()), known))
  {
    var body := ReadLengthPrefixed(r);
    if body.None? {
      return None;
    }
    var inner := new Reader(body.value);
    fields := DecodeStream(inner, known);
    if fields.Some? && !(known <= fields.value.Keys) {
      fields := None;
    }
  }

  method ReadPayment(r: Reader) returns (p: Option<Payment>)
    requires r.Valid()
    modifies r
    ensures r.Valid() && Agrees(p, r.Rest(), PaymentCodec.ReadPayment(old(r.Rest())))
  {
    var fields := DecodeFields(r, PaymentCodec.TYPES);
    if fields.None? {
      return None;
    }
    p := PaymentCodec.PaymentOf(fields.value);
  }

  method ReadPeer(r: Reader) returns (p: Option<PeerInfo>)
    requires r.Valid()
    modifies r
    ensures r.Valid() && Agrees(p, r.Rest(), PeerCodec.ReadPeer(old(r.Rest())))
  {
    var fields := DecodeFields(r, PeerCodec.TYPES);
    if fields.None? {
      return None;
    }
    p := PeerCodec.PeerOf(fields.value);
  }

  // ----- Writing -----

  lemma {:induction false} EncodeAppend(rs: seq<Record>, r: Record)
    ensures EncodeRecords(rs + [r]) == EncodeRecords(rs) + EncodeRecord(r)
  {
    if rs == [] {
      assert rs + [r] == [r];
    } else {
      assert (rs + [r])[0] == rs[0] && (rs + [r])[1..] == rs[1..] + [r];
      EncodeAppend(rs[1..], r);
    }
  }

  lemma EncodeTake(rs: seq<Record>, i: nat)
    requires i < |rs|
    ensures EncodeRecords(rs[..i + 1]) == EncodeRecords(rs[..i]) + EncodeRecord(rs[i])
  {
    var done, next := rs[..i], rs[i];
    assert rs[..i + 1] == done + [next];
    EncodeAppend(done, next);
  }

  method AppendRecord(w: Writer, r: Record)
    modifies w
    ensures w.bytes == old(w.bytes) + EncodeRecord(r)
  {
    w.WriteAll(Encode(r.typ));
    w.WriteAll(Encode(|r.value|));
    w.WriteAll(r.value);
  }

  method StreamSize(rs: seq<Record>) returns (total: nat)
    ensures total == |EncodeRecords(rs)|
  {
    total := 0;
    for i := 0 to |rs|
      invariant total == |EncodeRecords(rs[..i])|
    {
      EncodeTake(rs, i);
      total := total + |EncodeRecord(rs[i])|;
    }
    assert rs[..|rs|] == rs;
  }

  ghost function Written(start: seq<Byte>, rs: seq<Record>): seq<Byte> {
    start + EncodeRecords(rs)
  }

  lemma WrittenStep(start: seq<Byte>, rs: seq<Record>, i: nat)
    requires i < |rs|
    ensures Written(start, rs[..i + 1]) == Written(start, rs[..i]) + EncodeRecord(rs[i])
  {
    EncodeTake(rs, i);
    Regroup(start, EncodeRecords(rs[..i]), EncodeRecord(rs[i]));
  }

  lemma Regroup(a: seq<Byte>, b: seq<Byte>, c: seq<Byte>)
    ensures a + (b + c) == a + b + c
  {
  }

  method WriteRecords(w: Writer, rs: seq<Record>)
    modifies w
    ensures w.bytes == Written(old(w.bytes), rs)
  {
    ghost var start := w.bytes;
    var i := 0;
    while i < |rs|
      invariant 0 <= i <= |rs|
      invariant w.bytes == Written(start, rs[..i])
    {
      WrittenStep(start, rs, i);
      AppendRecord(w, rs[i]);
      i := i + 1;
    }
    assert rs[..i] == rs;
  }

  /** The length prefix, then each record in order. */
  method WriteFields(w: Writer, rs: seq<Record>)
    requires |EncodeRecords(rs)| <= U64_MAX
    modifies w
    ensures w.bytes == old(w.bytes) + Frame(EncodeRecords(rs))
  {
    var total := StreamSize(rs);
    w.WriteAll(Encode(total));
    WriteRecords(w, rs);
    Regroup(old(w.bytes), Encode(total), EncodeRecords(rs));
  }

  method WritePayment(w: Writer, p: Payment)
    modifies w
    ensures w.bytes == old(w.bytes) + PaymentCodec.EncodePayment(p)
  {
    StreamLength(PaymentCodec.FieldRecords(p));
    WriteFields(w, PaymentCodec.FieldRecords(p));
  }

  method WritePeer(w: Writer, p: PeerInfo)
    modifies w
    ensures w.bytes == old(w.bytes) + PeerCodec.EncodePeer(p)
  {
    StreamLength(PeerCodec.FieldRecords(p));
    WriteFields(w, PeerCodec.FieldRecords(p));
  }
}
