/**
 * How one field value is laid out inside its TLV record. Each reader is paired with an `Image`
 * relation that says, without reading, which byte strings stand for a value.
 */
module FieldCodec {
  import opened Wrappers
  import opened Bytes
  import opened BigSize
  import opened Tlv
  import opened Records

  /** A record's value must be consumed to its last byte. */
  function Exact<T>(r: Parsed<T>): Option<T> {
    if r.Parsed? && r.rest == [] then Some(r.value) else None
  }

  function ReadFixed(s: seq<Byte>, width: nat): (r: Parsed<seq<Byte>>)
    ensures r.Parsed? ==> |r.value| == width
  {
    if |s| < width then Malformed else Parsed(s[..width], s[width..])
  }

  lemma FixedExact(v: seq<Byte>, width: nat, x: seq<Byte>)
    ensures Exact(ReadFixed(v, width)) == Some(x) <==> v == x && |x| == width
  {
    if |v| >= width {
      assert v == v[..width] + v[width..];
      assert |v| == width ==> v[..width] == v;
    }
  }

  // ----- Optional values: 0 for None, else length + 1 and the payload -----

  function EncodeOption(o: Option<seq<Byte>>): (bs: seq<Byte>)
    requires o.Some? ==> |o.value| < 0xFC
    ensures |bs| == match o case None => 1 case Some(x) => |x| + 1
  {
    match o
    case None => [0]
    case Some(x) => Encode(|x| + 1) + x
  }

  /** The payload reader sees at most `header - 1` bytes and takes `width` of them. */
  function ReadOption(s: seq<Byte>, width: nat): (r: Parsed<Option<seq<Byte>>>)
    ensures r.Parsed? && r.value.Some? ==> |r.value.value| == width
  {
    match Read(s)
    case Malformed => Malformed
    case Parsed(header, rest) =>
      if header == 0 then Parsed(None, rest)
      else if header - 1 < width || |rest| < width then Malformed
      else Parsed(Some(rest[..width]), rest[width..])
  }

  ghost predicate SomeImage(v: seq<Byte>, x: seq<Byte>, header: U64) {
    |x| + 1 <= header && v == Encode(header) + x
  }

  ghost predicate OptionImage(v: seq<Byte>, o: Option<seq<Byte>>, width: nat) {
    match o
    case None => v == [0]
    case Some(x) => |x| == width && exists header: U64 :: SomeImage(v, x, header)
  }

  lemma OptionExact(v: seq<Byte>, o: Option<seq<Byte>>, width: nat)
    ensures Exact(ReadOption(v, width)) == Some(o) <==> OptionImage(v, o, width)
  {
    if Exact(ReadOption(v, width)) == Some(o) {
      Canonical(v);
      var r := Read(v);
      if r.value != 0 {
        assert r.rest == r.rest[..width] + r.rest[width..];
        assert SomeImage(v, o.value, r.value);
      }
    }
    if OptionImage(v, o, width) {
      match o
      case None =>
        assert v == Encode(0) + [];
        RoundTrip(0, []);
      case Some(x) =>
        var header: U64 :| SomeImage(v, x, header);
        RoundTrip(header, x);
        assert x[..width] == x;
    }
  }

  lemma EncodeOptionImage(o: Option<seq<Byte>>, width: nat)
    requires o.Some? ==> |o.value| == width < 0xFC
    ensures OptionImage(EncodeOption(o), o, width)
  {
    if o.Some? {
      assert SomeImage(EncodeOption(o), o.value, width + 1);
    }
  }

  function AmountBytes(o: Option<U64>): (bs: Option<seq<Byte>>)
    ensures bs.Some? <==> o.Some?
    ensures bs.Some? ==> |bs.value| == 8
  {
    match o
    case None => None
    case Some(n) => Some(ToBigEndian(n, 8))
  }

  function EncodeAmount(o: Option<U64>): (bs: seq<Byte>)
    ensures |bs| <= 9
  {
    EncodeOption(AmountBytes(o))
  }

  function ReadAmount(s: seq<Byte>): Parsed<Option<U64>> {
    match ReadOption(s, 8)
    case Malformed => Malformed
    case Parsed(None, rest) => Parsed(None, rest)
    case Parsed(Some(bs), rest) => WideIsU64(bs); Parsed(Some(FromBigEndian(bs)), rest)
  }

  lemma AmountExact(v: seq<Byte>, o: Option<U64>)
    ensures Exact(ReadAmount(v)) == Some(o) <==> OptionImage(v, AmountBytes(o), 8)
  {
    WidthLimits();
    OptionExact(v, AmountBytes(o), 8);
    if o.Some? {
      BigEndianRoundTrip(o.value, 8);
    }
    var r := ReadOption(v, 8);
    if r.Parsed? && r.value.Some? {
      BigEndianCanonical(r.value.value);
    }
  }

  // ----- Enums: a variant byte, then a frame in which no type is known -----

  function EncodeTag(tag: Byte): (bs: seq<Byte>)
    ensures |bs| == 2
  {
    [tag] + Frame([])
  }

  function ReadTag(s: seq<Byte>): Parsed<Byte> {
    if s == [] then Malformed
    else
      match ReadFields(s[1..], {})
      case Malformed => Malformed
      case Parsed(_, rest) => Parsed(s[0], rest)
  }

  ghost predicate TagBody(v: seq<Byte>, tag: Byte, b: seq<Byte>, rs: seq<Record>) {
    v == [tag] + b && FrameOf(b, rs, {}, map[])
  }

  ghost predicate TagImage(v: seq<Byte>, tag: Byte) {
    exists b, rs :: TagBody(v, tag, b, rs)
  }

  lemma TagExact(v: seq<Byte>, tag: Byte)
    ensures Exact(ReadTag(v)) == Some(tag) <==> TagImage(v, tag)
  {
    if Exact(ReadTag(v)) == Some(tag) {
      var b, rs := FieldsSource(v[1..], {});
      assert ReadFields(v[1..], {}).value == map[] by {
        HoldsNothing(rs, ReadFields(v[1..], {}).value);
      }
      assert v == [v[0]] + v[1..] && v[1..] == b;
      assert TagBody(v, tag, b, rs);
    }
    if TagImage(v, tag) {
      var b, rs :| TagBody(v, tag, b, rs);
      FieldsAccept(b, rs, {}, map[], []);
      assert v[1..] == b + [];
    }
  }

  lemma HoldsNothing(rs: seq<Record>, m: Fields)
    requires Holds(rs, {}, m)
    ensures m == map[]
  {
    assert forall t :: t !in m;
  }

  lemma EncodeTagImage(tag: Byte)
    ensures TagImage(EncodeTag(tag), tag)
  {
    assert TagBody(EncodeTag(tag), tag, Frame([]), []);
  }

  function DirectionTag(d: PaymentDirection): Byte {
    match d
    case Inbound => 0
    case Outbound => 2
  }

  function DirectionOf(tag: Byte): Option<PaymentDirection> {
    if tag == 0 then Some(Inbound) else if tag == 2 then Some(Outbound) else None
  }

  function StatusTag(st: PaymentStatus): Byte {
    match st
    case Pending => 0
    case Succeeded => 2
    case Failed => 4
  }

  function StatusOf(tag: Byte): Option<PaymentStatus> {
    if tag == 0 then Some(Pending)
    else if tag == 2 then Some(Succeeded)
    else if tag == 4 then Some(Failed)
    else None
  }

  // ----- Socket addresses: BOLT #7, section "The node_announcement Message" -----

  function AddressTag(a: SocketAddress): Byte {
    match a
    case TcpIpV4(_, _) => 1
    case TcpIpV6(_, _) => 2
    case OnionV2(_) => 3
    case OnionV3(_, _, _, _) => 4
    case Hostname(_, _) => 5
  }

  /** The bytes after the type byte, followed by `s`. */
  function AddressBody(a: SocketAddress, s: seq<Byte>): (bs: seq<Byte>)
    ensures |bs| <= 258 + |s|
    ensures a.Hostname? ==> |bs| == |a.name| + 3 + |s|
  {
    match a
    case TcpIpV4(addr, port) => addr + (ToBigEndian(port, 2) + s)
    case TcpIpV6(addr, port) => addr + (ToBigEndian(port, 2) + s)
    case OnionV2(bytes) => bytes + s
    case OnionV3(key, checksum, version, port) =>
      key + (ToBigEndian(checksum, 2) + ([version] + (ToBigEndian(port, 2) + s)))
    case Hostname(name, port) => [|name|] + (name + (ToBigEndian(port, 2) + s))
  }

  function EncodeAddress(a: SocketAddress): (bs: seq<Byte>)
    ensures |bs| <= 259
    ensures a.Hostname? ==> |bs| == |a.name| + 4
  {
    [AddressTag(a)] + AddressBody(a, [])
  }

  lemma U16Bytes(n: U16)
    ensures ToBigEndian(n, 2) == [n / 256, n % 256]
  {
    assert ToBigEndian(n / 256, 1) == ToBigEndian(n / 256 / 256, 0) + [n / 256 % 256];
  }

  /** Every address form byte by byte: the type, the address, and the port with its high byte first. */
  lemma AddressLayout(a: SocketAddress)
    ensures EncodeAddress(a)
            == match a
               case TcpIpV4(addr, port) => [1] + addr + [port / 256, port % 256]
               case TcpIpV6(addr, port) => [2] + addr + [port / 256, port % 256]
               case OnionV2(bytes) => [3] + bytes
               case OnionV3(key, checksum, version, port) =>
                 [4] + key + [checksum / 256, checksum % 256, version, port / 256, port % 256]
               case Hostname(name, port) => [5, |name|] + name + [port / 256, port % 256]
  {
    if !a.OnionV2? {
      U16Bytes(a.port);
    }
    if a.OnionV3? {
      U16Bytes(a.checksum);
    }
  }

  function ReadU16(s: seq<Byte>): Parsed<U16> {
    if |s| < 2 then Malformed
    else WidthLimits(); Parsed(FromBigEndian(s[..2]), s[2..])
  }

  function ReadAddressBody(tag: Byte, s: seq<Byte>): Parsed<SocketAddress> {
    if tag == 1 then ReadV4(s)
    else if tag == 2 then ReadV6(s)
    else if tag == 3 then ReadOnionV2(s)
    else if tag == 4 then ReadOnionV3(s)
    else if tag == 5 then ReadHostname(s)
    else Malformed
  }

  function ReadAddress(s: seq<Byte>): Parsed<SocketAddress> {
    if s == [] then Malformed else ReadAddressBody(s[0], s[1..])
  }

  function ReadV4(s: seq<Byte>): Parsed<SocketAddress> {
    match ReadFixed(s, 4)
    case Malformed => Malformed
    case Parsed(addr, s') =>
      match ReadU16(s')
      case Malformed => Malformed
      case Parsed(port, rest) => Parsed(TcpIpV4(addr, port), rest)
  }

  function ReadV6(s: seq<Byte>): Parsed<SocketAddress> {
    match ReadFixed(s, 16)
    case Malformed => Malformed
    case Parsed(addr, s') =>
      match ReadU16(s')
      case Malformed => Malformed
      case Parsed(port, rest) => Parsed(TcpIpV6(addr, port), rest)
  }

  function ReadOnionV2(s: seq<Byte>): Parsed<SocketAddress> {
    match ReadFixed(s, 12)
    case Malformed => Malformed
    case Parsed(bytes, rest) => Parsed(OnionV2(bytes), rest)
  }

  function ReadOnionV3(s: seq<Byte>): Parsed<SocketAddress> {
    match ReadFixed(s, 32)
    case Malformed => Malformed
    case Parsed(key, s1) =>
      match ReadU16(s1)
      case Malformed => Malformed
      case Parsed(checksum, s2) =>
        if s2 == [] then Malformed
        else
          match ReadU16(s2[1..])
          case Malformed => Malformed
          case Parsed(port, rest) => Parsed(OnionV3(key, checksum, s2[0], port), rest)
  }

  function ReadHostname(s: seq<Byte>): Parsed<SocketAddress> {
    if s == [] then Malformed
    else
      match ReadFixed(s[1..], s[0])
      case Malformed => Malformed
      case Parsed(name, s') =>
        if !IsHostname(name) then Malformed
        else
          match ReadU16(s')
          case Malformed => Malformed
          case Parsed(port, rest) => Parsed(Hostname(name, port), rest)
  }

  lemma FixedRoundTrip(x: seq<Byte>, s: seq<Byte>)
    ensures ReadFixed(x + s, |x|) == Parsed(x, s)
  {
  }

  lemma U16RoundTrip(n: U16, s: seq<Byte>)
    ensures ReadU16(ToBigEndian(n, 2) + s) == Parsed(n, s)
  {
    WidthLimits();
    BigEndianRoundTrip(n, 2);
    assert (ToBigEndian(n, 2) + s)[..2] == ToBigEndian(n, 2);
  }

  // One lemma per address form: the body read back is the body written, and the converse.

  lemma V4RoundTrip(a: SocketAddress, s: seq<Byte>)
    requires a.TcpIpV4?
    ensures ReadV4(a.addr4 + (ToBigEndian(a.port, 2) + s)) == Parsed(a, s)
  {
    FixedRoundTrip(a.addr4, ToBigEndian(a.port, 2) + s);
    U16RoundTrip(a.port, s);
  }

  lemma V6RoundTrip(a: SocketAddress, s: seq<Byte>)
    requires a.TcpIpV6?
    ensures ReadV6(a.addr16 + (ToBigEndian(a.port, 2) + s)) == Parsed(a, s)
  {
    FixedRoundTrip(a.addr16, ToBigEndian(a.port, 2) + s);
    U16RoundTrip(a.port, s);
  }

  lemma OnionV3RoundTrip(a: SocketAddress, s: seq<Byte>)
    requires a.OnionV3?
    ensures ReadOnionV3(a.ed25519
              + (ToBigEndian(a.checksum, 2) + ([a.version] + (ToBigEndian(a.port, 2) + s)))) == Parsed(a, s)
  {
    var last := ToBigEndian(a.port, 2) + s;
    FixedRoundTrip(a.ed25519, ToBigEndian(a.checksum, 2) + ([a.version] + last));
    U16RoundTrip(a.checksum, [a.version] + last);
    assert ([a.version] + last)[1..] == last;
    U16RoundTrip(a.port, s);
  }

  lemma HostnameRoundTrip(a: SocketAddress, s: seq<Byte>)
    requires a.Hostname?
    ensures ReadHostname([|a.name|] + (a.name + (ToBigEndian(a.port, 2) + s))) == Parsed(a, s)
  {
    var tail := a.name + (ToBigEndian(a.port, 2) + s);
    assert ([|a.name|] + tail)[1..] == tail;
    FixedRoundTrip(a.name, ToBigEndian(a.port, 2) + s);
    U16RoundTrip(a.port, s);
  }

  lemma V4Canonical(s: seq<Byte>)
    requires ReadV4(s).Parsed?
    ensures var r := ReadV4(s);
            r.value.TcpIpV4? && s == r.value.addr4 + (ToBigEndian(r.value.port, 2) + r.rest)
  {
    FixedCanonical(s, 4);
    U16Canonical(s[4..]);
  }

  lemma V6Canonical(s: seq<Byte>)
    requires ReadV6(s).Parsed?
    ensures var r := ReadV6(s);
            r.value.TcpIpV6? && s == r.value.addr16 + (ToBigEndian(r.value.port, 2) + r.rest)
  {
    FixedCanonical(s, 16);
    U16Canonical(s[16..]);
  }

  lemma OnionV3Canonical(s: seq<Byte>)
    requires ReadOnionV3(s).Parsed?
    ensures var r := ReadOnionV3(s); var a := r.value;
            a.OnionV3? && s == a.ed25519
              + (ToBigEndian(a.checksum, 2) + ([a.version] + (ToBigEndian(a.port, 2) + r.rest)))
  {
    FixedCanonical(s, 32);
    U16Canonical(s[32..]);
    var tail := s[32..][2..];
    assert tail == [tail[0]] + tail[1..];
    U16Canonical(tail[1..]);
  }

  lemma HostnameCanonical(s: seq<Byte>)
    requires ReadHostname(s).Parsed?
    ensures var r := ReadHostname(s); var a := r.value;
            a.Hostname? && s == [|a.name|] + (a.name + (ToBigEndian(a.port, 2) + r.rest))
  {
    assert s == [s[0]] + s[1..];
    FixedCanonical(s[1..], s[0]);
    U16Canonical(s[1..][s[0]..]);
  }

  lemma AddressSplit(a: SocketAddress, s: seq<Byte>)
    ensures AddressBody(a, []) + s == AddressBody(a, s)
  {
  }

  lemma AddressBodyRoundTrip(a: SocketAddress, s: seq<Byte>)
    ensures ReadAddressBody(AddressTag(a), AddressBody(a, s)) == Parsed(a, s)
  {
    match a
    case TcpIpV4(_, _) => V4RoundTrip(a, s);
    case TcpIpV6(_, _) => V6RoundTrip(a, s);
    case OnionV2(bytes) => FixedRoundTrip(bytes, s);
    case OnionV3(_, _, _, _) => OnionV3RoundTrip(a, s);
    case Hostname(_, _) => HostnameRoundTrip(a, s);
  }

  lemma AddressRoundTrip(a: SocketAddress, s: seq<Byte>)
    ensures ReadAddress(EncodeAddress(a) + s) == Parsed(a, s)
  {
    AddressSplit(a, s);
    ByteBefore(AddressTag(a), AddressBody(a, []), s);
    AddressBodyRoundTrip(a, s);
  }

  lemma ByteBefore(b: Byte, body: seq<Byte>, s: seq<Byte>)
    ensures ([b] + body + s)[0] == b && ([b] + body + s)[1..] == body + s
  {
  }

  lemma FixedCanonical(s: seq<Byte>, width: nat)
    requires ReadFixed(s, width).Parsed?
    ensures s == ReadFixed(s, width).value + ReadFixed(s, width).rest
  {
  }

  lemma U16Canonical(s: seq<Byte>)
    requires ReadU16(s).Parsed?
    ensures s == ToBigEndian(ReadU16(s).value, 2) + ReadU16(s).rest
  {
    BigEndianCanonical(s[..2]);
    assert s == s[..2] + s[2..];
  }

  lemma AddressBodyCanonical(tag: Byte, s: seq<Byte>)
    requires ReadAddressBody(tag, s).Parsed?
    ensures var r := ReadAddressBody(tag, s);
            AddressTag(r.value) == tag && s == AddressBody(r.value, r.rest)
  {
    if tag == 1 {
      V4Canonical(s);
    } else if tag == 2 {
      V6Canonical(s);
    } else if tag == 3 {
      FixedCanonical(s, 12);
    } else if tag == 4 {
      OnionV3Canonical(s);
    } else {
      HostnameCanonical(s);
    }
  }

  /** An address has one encoding only. */
  lemma AddressCanonical(s: seq<Byte>)
    requires ReadAddress(s).Parsed?
    ensures s == EncodeAddress(ReadAddress(s).value) + ReadAddress(s).rest
  {
    var r := ReadAddress(s);
    AddressBodyCanonical(s[0], s[1..]);
    AddressSplit(r.value, r.rest);
    ByteThenRest(s, AddressBody(r.value, []), r.rest);
  }

  lemma ByteThenRest(s: seq<Byte>, body: seq<Byte>, rest: seq<Byte>)
    requires s != [] && s[1..] == body + rest
    ensures s == [s[0]] + body + rest
  {
    assert s == [s[0]] + s[1..];
  }

  lemma AddressExact(v: seq<Byte>, a: SocketAddress)
    ensures Exact(ReadAddress(v)) == Some(a) <==> v == EncodeAddress(a)
  {
    AddressRoundTrip(a, []);
    assert EncodeAddress(a) + [] == EncodeAddress(a);
    if Exact(ReadAddress(v)) == Some(a) {
      AddressCanonical(v);
    }
  }
}
