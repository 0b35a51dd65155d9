/** The variable-width integer of BOLT #1, section "Fundamental Types". */
module BigSize {
  import opened Bytes

  /** What a reader returns: a value and the bytes it left unread, or a rejection. */
  datatype Parsed<+T> = Parsed(value: T, rest: seq<Byte>) | Malformed

  function Encode(n: U64): (bs: seq<Byte>)
    ensures |bs| == if n < 0xFD then 1 else if n < 0x1_0000 then 3 else if n < 0x1_0000_0000 then 5 else 9
  {
    if n < 0xFD then [n]
    else if n < 0x1_0000 then [0xFD] + ToBigEndian(n, 2)
    else if n < 0x1_0000_0000 then [0xFE] + ToBigEndian(n, 4)
    else [0xFF] + ToBigEndian(n, 8)
  }

  /** Takes `width` bytes after the marker; a value below `least` had a shorter form. */
  function ReadWide(s: seq<Byte>, width: nat, least: nat): (r: Parsed<U64>)
    requires width <= 8
    ensures r.Parsed? ==> |r.rest| == |s| - width
  {
    if |s| < width then Malformed
    else
      var n := FromBigEndian(s[..width]);
      WideIsU64(s[..width]);
      if n < least then Malformed else Parsed(n, s[width..])
  }

  function Read(s: seq<Byte>): (r: Parsed<U64>)
    ensures r.Parsed? ==> |r.rest| < |s|
  {
    if s == [] then Malformed
    else if s[0] == 0xFF then ReadWide(s[1..], 8, 0x1_0000_0000)
    else if s[0] == 0xFE then ReadWide(s[1..], 4, 0x1_0000)
    else if s[0] == 0xFD then ReadWide(s[1..], 2, 0xFD)
    else Parsed(s[0], s[1..])
  }

  lemma {:induction false} PowMonotonic(a: nat, b: nat)
    requires a <= b
    ensures Pow256(a) <= Pow256(b)
  {
    if a < b {
      PowMonotonic(a, b - 1);
    }
  }

  lemma WideIsU64(bs: seq<Byte>)
    requires |bs| <= 8
    ensures FromBigEndian(bs) <= U64_MAX
  {
    PowMonotonic(|bs|, 8);
    WidthLimits();
  }

  lemma WideRoundTrip(n: U64, width: nat, least: nat, s: seq<Byte>)
    requires width <= 8 && least <= n < Pow256(width)
    ensures ReadWide(ToBigEndian(n, width) + s, width, least) == Parsed(n, s)
  {
    BigEndianRoundTrip(n, width);
    var all := ToBigEndian(n, width) + s;
    assert all[..width] == ToBigEndian(n, width) && all[width..] == s;
  }

  lemma RoundTrip(n: U64, s: seq<Byte>)
    ensures Read(Encode(n) + s) == Parsed(n, s)
  {
    WidthLimits();
    var all := Encode(n) + s;
    assert all[1..] == Encode(n)[1..] + s;
    if n >= 0x1_0000_0000 {
      WideRoundTrip(n, 8, 0x1_0000_0000, s);
    } else if n >= 0x1_0000 {
      WideRoundTrip(n, 4, 0x1_0000, s);
    } else if n >= 0xFD {
      WideRoundTrip(n, 2, 0xFD, s);
    }
  }

  lemma WideCanonical(s: seq<Byte>, width: nat, least: nat)
    requires width <= 8 && ReadWide(s, width, least).Parsed?
    ensures var r := ReadWide(s, width, least);
            s == ToBigEndian(r.value, width) + r.rest && least <= r.value < Pow256(width)
  {
    BigEndianCanonical(s[..width]);
    assert s == s[..width] + s[width..];
  }

  /** Only the minimal form is accepted: re-encoding restores the bytes consumed. */
  lemma Canonical(s: seq<Byte>)
    requires Read(s).Parsed?
    ensures s == Encode(Read(s).value) + Read(s).rest
  {
    WidthLimits();
    assert s == [s[0]] + s[1..];
    if s[0] == 0xFF {
      WideCanonical(s[1..], 8, 0x1_0000_0000);
    } else if s[0] == 0xFE {
      WideCanonical(s[1..], 4, 0x1_0000);
    } else if s[0] == 0xFD {
      WideCanonical(s[1..], 2, 0xFD);
    }
  }

  lemma MoreDigits(n: nat, width: nat, bs: seq<Byte>, d: Byte)
    requires ToBigEndian(n, width) == bs
    ensures ToBigEndian(256 * n + d, width + 1) == bs + [d]
  {
  }

  lemma NineByteVectors()
    ensures ToBigEndian(0x1_0000_0000, 8) == [0, 0, 0, 1, 0, 0, 0, 0]
    ensures ToBigEndian(U64_MAX, 8) == [0xFF, 0xFF, 0xFF, 0xFF, 0xFF, 0xFF, 0xFF, 0xFF]
  {
    MoreDigits(0, 3, [0, 0, 0], 1);
    MoreDigits(0x1, 4, [0, 0, 0, 1], 0);
    MoreDigits(0x100, 5, [0, 0, 0, 1, 0], 0);
    MoreDigits(0x1_0000, 6, [0, 0, 0, 1, 0, 0], 0);
    MoreDigits(0x100_0000, 7, [0, 0, 0, 1, 0, 0, 0], 0);
    MoreDigits(0xFFFF, 2, [0xFF, 0xFF], 0xFF);
    MoreDigits(0xFF_FFFF, 3, [0xFF, 0xFF, 0xFF], 0xFF);
    MoreDigits(0xFFFF_FFFF, 4, [0xFF, 0xFF, 0xFF, 0xFF], 0xFF);
    MoreDigits(0xFF_FFFF_FFFF, 5, [0xFF, 0xFF, 0xFF, 0xFF, 0xFF], 0xFF);
    MoreDigits(0xFFFF_FFFF_FFFF, 6, [0xFF, 0xFF, 0xFF, 0xFF, 0xFF, 0xFF], 0xFF);
    MoreDigits(0xFF_FFFF_FFFF_FFFF, 7, [0xFF, 0xFF, 0xFF, 0xFF, 0xFF, 0xFF, 0xFF], 0xFF);
  }

  /** Boundary values, as in BOLT #1, "Appendix A: BigSize Test Vectors". */
  lemma TestVectors()
    ensures Encode(0) == [0] && Encode(252) == [0xFC]
    ensures Encode(253) == [0xFD, 0x00, 0xFD] && Encode(65535) == [0xFD, 0xFF, 0xFF]
    ensures Encode(65536) == [0xFE, 0x00, 0x01, 0x00, 0x00]
    ensures Encode(4294967295) == [0xFE, 0xFF, 0xFF, 0xFF, 0xFF]
    ensures Encode(4294967296) == [0xFF, 0x00, 0x00, 0x00, 0x01, 0x00, 0x00, 0x00, 0x00]
    ensures Encode(U64_MAX) == [0xFF, 0xFF, 0xFF, 0xFF, 0xFF, 0xFF, 0xFF, 0xFF, 0xFF]
  {
    NineByteVectors();
  }
}
