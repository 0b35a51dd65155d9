/** Bytes, fixed-width big-endian integers and the hex text used for file names. */
module Bytes {
  import opened Wrappers

  type Byte = b: int | 0 <= b < 256

  const U64_MAX: int := 0xFFFF_FFFF_FFFF_FFFF

  type U64 = n: int | 0 <= n <= 0xFFFF_FFFF_FFFF_FFFF

  /** 256 to the power `width`: the number of values of a `width`-byte integer. */
  function Pow256(width: nat): (p: nat)
    ensures p > 0
  {
    if width == 0 then 1 else 256 * Pow256(width - 1)
  }

  lemma WidthLimits()
    ensures Pow256(2) == 0x1_0000
    ensures Pow256(4) == 0x1_0000_0000
    ensures Pow256(8) == U64_MAX + 1
  {
    assert Pow256(2) == 256 * Pow256(1) == 0x1_0000;
    assert Pow256(4) == 256 * Pow256(3) == 256 * (256 * Pow256(2));
    assert Pow256(6) == 256 * Pow256(5) == 256 * (256 * Pow256(4));
    assert Pow256(8) == 256 * Pow256(7) == 256 * (256 * Pow256(6));
  }

  /** The low `width` bytes of `n`, most significant first. */
  function ToBigEndian(n: nat, width: nat): (bs: seq<Byte>)
    ensures |bs| == width
  {
    if width == 0 then [] else ToBigEndian(n / 256, width - 1) + [n % 256]
  }

  function FromBigEndian(bs: seq<Byte>): (n: nat)
    ensures n < Pow256(|bs|)
  {
    if bs == [] then 0 else FromBigEndian(bs[..|bs| - 1]) * 256 + bs[|bs| - 1]
  }

  lemma {:induction false} BigEndianRoundTrip(n: nat, width: nat)
    requires n < Pow256(width)
    ensures FromBigEndian(ToBigEndian(n, width)) == n
  {
    if width > 0 {
      BigEndianRoundTrip(n / 256, width - 1);
      assert ToBigEndian(n, width)[..width - 1] == ToBigEndian(n / 256, width - 1);
    }
  }

  lemma {:induction false} BigEndianCanonical(bs: seq<Byte>)
    ensures ToBigEndian(FromBigEndian(bs), |bs|) == bs
  {
    if bs != [] {
      BigEndianCanonical(bs[..|bs| - 1]);
      assert bs == bs[..|bs| - 1] + [bs[|bs| - 1]];
    }
  }

  /** The first byte is the most significant one. */
  lemma {:induction false} MostSignificantFirst(b: Byte, bs: seq<Byte>)
    ensures FromBigEndian([b] + bs) == b * Pow256(|bs|) + FromBigEndian(bs)
  {
    if bs == [] {
      assert [b] + bs == [b] && [b][..0] == [];
    } else {
      var init, last := bs[..|bs| - 1], bs[|bs| - 1];
      MostSignificantFirst(b, init);
      assert ([b] + bs)[..|bs|] == [b] + init;
      ShiftUp(b, Pow256(|init|), FromBigEndian(init), last);
    }
  }

  lemma ShiftUp(b: int, p: int, n: int, last: int)
    ensures (b * p + n) * 256 + last == b * (256 * p) + (n * 256 + last)
  {
  }

  // ----- Hex text -----

  function HexDigit(n: int): char
    requires 0 <= n < 16
  {
    if n < 10 then ('0' as int + n) as char else ('a' as int + n - 10) as char
  }

  /** The value of a hex digit; decoding accepts both letter cases. */
  function HexValue(c: char): (v: Option<int>)
    ensures v.Some? ==> 0 <= v.value < 16
  {
    if '0' <= c <= '9' then Some(c as int - '0' as int)
    else if 'a' <= c <= 'f' then Some(c as int - 'a' as int + 10)
    else if 'A' <= c <= 'F' then Some(c as int - 'A' as int + 10)
    else None
  }

  function Hex(bs: seq<Byte>): (s: string)
    ensures |s| == 2 * |bs|
  {
    if bs == [] then "" else HexPair(bs[0]) + Hex(bs[1..])
  }

  function HexPair(b: Byte): (s: string)
    ensures |s| == 2
  {
    [HexDigit(b / 16), HexDigit(b % 16)]
  }

  function UnhexPair(s: string): Option<Byte>
    requires |s| == 2
  {
    match (HexValue(s[0]), HexValue(s[1]))
    case (Some(hi), Some(lo)) => Some(16 * hi + lo)
    case _ => None
  }

  /** Fails on an odd length and on any character that is not a hex digit. */
  function Unhex(s: string): Option<seq<Byte>>
  {
    if s == "" then Some([])
    else if |s| == 1 then None
    else
      match (UnhexPair(s[..2]), Unhex(s[2..]))
      case (Some(b), Some(bs)) => Some([b] + bs)
      case _ => None
  }

  function LowerHexChar(c: char): char {
    if 'A' <= c <= 'F' then (c as int - 'A' as int + 'a' as int) as char else c
  }

  function LowerHex(s: string): string {
    seq(|s|, i requires 0 <= i < |s| => LowerHexChar(s[i]))
  }

  lemma HexDigitValue(n: int)
    requires 0 <= n < 16
    ensures HexValue(HexDigit(n)) == Some(n)
  {
  }

  lemma HexValueDigit(c: char)
    requires HexValue(c).Some?
    ensures HexDigit(HexValue(c).value) == LowerHexChar(c)
  {
  }

  lemma PairRoundTrip(b: Byte)
    ensures UnhexPair(HexPair(b)) == Some(b)
  {
    var hi, lo := b / 16, b % 16;
    HexDigitValue(hi);
    HexDigitValue(lo);
  }

  lemma PairDigits(hi: int, lo: int)
    requires 0 <= hi < 16 && 0 <= lo < 16
    ensures HexPair(16 * hi + lo) == [HexDigit(hi), HexDigit(lo)]
  {
  }

  lemma CharsSound(c: char, d: char)
    requires HexValue(c).Some? && HexValue(d).Some?
    ensures HexPair(16 * HexValue(c).value + HexValue(d).value) == [LowerHexChar(c), LowerHexChar(d)]
  {
    PairDigits(HexValue(c).value, HexValue(d).value);
    HexValueDigit(c);
    HexValueDigit(d);
  }

  lemma LowerPair(s: string)
    requires |s| == 2
    ensures LowerHex(s) == [LowerHexChar(s[0]), LowerHexChar(s[1])]
  {
  }

  lemma PairSound(s: string)
    requires |s| == 2 && UnhexPair(s).Some?
    ensures HexPair(UnhexPair(s).value) == LowerHex(s)
  {
    CharsSound(s[0], s[1]);
    LowerPair(s);
  }

  lemma {:induction false} HexRoundTrip(bs: seq<Byte>)
    ensures Unhex(Hex(bs)) == Some(bs)
  {
    if bs != [] {
      HexRoundTrip(bs[1..]);
      UnhexCons(bs[0], Hex(bs[1..]));
      assert bs == [bs[0]] + bs[1..];
    }
  }

  lemma DigitAt(n: int)
    requires 0 <= n < 16
    ensures HexDigit(n) == "0123456789abcdef"[n]
  {
    assert HexDigit(n) as int == if n < 10 then 48 + n else 87 + n;
  }

  /** Two lower-case digits a byte, the high half first. */
  lemma {:induction false} HexAt(bs: seq<Byte>, k: nat)
    requires k < |bs|
    ensures Hex(bs)[2 * k] == "0123456789abcdef"[bs[k] / 16]
    ensures Hex(bs)[2 * k + 1] == "0123456789abcdef"[bs[k] % 16]
  {
    if k > 0 {
      HexAt(bs[1..], k - 1);
      assert bs[1..][k - 1] == bs[k];
    } else {
      DigitAt(bs[0] / 16);
      DigitAt(bs[0] % 16);
    }
  }

  lemma UnhexCons(b: Byte, tail: string)
    requires Unhex(tail).Some?
    ensures Unhex(HexPair(b) + tail) == Some([b] + Unhex(tail).value)
  {
    PairRoundTrip(b);
    var s := HexPair(b) + tail;
    assert s[..2] == HexPair(b) && s[2..] == tail;
  }

  /** Whatever text decodes to `bs` is the encoding of `bs` up to letter case. */
  lemma {:induction false} HexDecodeSound(s: string)
    requires Unhex(s).Some?
    ensures Hex(Unhex(s).value) == LowerHex(s)
  {
    if s != "" {
      HexDecodeSound(s[2..]);
      PairSound(s[..2]);
      HexCons(UnhexPair(s[..2]).value, Unhex(s[2..]).value);
      LowerHexSplit(s);
    }
  }

  lemma HexCons(b: Byte, tail: seq<Byte>)
    ensures Hex([b] + tail) == HexPair(b) + Hex(tail)
  {
    assert ([b] + tail)[1..] == tail;
  }

  lemma LowerHexSplit(s: string)
    requires |s| >= 2
    ensures LowerHex(s) == LowerHex(s[..2]) + LowerHex(s[2..])
  {
  }

  lemma HexInjective(a: seq<Byte>, b: seq<Byte>)
    requires Hex(a) == Hex(b)
    ensures a == b
  {
    HexRoundTrip(a);
    HexRoundTrip(b);
  }
}
