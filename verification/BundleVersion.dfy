/**
 The fixed eight-byte bundle header, in its binary form (v1) and its
 hexadecimal text form (v0).

 Shifts are written as divisions and products, masks as remainders and ors as
 sums; `MakeV1Bits` and `ReadV1Bits` show that the bits are the same.
 */
module BundleVersion {
  import opened Octets
  import opened JsonReader
  import opened Bits

  const HEADER_LENGTH := 8

  type Word = n: nat | n < 0x1_0000_0000

  datatype BundleHeader = BundleHeader(sendIdLen: int, destIdLen: int, messageCount: int, remLen: Word)

  // ---------- v1 ----------

  function MakeV1(h: BundleHeader): (s: Bytes)
    ensures |s| == HEADER_LENGTH
  {
    [ByteOf(1), ByteOf(h.sendIdLen % 256), ByteOf(h.destIdLen % 256), ByteOf(h.messageCount % 256),
     ByteOf(h.remLen / 0x100_0000 % 256), ByteOf(h.remLen / 0x1_0000 % 256),
     ByteOf(h.remLen / 0x100 % 256), ByteOf(h.remLen % 256)]
  }

  function ReadV1(s: Bytes): Result<BundleHeader>
    requires |s| == HEADER_LENGTH
  {
    if s[0] as int != 1 then Raised(BadVersion)
    else Ok(BundleHeader(s[1] as int, s[2] as int, s[3] as int,
                         s[4] as int * 0x100_0000 + s[5] as int * 0x1_0000 + s[6] as int * 0x100 + s[7] as int))
  }

  /** The header as its receiver sees it: the three small fields keep only their low byte. */
  function Narrow(h: BundleHeader): BundleHeader {
    BundleHeader(h.sendIdLen % 256, h.destIdLen % 256, h.messageCount % 256, h.remLen)
  }

  lemma Base256(n: Word)
    ensures n / 0x100_0000 % 256 * 0x100_0000 + n / 0x1_0000 % 256 * 0x1_0000 + n / 0x100 % 256 * 0x100 + n % 256 == n
  {
    var a, b, c := n / 256, n / 0x1_0000, n / 0x100_0000;
    assert b == a / 256 && c == b / 256;
    assert n == a * 256 + n % 256 && a == b * 256 + a % 256 && b == c * 256 + b % 256 && c % 256 == c;
  }

  /** Reading what was made returns the narrowed header, for every header. */
  lemma V1ReadMake(h: BundleHeader)
    ensures ReadV1(MakeV1(h)) == Ok(Narrow(h))
  {
    Base256(h.remLen);
  }

  lemma Digits256(a: nat, b: nat, c: nat, d: nat)
    requires a < 256 && b < 256 && c < 256 && d < 256
    ensures var n := a * 0x100_0000 + b * 0x1_0000 + c * 0x100 + d;
      n / 0x100_0000 % 256 == a && n / 0x1_0000 % 256 == b && n / 0x100 % 256 == c && n % 256 == d
  {
    var n := a * 0x100_0000 + b * 0x1_0000 + c * 0x100 + d;
    assert n / 0x100 == a * 0x1_0000 + b * 0x100 + c && n / 0x1_0000 == n / 0x100 / 256;
    assert n / 0x1_0000 == a * 0x100 + b && n / 0x100_0000 == n / 0x1_0000 / 256 == a;
  }

  /** Making what was read returns the same eight bytes, for every header of version 1. */
  lemma V1MakeRead(s: Bytes)
    requires |s| == HEADER_LENGTH
    ensures ReadV1(s).Ok? <==> s[0] as int == 1
    ensures ReadV1(s).Raised? ==> ReadV1(s).why == BadVersion
    ensures ReadV1(s).Ok? ==> MakeV1(ReadV1(s).value) == s
  {
    if s[0] as int == 1 {
      Digits256(s[4] as int, s[5] as int, s[6] as int, s[7] as int);
    }
  }

  /** The version is one, and then come the low bytes of the three counts, in this order. */
  lemma MakeV1Counts(h: BundleHeader)
    ensures var s := MakeV1(h);
      && s[0] as int == 1
      && (h.sendIdLen - s[1] as int) % 256 == 0
      && (h.destIdLen - s[2] as int) % 256 == 0
      && (h.messageCount - s[3] as int) % 256 == 0
  {
  }

  /** The length bytes made are those that the shifts and masks take out of the length. */
  lemma MakeV1Bits(h: BundleHeader)
    ensures var s, n := MakeV1(h), h.remLen;
      && s[4] as int == And(Shr(n, 24), 0xFF) && s[5] as int == And(Shr(n, 16), 0xFF)
      && s[6] as int == And(Shr(n, 8), 0xFF) && s[7] as int == And(n, 0xFF)
  {
    TakeBytes(h.remLen);
  }

  /** The length read is the one that the shifts and ors put together from its bytes. */
  lemma ReadV1Bits(s: Bytes)
    requires |s| == HEADER_LENGTH && ReadV1(s).Ok?
    ensures ReadV1(s).value.remLen
      == Or(Or(Or(Shl(s[4] as int, 24), Shl(s[5] as int, 16)), Shl(s[6] as int, 8)), s[7] as int)
  {
    PutBytes(s[4] as int, s[5] as int, s[6] as int, s[7] as int);
  }

  // ---------- v0 ----------

  function LowerHex(d: nat): (b: Byte)
    requires d < 16
    ensures HexValue(b) == Some(d) && b != ' '
  {
    if d < 10 then ('0' as int + d) as char else ('a' as int + (d - 10)) as char
  }

  function Hex(n: nat): Bytes {
    if n < 16 then [LowerHex(n)] else Hex(n / 16) + [LowerHex(n % 16)]
  }

  function Spaces(k: nat): (s: Bytes)
    ensures |s| == k
  {
    if k == 0 then [] else [' '] + Spaces(k - 1)
  }

  /** The length in lower-case hexadecimal, right-aligned in eight columns; empty if it does not fit. */
  function MakeV0(h: BundleHeader): Bytes {
    var digits := Hex(h.remLen);
    if |digits| > HEADER_LENGTH then [] else Spaces(HEADER_LENGTH - |digits|) + digits
  }

  function HexRun(s: Bytes): (k: nat)
    ensures k <= |s|
    ensures forall i :: 0 <= i < k ==> HexValue(s[i]).Some?
  {
    if s != [] && HexValue(s[0]).Some? then 1 + HexRun(s[1..]) else 0
  }

  function HexNat(t: Bytes): nat
    requires forall i :: 0 <= i < |t| ==> HexValue(t[i]).Some?
  {
    if t == [] then 0 else HexNat(t[..|t| - 1]) * 16 + HexValue(t[|t| - 1]).value
  }

  /** Stream extraction of one unsigned hexadecimal number; zero when there is none or it overflows. */
  function ReadV0(s: Bytes): BundleHeader {
    var t := SkipSpace(s);
    var k := HexRun(t);
    var n := HexNat(t[..k]);
    BundleHeader(0, 0, 0, if k == 0 || n >= 0x1_0000_0000 then 0 else n)
  }

  function Pow16(k: nat): (p: nat)
    ensures p >= 1
  {
    if k == 0 then 1 else 16 * Pow16(k - 1)
  }

  lemma {:induction false} HexRoundTrip(n: nat, width: nat)
    requires width > 0 && n < Pow16(width)
    ensures 1 <= |Hex(n)| <= width
    ensures forall i :: 0 <= i < |Hex(n)| ==> HexValue(Hex(n)[i]).Some?
    ensures HexNat(Hex(n)) == n
    decreases n
  {
    var h := Hex(n);
    if n < 16 {
      assert h[..0] == [];
    } else {
      assert Pow16(width) == 16 * Pow16(width - 1);
      assert width > 1 by { assert Pow16(0) == 1; }
      HexRoundTrip(n / 16, width - 1);
      assert h[..|h| - 1] == Hex(n / 16);
    }
  }

  lemma {:induction false} HexRunAll(t: Bytes)
    requires forall i :: 0 <= i < |t| ==> HexValue(t[i]).Some?
    ensures HexRun(t) == |t|
  {
    if t != [] { HexRunAll(t[1..]); }
  }

  lemma {:induction false} SkipSpaces(k: nat, t: Bytes)
    requires t != [] && HexValue(t[0]).Some?
    ensures SkipSpace(Spaces(k) + t) == t
  {
    if k == 0 {
      assert Spaces(k) + t == t;
    } else {
      SkipSpaces(k - 1, t);
      assert (Spaces(k) + t)[1..] == Spaces(k - 1) + t;
    }
  }

  /** For every 32-bit length the text form is exactly eight characters and reads back unchanged. */
  lemma V0ReadMake(h: BundleHeader)
    ensures |MakeV0(h)| == HEADER_LENGTH
    ensures ReadV0(MakeV0(h)) == BundleHeader(0, 0, 0, h.remLen)
  {
    var t := Hex(h.remLen);
    assert Pow16(8) == 0x1_0000_0000 by {
      assert Pow16(2) == 256 && Pow16(4) == 256 * Pow16(2);
      assert Pow16(6) == 256 * Pow16(4) && Pow16(8) == 256 * Pow16(6);
    }
    HexRoundTrip(h.remLen, 8);
    SkipSpaces(8 - |t|, t);
    HexRunAll(t);
    assert t[..|t|] == t;
  }

  predicate IsLowerHex(b: Byte) {
    '0' <= b <= '9' || 'a' <= b <= 'f'
  }

  lemma {:induction false} HexLower(n: nat)
    ensures Hex(n) != [] && forall i :: 0 <= i < |Hex(n)| ==> IsLowerHex(Hex(n)[i])
    ensures Hex(n)[0] == '0' ==> n == 0 && |Hex(n)| == 1
  {
    if n >= 16 { HexLower(n / 16); }
  }

  lemma {:induction false} SpacesAre(k: nat)
    ensures forall i :: 0 <= i < k ==> Spaces(k)[i] == ' '
  {
    if k > 0 { SpacesAre(k - 1); }
  }

  /** Spaces, then lower-case digits without leading zeros, flush with the right edge. */
  lemma V0Shape(h: BundleHeader) returns (k: nat)
    ensures k < HEADER_LENGTH == |MakeV0(h)|
    ensures forall i :: 0 <= i < k ==> MakeV0(h)[i] == ' '
    ensures forall i :: k <= i < HEADER_LENGTH ==> IsLowerHex(MakeV0(h)[i])
    ensures MakeV0(h)[k] == '0' ==> k == HEADER_LENGTH - 1
  {
    V0ReadMake(h);
    var t := Hex(h.remLen);
    HexLower(h.remLen);
    k := HEADER_LENGTH - |t|;
    SpacesAre(k);
    assert MakeV0(h) == Spaces(k) + t;
  }

  /** A header that holds no number announces nothing. */
  lemma V0Garbage(s: Bytes)
    requires SkipSpace(s) == [] || HexValue(SkipSpace(s)[0]).None?
    ensures ReadV0(s) == BundleHeader(0, 0, 0, 0)
  {
  }
}
