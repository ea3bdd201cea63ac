/** Base64 (section 4 of RFC 4648) and the lenient decoding of the browser's `atob`, which also accepts a last
    group without its padding. */
module Base64 {
  import opened Wrappers
  import opened Bytes

  const PAD: byte := 61

  function Symbol(d: nat): (c: byte)
    requires d < 64
    ensures ValueOf(c) == Some(d) && c != PAD
  {
    if d < 26 then 65 + d
    else if d < 52 then 97 + (d - 26)
    else if d < 62 then 48 + (d - 52)
    else if d == 62 then 43
    else 47
  }

  function ValueOf(c: byte): (d: Option<nat>)
    ensures d.Some? ==> d.value < 64
  {
    if 65 <= c <= 90 then Some(c - 65)
    else if 97 <= c <= 122 then Some(c - 71)
    else if 48 <= c <= 57 then Some(c + 4)
    else if c == 43 then Some(62)
    else if c == 47 then Some(63)
    else None
  }

  // Three bytes as four six-bit digits, and back.

  function First(a: byte): (d: nat)
    ensures d < 64
  {
    a / 4
  }

  function Second(a: byte, b: byte): (d: nat)
    ensures d < 64
  {
    a % 4 * 16 + b / 16
  }

  function Third(b: byte, c: byte): (d: nat)
    ensures d < 64
  {
    b % 16 * 4 + c / 64
  }

  function Fourth(c: byte): (d: nat)
    ensures d < 64
  {
    c % 64
  }

  function Byte0(d0: nat, d1: nat): byte
    requires d0 < 64 && d1 < 64
  {
    d0 * 4 + d1 / 16
  }

  function Byte1(d1: nat, d2: nat): byte
    requires d1 < 64 && d2 < 64
  {
    d1 % 16 * 16 + d2 / 4
  }

  function Byte2(d2: nat, d3: nat): byte
    requires d2 < 64 && d3 < 64
  {
    d2 % 4 * 64 + d3
  }

  lemma DigitsRegroup(a: byte, b: byte, c: byte)
    ensures Byte0(First(a), Second(a, b)) == a
    ensures Byte1(Second(a, b), Third(b, c)) == b
    ensures Byte2(Third(b, c), Fourth(c)) == c
  {
  }

  function Encode(b: Bytes): Bytes {
    if b == [] then []
    else if |b| == 1 then [Symbol(First(b[0])), Symbol(Second(b[0], 0)), PAD, PAD]
    else if |b| == 2 then [Symbol(First(b[0])), Symbol(Second(b[0], b[1])), Symbol(Third(b[1], 0)), PAD]
    else
      [Symbol(First(b[0])), Symbol(Second(b[0], b[1])), Symbol(Third(b[1], b[2])), Symbol(Fourth(b[2]))]
        + Encode(b[3..])
  }

  /** The alphabet of section 4: the upper-case letters, the lower-case letters, the digits, plus and slash. */
  lemma AlphabetIsStandard(d: nat)
    requires d < 64
    ensures d < 26 ==> Symbol(d) == 'A' as int + d
    ensures 26 <= d < 52 ==> Symbol(d) == 'a' as int + d - 26
    ensures 52 <= d < 62 ==> Symbol(d) == '0' as int + d - 52
    ensures Symbol(62) == '+' as int && Symbol(63) == '/' as int && PAD == '=' as int
  {
  }

  /** Test vectors of section 10. */
  lemma TestVectors()
    ensures Encode(AsciiBytes("f")) == AsciiBytes("Zg==")
    ensures Encode(AsciiBytes("fo")) == AsciiBytes("Zm8=")
    ensures Encode(AsciiBytes("foo")) == AsciiBytes("Zm9v")
  {
    assert AsciiBytes("f") == [102] && AsciiBytes("fo") == [102, 111] && AsciiBytes("foo") == [102, 111, 111];
    assert Encode([102, 111, 111]) == [90, 109, 57, 118] + Encode([]);
    assert AsciiBytes("Zg==") == [90, 103, 61, 61] && AsciiBytes("Zm8=") == [90, 109, 56, 61];
    assert AsciiBytes("Zm9v") == [90, 109, 57, 118];
  }

  /** Four symbols for every three bytes begun. */
  lemma {:induction false} EncodedLengths(b: Bytes)
    ensures |Encode(b)| == (|b| + 2) / 3 * 4
  {
    hide Symbol, First, Second, Third, Fourth;
    if |b| >= 3 {
      EncodedLengths(b[3..]);
      assert |Encode(b)| == 4 + |Encode(b[3..])|;
      assert (|b| + 2) / 3 == (|b[3..]| + 2) / 3 + 1;
    } else if b != [] {
      assert |Encode(b)| == 4;
    }
  }

  /** One last group of two or three symbols. */
  function DecodeTail(t: Bytes): Option<Bytes>
    requires 1 <= |t| <= 3
  {
    if |t| == 1 || ValueOf(t[0]).None? || ValueOf(t[1]).None? then None
    else if |t| == 2 then Some([Byte0(ValueOf(t[0]).value, ValueOf(t[1]).value)])
    else if ValueOf(t[2]).None? then None
    else Some([Byte0(ValueOf(t[0]).value, ValueOf(t[1]).value), Byte1(ValueOf(t[1]).value, ValueOf(t[2]).value)])
  }

  function Decode(t: Bytes): Option<Bytes> {
    if t == [] then Some([])
    else if |t| < 4 then DecodeTail(t)
    else if |t| == 4 && t[3] == PAD then DecodeTail(if t[2] == PAD then t[..2] else t[..3])
    else
      match (ValueOf(t[0]), ValueOf(t[1]), ValueOf(t[2]), ValueOf(t[3]))
      case (Some(d0), Some(d1), Some(d2), Some(d3)) =>
        (match Decode(t[4..])
         case None => None
         case Some(rest) => Some([Byte0(d0, d1), Byte1(d1, d2), Byte2(d2, d3)] + rest))
      case _ => None
  }

  lemma {:induction false} EncodedIsDecoded(b: Bytes)
    ensures Decode(Encode(b)) == Some(b)
  {
    hide Symbol, ValueOf, First, Second, Third, Fourth, Byte0, Byte1, Byte2;
    if |b| >= 3 {
      EncodedIsDecoded(b[3..]);
      DigitsRegroup(b[0], b[1], b[2]);
      assert Encode(b)[4..] == Encode(b[3..]);
      assert b == [b[0], b[1], b[2]] + b[3..];
    } else if |b| == 2 {
      DigitsRegroup(b[0], b[1], 0);
      assert b == [b[0], b[1]];
    } else if |b| == 1 {
      DigitsRegroup(b[0], 0, 0);
      assert b == [b[0]];
    }
  }
}
