/** Byte strings, and the decimal notation the wire formats use for integers. */
module Bytes {

  type byte = b: int | 0 <= b < 256

  type Bytes = seq<byte>

  const CR: byte := 13
  const LF: byte := 10
  const CRLF: Bytes := [CR, LF]
  const MINUS: byte := 45

  /** The bytes of an ASCII text. */
  function AsciiBytes(s: string): (b: Bytes)
    ensures |b| == |s|
    ensures forall i :: 0 <= i < |s| ==> b[i] == (s[i] as int) % 256
  {
    seq(|s|, i requires 0 <= i < |s| => (s[i] as int) % 256)
  }

  predicate IsDigit(b: int) {
    48 <= b <= 57
  }

  /** The decimal digits of `n`, most significant first. */
  function Digits(n: nat): (r: Bytes)
    ensures |r| >= 1
    ensures forall i :: 0 <= i < |r| ==> IsDigit(r[i])
    ensures ReadDigits(r) == n
  {
    if n < 10 then [48 + n] else
      var r := Digits(n / 10) + [48 + n % 10];
      assert r[..|r| - 1] == Digits(n / 10);
      r
  }

  /** The number a row of digits denotes. */
  function ReadDigits(s: Bytes): (n: int)
    requires forall i :: 0 <= i < |s| ==> IsDigit(s[i])
  {
    if s == [] then 0 else 10 * ReadDigits(s[..|s| - 1]) + s[|s| - 1] - 48
  }

  /** The text JavaScript's template strings give for an integer. */
  function Decimal(n: int): (r: Bytes)
    ensures |r| >= 1
    ensures forall i :: 0 <= i < |r| ==> IsDigit(r[i]) || r[i] == MINUS
  {
    if n < 0 then [MINUS] + Digits(-n) else Digits(n)
  }

  lemma DecimalIsInjective(m: int, n: int)
    requires Decimal(m) == Decimal(n)
    ensures m == n
  {
    if m < 0 && n < 0 {
      assert Digits(-m) == Decimal(m)[1..] == Decimal(n)[1..] == Digits(-n);
    } else {
      assert Decimal(m)[0] == Decimal(n)[0];
    }
  }
}
