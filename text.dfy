/**
 * Bytes on the wire: the decimal rendering that `format!("{}", n)` gives an
 * unsigned integer, the inverse reading of ASCII decimal digits used to parse
 * replies back, and the character codes of ASCII text. A Rust `&str` is kept
 * as the bytes it is stored as.
 */
module Text {

  type byte = x: int | 0 <= x < 256

  const Space: byte := 32
  const CR: byte := 13
  const LF: byte := 10

  /** Every character is below 0x80. */
  predicate IsAscii(s: string) {
    forall i :: 0 <= i < |s| ==> s[i] as int < 0x80
  }

  /** The character codes of an ASCII string, one byte each: what `as_bytes` gives for it. */
  function AsciiBytes(s: string): (r: seq<byte>)
    requires IsAscii(s)
    ensures |r| == |s|
  {
    seq(|s|, i requires 0 <= i < |s| => s[i] as int)
  }

  predicate IsDigit(b: byte) {
    '0' as int <= b <= '9' as int
  }

  predicate AllDigits(b: seq<byte>) {
    forall i :: 0 <= i < |b| ==> IsDigit(b[i])
  }

  /** The ASCII byte of a decimal digit. */
  function DigitByte(d: nat): (b: byte)
    requires d < 10
    ensures IsDigit(b) && b - '0' as int == d
  {
    d + '0' as int
  }

  /** `format!("{}", n)` as bytes: the decimal digits of `n`, most significant first, without leading zeros. */
  function DecimalBytes(n: nat): (r: seq<byte>)
    ensures |r| >= 1 && AllDigits(r)
    ensures n < 10 ==> |r| == 1
    ensures n >= 10 ==> r[0] != '0' as int
  {
    if n < 10 then [DigitByte(n)] else DecimalBytes(n / 10) + [DigitByte(n % 10)]
  }

  /** The number of decimal digit bytes at the front of `b`. */
  function DigitPrefixLength(b: seq<byte>): (k: nat)
    ensures k <= |b|
    ensures AllDigits(b[..k])
    ensures k < |b| ==> !IsDigit(b[k])
  {
    if b == [] || !IsDigit(b[0]) then 0
    else
      var k := 1 + DigitPrefixLength(b[1..]);
      assert forall i :: 1 <= i < k ==> b[..k][i] == b[1..][..k - 1][i - 1];
      k
  }

  /** The value of a run of ASCII decimal digits, most significant first. */
  function DigitsValue(b: seq<byte>): nat
    requires AllDigits(b)
  {
    if b == [] then 0 else DigitsValue(b[..|b| - 1]) * 10 + (b[|b| - 1] - '0' as int)
  }

  /** The digits `format!("{}", n)` writes read back as `n`. */
  lemma {:induction false} DecimalValue(n: nat)
    ensures DigitsValue(DecimalBytes(n)) == n
  {
    if n >= 10 {
      var r := DecimalBytes(n);
      DecimalValue(n / 10);
      assert r[..|r| - 1] == DecimalBytes(n / 10);
    }
  }

  /** Digits followed by a non-digit (or nothing) are exactly the digit prefix. */
  lemma {:induction false} DigitPrefixOfDigits(d: seq<byte>, rest: seq<byte>)
    requires AllDigits(d)
    requires rest == [] || !IsDigit(rest[0])
    ensures DigitPrefixLength(d + rest) == |d|
  {
    if d != [] {
      assert (d + rest)[1..] == d[1..] + rest;
      DigitPrefixOfDigits(d[1..], rest);
    } else {
      assert d + rest == rest;
    }
  }
}
