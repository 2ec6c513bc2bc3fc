/**
 * The two kinds of one-time secret the handlers issue: the six-digit email
 * verification code (an integer turned into its decimal string) and the
 * password-reset token (twenty random bytes written as lower-case hex).
 * The random sources themselves are parameters of the handlers.
 */
module Tokens {

  /** Bounds of `Math.floor(100000 + Math.random() * 900000)`. */
  const MinCode: int := 100000
  const MaxCode: int := 999999

  /** One byte of `crypto.randomBytes` output. */
  newtype Byte = b: int | 0 <= b < 256

  /** `crypto.randomBytes(20)`. */
  const ResetTokenBytes: nat := 20

  predicate IsDigit(ch: char)
  {
    '0' <= ch <= '9'
  }

  function DigitChar(d: nat): (ch: char)
    requires d < 10
    ensures IsDigit(ch) && ch as int - '0' as int == d
  {
    ('0' as int + d) as char
  }

  predicate AllDigits(s: string)
  {
    forall i :: 0 <= i < |s| ==> IsDigit(s[i])
  }

  /** `Number.prototype.toString()` for a non-negative integer. */
  function DecimalString(n: nat): (s: string)
    ensures |s| >= 1 && AllDigits(s)
    ensures s[0] == '0' ==> n == 0
  {
    if n < 10 then [DigitChar(n)] else DecimalString(n / 10) + [DigitChar(n % 10)]
  }

  /** The value a string of decimal digits denotes. */
  function ParseDecimal(s: string): nat
    requires AllDigits(s)
  {
    if s == [] then 0 else 10 * ParseDecimal(s[..|s| - 1]) + (s[|s| - 1] as int - '0' as int)
  }

  /** Reading back the decimal string of a number gives the number. */
  lemma {:induction false} ParseDecimalString(n: nat)
    ensures ParseDecimal(DecimalString(n)) == n
  {
    if n >= 10 {
      var s := DecimalString(n / 10);
      ParseDecimalString(n / 10);
      assert (s + [DigitChar(n % 10)])[..|s|] == s;
    }
  }

  function Pow10(k: nat): (p: nat)
    ensures p >= 1
  {
    if k == 0 then 1 else 10 * Pow10(k - 1)
  }

  /** A number in [10^k, 10^(k+1)) is written with k + 1 digits. */
  lemma {:induction false} DecimalLength(n: nat, k: nat)
    requires Pow10(k) <= n < Pow10(k + 1)
    ensures |DecimalString(n)| == k + 1
  {
    if k > 0 {
      assert Pow10(k) == 10 * Pow10(k - 1);
      assert Pow10(k + 1) == 10 * Pow10(k);
      DecimalLength(n / 10, k - 1);
    }
  }

  /** The verification code stored for a drawn integer `c`: six decimal
      digits, no leading zero, and it reads back as `c`. */
  function VerificationCode(c: int): (code: string)
    requires MinCode <= c <= MaxCode
    ensures |code| == 6 && AllDigits(code) && code[0] != '0'
    ensures ParseDecimal(code) == c
  {
    DecimalLength(c, 5);
    ParseDecimalString(c);
    DecimalString(c)
  }

  predicate IsHexDigit(ch: char)
  {
    '0' <= ch <= '9' || 'a' <= ch <= 'f'
  }

  /** The lower-case hex digit for a nibble. */
  function HexDigit(v: nat): (ch: char)
    requires v < 16
    ensures IsHexDigit(ch)
  {
    if v < 10 then ('0' as int + v) as char else ('a' as int + v - 10) as char
  }

  function HexValue(ch: char): (v: nat)
    requires IsHexDigit(ch)
    ensures v < 16 && HexDigit(v) == ch
  {
    if '0' <= ch <= '9' then ch as int - '0' as int else ch as int - 'a' as int + 10
  }

  /** `Buffer.toString("hex")`: two lower-case hex digits per byte, high nibble first. */
  function Hex(bytes: seq<Byte>): (s: string)
    ensures |s| == 2 * |bytes|
    ensures forall i :: 0 <= i < |s| ==> IsHexDigit(s[i])
  {
    if bytes == [] then []
    else [HexDigit(bytes[0] as int / 16), HexDigit(bytes[0] as int % 16)] + Hex(bytes[1..])
  }

  /** The inverse of `Hex` on strings of even length made of hex digits. */
  function Unhex(s: string): (bytes: seq<Byte>)
    requires |s| % 2 == 0
    requires forall i :: 0 <= i < |s| ==> IsHexDigit(s[i])
    ensures |bytes| == |s| / 2
  {
    if s == [] then []
    else [(16 * HexValue(s[0]) + HexValue(s[1])) as Byte] + Unhex(s[2..])
  }

  lemma HexDigitValue(v: nat)
    requires v < 16
    ensures HexValue(HexDigit(v)) == v
  {
  }

  /** The two digits written for one byte read back as that byte. */
  lemma HexByte(b: Byte)
    ensures (16 * HexValue(HexDigit(b as int / 16)) + HexValue(HexDigit(b as int % 16))) as Byte == b
  {
    var n := b as int;
    var hi, lo := n / 16, n % 16;
    HexDigitValue(hi);
    HexDigitValue(lo);
    assert 16 * hi + lo == n;
  }

  lemma UnhexStep(s: string)
    requires |s| >= 2 && |s| % 2 == 0
    requires forall i :: 0 <= i < |s| ==> IsHexDigit(s[i])
    ensures Unhex(s) == [(16 * HexValue(s[0]) + HexValue(s[1])) as Byte] + Unhex(s[2..])
  {
  }

  /** Hex encoding loses nothing: the bytes can be read back from the token. */
  lemma {:induction false} UnhexHex(bytes: seq<Byte>)
    ensures Unhex(Hex(bytes)) == bytes
  {
    if bytes != [] {
      var b := bytes[0];
      var pair := [HexDigit(b as int / 16), HexDigit(b as int % 16)];
      var rest := Hex(bytes[1..]);
      var s := pair + rest;
      assert Hex(bytes) == s;
      assert s[0] == pair[0] && s[1] == pair[1] && s[2..] == rest;
      UnhexHex(bytes[1..]);
      HexByte(b);
      UnhexStep(s);
      assert Unhex(s) == [b] + Unhex(rest);
      assert bytes == [b] + bytes[1..];
    }
  }

  /** The reset token issued for twenty drawn bytes: forty hex digits. */
  function ResetToken(bytes: seq<Byte>): (token: string)
    requires |bytes| == ResetTokenBytes
    ensures |token| == 40
    ensures forall i :: 0 <= i < |token| ==> IsHexDigit(token[i])
  {
    Hex(bytes)
  }
}
