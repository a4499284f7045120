/** The two string encodings the handler uses to build entity ids:
    `Bytes.toHexString` (the order id is the hex of the order hash) and
    `BigInt.toString` (market ids, day-bucket ids and the default market question). */
module Text {

  newtype byte = x: int | 0 <= x < 256

  predicate IsDigits(s: string) {
    forall i :: 0 <= i < |s| ==> '0' <= s[i] <= '9'
  }

  function DigitChar(d: nat): (c: char)
    requires d < 10
    ensures '0' <= c <= '9'
    ensures c as int - '0' as int == d
  {
    ('0' as int + d) as char
  }

  function DigitValue(c: char): (d: nat)
    requires '0' <= c <= '9'
    ensures d < 10 && DigitChar(d) == c
  {
    c as int - '0' as int
  }

  /** Base-10 rendering of a non-negative integer, without leading zeros. */
  function DecimalString(n: nat): (s: string)
    ensures |s| >= 1 && IsDigits(s)
    ensures s[0] == '0' ==> n == 0
    decreases n
  {
    if n < 10 then [DigitChar(n)] else DecimalString(n / 10) + [DigitChar(n % 10)]
  }

  /** Reads a string of decimal digits back as a number (the inverse of DecimalString). */
  function ParseDecimal(s: string): nat
    requires IsDigits(s)
    decreases |s|
  {
    if s == [] then 0 else 10 * ParseDecimal(s[..|s| - 1]) + DigitValue(s[|s| - 1])
  }

  lemma {:induction false} DecimalRoundTrip(n: nat)
    ensures ParseDecimal(DecimalString(n)) == n
    decreases n
  {
    if n >= 10 {
      var s := DecimalString(n);
      var prefix := DecimalString(n / 10);
      assert s == prefix + [DigitChar(n % 10)];
      assert s[..|s| - 1] == prefix;
      DecimalRoundTrip(n / 10);
    }
  }

  /** Distinct numbers get distinct ids, so keying a store by the number is keying it by its string. */
  lemma DecimalStringInjective(a: nat, b: nat)
    requires DecimalString(a) == DecimalString(b)
    ensures a == b
  {
    DecimalRoundTrip(a);
    DecimalRoundTrip(b);
  }

  function HexDigit(n: nat): (c: char)
    requires n < 16
    ensures ('0' <= c <= '9') || ('a' <= c <= 'f')
  {
    if n < 10 then ('0' as int + n) as char else ('a' as int + n - 10) as char
  }

  lemma HexDigitInjective(a: nat, b: nat)
    requires a < 16 && b < 16 && HexDigit(a) == HexDigit(b)
    ensures a == b
  {
  }

  /** Two lower-case hex digits per byte, most significant nibble first. */
  function HexDigits(bs: seq<byte>): (s: string)
    ensures |s| == 2 * |bs|
  {
    if bs == [] then [] else [HexDigit(bs[0] as int / 16), HexDigit(bs[0] as int % 16)] + HexDigits(bs[1..])
  }

  /** `Bytes.toHexString`: "0x" followed by the hex digits of every byte. */
  function ToHexString(bs: seq<byte>): (s: string)
    ensures |s| == 2 + 2 * |bs| && s[..2] == "0x"
  {
    "0x" + HexDigits(bs)
  }

  lemma {:induction false} HexDigitsInjective(a: seq<byte>, b: seq<byte>)
    requires HexDigits(a) == HexDigits(b)
    ensures a == b
    decreases |a|
  {
    if a != [] {
      var ha, hb := HexDigits(a), HexDigits(b);
      assert |b| == |a|;
      assert ha[0] == HexDigit(a[0] as int / 16) && hb[0] == HexDigit(b[0] as int / 16);
      assert ha[1] == HexDigit(a[0] as int % 16) && hb[1] == HexDigit(b[0] as int % 16);
      HexDigitInjective(a[0] as int / 16, b[0] as int / 16);
      HexDigitInjective(a[0] as int % 16, b[0] as int % 16);
      assert a[0] == b[0];
      assert ha[2..] == HexDigits(a[1..]) && hb[2..] == HexDigits(b[1..]);
      HexDigitsInjective(a[1..], b[1..]);
      assert a == [a[0]] + a[1..] && b == [b[0]] + b[1..];
    }
  }

  /** Two order hashes share an order id only when they are the same bytes. */
  lemma ToHexStringInjective(a: seq<byte>, b: seq<byte>)
    requires ToHexString(a) == ToHexString(b)
    ensures a == b
  {
    assert ToHexString(a)[2..] == HexDigits(a) && ToHexString(b)[2..] == HexDigits(b);
    HexDigitsInjective(a, b);
  }
}
