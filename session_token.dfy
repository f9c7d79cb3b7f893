/** `generateSessionToken`: 32 random bytes written as lowercase hexadecimal, high
    nibble first, as Node's `Buffer.toString('hex')` does. The bytes come from the
    caller, standing for `crypto.randomBytes(32)`. */
module SessionToken {

  const TOKEN_BYTES: nat := 32

  predicate IsHexDigit(c: char) {
    '0' <= c <= '9' || 'a' <= c <= 'f'
  }

  /** The lowercase hex digit of a nibble. */
  function Digit(v: nat): (c: char)
    requires v < 16
    ensures IsHexDigit(c)
  {
    if v < 10 then ('0' as int + v) as char else ('a' as int + v - 10) as char
  }

  function DigitValue(c: char): (v: nat)
    requires IsHexDigit(c)
    ensures v < 16 && Digit(v) == c
  {
    if c <= '9' then c as int - '0' as int else c as int - 'a' as int + 10
  }

  lemma DigitValueOfDigit(v: nat)
    requires v < 16
    ensures DigitValue(Digit(v)) == v
  {
  }

  /** The two hex digits of a byte value, high nibble first. */
  function NibbleDigits(n: nat): (s: string)
    requires n < 256
    ensures |s| == 2 && IsHexDigit(s[0]) && IsHexDigit(s[1])
    ensures DigitValue(s[0]) * 16 + DigitValue(s[1]) == n
  {
    var hi, lo := n / 16, n % 16;
    assert hi * 16 + lo == n;
    DigitValueOfDigit(hi);
    DigitValueOfDigit(lo);
    [Digit(hi), Digit(lo)]
  }

  /** The two hex digits of one byte. */
  function ByteDigits(b: bv8): (s: string)
    ensures |s| == 2 && IsHexDigit(s[0]) && IsHexDigit(s[1])
    ensures DigitValue(s[0]) * 16 + DigitValue(s[1]) == b as int
  {
    NibbleDigits(b as int)
  }

  function HexEncode(bytes: seq<bv8>): (s: string)
    ensures |s| == 2 * |bytes|
    ensures forall i :: 0 <= i < |s| ==> IsHexDigit(s[i])
  {
    if bytes == [] then [] else ByteDigits(bytes[0]) + HexEncode(bytes[1..])
  }

  function HexDecode(s: string): (bytes: seq<bv8>)
    requires |s| % 2 == 0
    requires forall i :: 0 <= i < |s| ==> IsHexDigit(s[i])
    ensures |bytes| == |s| / 2
  {
    if s == [] then []
    else [(DigitValue(s[0]) * 16 + DigitValue(s[1])) as bv8] + HexDecode(s[2..])
  }

  /** A session token is 64 characters drawn from [0-9a-f]. */
  function GenerateSessionToken(random: seq<bv8>): (token: string)
    requires |random| == TOKEN_BYTES
    ensures |token| == 64
    ensures forall i :: 0 <= i < |token| ==> IsHexDigit(token[i])
  {
    HexEncode(random)
  }

  /** The hex text gives back the bytes it was made from. */
  lemma {:induction false} HexRoundTrip(bytes: seq<bv8>)
    ensures HexDecode(HexEncode(bytes)) == bytes
  {
    if bytes != [] {
      var s := HexEncode(bytes);
      var d := ByteDigits(bytes[0]);
      assert s[0] == d[0] && s[1] == d[1];
      assert s[2..] == HexEncode(bytes[1..]);
      HexRoundTrip(bytes[1..]);
    }
  }

  /** Different random bytes give different tokens. */
  lemma TokensInjective(a: seq<bv8>, b: seq<bv8>)
    requires |a| == TOKEN_BYTES && |b| == TOKEN_BYTES
    requires GenerateSessionToken(a) == GenerateSessionToken(b)
    ensures a == b
  {
    HexRoundTrip(a);
    HexRoundTrip(b);
  }
}
