/** `SecureRandom.hex(n)`: the random bytes, supplied by the caller, written as lower-case
    hexadecimal, two characters per byte. */
module HexEncoding {

  type Byte = b: int | 0 <= b < 256

  const HexDigits := "0123456789abcdef"

  /** A lower-case hexadecimal digit, as `SecureRandom.hex` writes them. */
  predicate IsHexDigit(c: char)
  {
    '0' <= c <= '9' || 'a' <= c <= 'f'
  }

  function HexDigitValue(c: char): (n: nat)
    requires IsHexDigit(c)
    ensures n < 16 && HexDigits[n] == c
  {
    if '0' <= c <= '9' then c as int - '0' as int else c as int - 'a' as int + 10
  }

  /** Two lower-case hex digits, high nibble first. */
  function ByteToHex(b: Byte): string
  {
    [HexDigits[b / 16], HexDigits[b % 16]]
  }

  function Hex(bytes: seq<Byte>): (s: string)
    ensures |s| == 2 * |bytes|
    ensures forall i :: 0 <= i < |s| ==> IsHexDigit(s[i])
  {
    if bytes == [] then [] else ByteToHex(bytes[0]) + Hex(bytes[1..])
  }

  /** Reads a string of hex digit pairs back into bytes. */
  function Unhex(s: string): seq<Byte>
    requires |s| % 2 == 0
    requires forall i :: 0 <= i < |s| ==> IsHexDigit(s[i])
  {
    if s == [] then []
    else [PairValue(s[0], s[1])] + Unhex(s[2..])
  }

  /** The byte denoted by a high and a low hex digit. */
  function PairValue(high: char, low: char): Byte
    requires IsHexDigit(high) && IsHexDigit(low)
  {
    HexDigitValue(high) * 16 + HexDigitValue(low)
  }

  /** Each hex digit reads back as its position in the digit table. */
  lemma DigitValueOfDigit(k: nat)
    requires k < 16
    ensures HexDigitValue(HexDigits[k]) == k
  {
  }

  /** The two digits of a byte read back as the byte. */
  lemma ByteRoundTrip(b: Byte)
    ensures PairValue(ByteToHex(b)[0], ByteToHex(b)[1]) == b
  {
    DigitValueOfDigit(b / 16);
    DigitValueOfDigit(b % 16);
  }

  /** The hex text of a byte string determines the bytes: decoding gives them back. */
  lemma {:induction false} HexRoundTrip(bytes: seq<Byte>)
    ensures Unhex(Hex(bytes)) == bytes
  {
    if bytes != [] {
      var s := Hex(bytes);
      var pair := ByteToHex(bytes[0]);
      assert s == pair + Hex(bytes[1..]);
      assert s[0] == pair[0] && s[1] == pair[1];
      assert s[2..] == Hex(bytes[1..]);
      ByteRoundTrip(bytes[0]);
      HexRoundTrip(bytes[1..]);
    }
  }
}
