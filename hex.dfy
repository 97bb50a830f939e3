/** Node's `Buffer.toString("hex")`: every byte becomes two lower-case
    hexadecimal digits, high nibble first. */
module Hex {

  import opened Wrappers

  newtype byte = b: int | 0 <= b < 256

  /** The characters `toString("hex")` produces: `0`-`9` and `a`-`f`. */
  predicate IsHexDigit(c: char) {
    '0' <= c <= '9' || 'a' <= c <= 'f'
  }

  function DigitChar(n: int): (c: char)
    requires 0 <= n < 16
    ensures IsHexDigit(c)
  {
    if n < 10 then ('0' as int + n) as char else ('a' as int + n - 10) as char
  }

  /** The value of a lower-case hexadecimal digit; `-1` for any other character. */
  function DigitValue(c: char): (n: int)
    ensures -1 <= n < 16
    ensures n >= 0 <==> IsHexDigit(c)
    ensures n >= 0 ==> DigitChar(n) == c
  {
    if '0' <= c <= '9' then c as int - '0' as int
    else if 'a' <= c <= 'f' then c as int - 'a' as int + 10
    else -1
  }

  lemma DigitValueOfDigitChar(n: int)
    requires 0 <= n < 16
    ensures DigitValue(DigitChar(n)) == n
  {
  }

  /** The hex rendering of a byte string. */
  function Encode(bytes: seq<byte>): (s: string)
    ensures |s| == 2 * |bytes|
    ensures forall i :: 0 <= i < |s| ==> IsHexDigit(s[i])
  {
    if bytes == [] then []
    else
      EncodeByte(bytes[0]) + Encode(bytes[1..])
  }

  function EncodeByte(b: byte): (s: string)
    ensures |s| == 2 && IsHexDigit(s[0]) && IsHexDigit(s[1])
  {
    [DigitChar(b as int / 16), DigitChar(b as int % 16)]
  }

  lemma DecodeByte(b: byte)
    ensures DigitValue(EncodeByte(b)[0]) * 16 + DigitValue(EncodeByte(b)[1]) == b as int
  {
    DigitValueOfDigitChar(b as int / 16);
    DigitValueOfDigitChar(b as int % 16);
  }

  /** Reads back a hex string; fails on odd length or a non-digit. */
  function Decode(s: string): (r: Option<seq<byte>>)
    ensures r.Some? ==> 2 * |r.value| == |s|
    decreases |s|
  {
    if s == [] then Some([])
    else if |s| == 1 then None
    else
      var hi, lo := DigitValue(s[0]), DigitValue(s[1]);
      if hi < 0 || lo < 0 then None
      else match Decode(s[2..])
        case None => None
        case Some(rest) => Some([(hi * 16 + lo) as byte] + rest)
  }

  /** Decoding an encoding gives the bytes back, so the encoding is injective:
      distinct random byte strings give distinct reset tokens. */
  lemma {:induction false} DecodeEncode(bytes: seq<byte>)
    ensures Decode(Encode(bytes)) == Some(bytes)
  {
    if bytes != [] {
      var s := Encode(bytes);
      var e := EncodeByte(bytes[0]);
      assert s[0] == e[0] && s[1] == e[1] && s[2..] == Encode(bytes[1..]);
      DecodeByte(bytes[0]);
      DecodeEncode(bytes[1..]);
      assert [bytes[0]] + bytes[1..] == bytes;
    }
  }

  lemma EncodeInjective(a: seq<byte>, b: seq<byte>)
    requires Encode(a) == Encode(b)
    ensures a == b
  {
    DecodeEncode(a);
    DecodeEncode(b);
  }
}
