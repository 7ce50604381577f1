/** `hex.EncodeToString`, which turns a SHA-1 digest into the text that
    stands in a key, and `hex.DecodeString`, its inverse. */
module Hex {
  import opened Go

  /** The characters `hex.EncodeToString` emits: `0`-`9` and `a`-`f`. */
  predicate IsLowerHexDigit(ch: char)
  {
    '0' <= ch <= '9' || 'a' <= ch <= 'f'
  }

  predicate IsLowerHex(s: string)
  {
    forall i | 0 <= i < |s| :: IsLowerHexDigit(s[i])
  }

  /** Entry `n` of the table "0123456789abcdef". */
  function Digit(n: int): (ch: char)
    requires 0 <= n < 16
    ensures IsLowerHexDigit(ch)
  {
    if n < 10 then ('0' as int + n) as char else ('a' as int + n - 10) as char
  }

  /** The value of a hex digit; like Go's decoder it accepts `A`-`F` too. */
  function DigitValue(ch: char): (v: Option<int>)
    ensures v.Some? ==> 0 <= v.value < 16
  {
    if '0' <= ch <= '9' then Some(ch as int - '0' as int)
    else if 'a' <= ch <= 'f' then Some(ch as int - 'a' as int + 10)
    else if 'A' <= ch <= 'F' then Some(ch as int - 'A' as int + 10)
    else None
  }

  /** Two lower-case hex digits per byte, high nibble first. */
  function EncodeToString(src: seq<byte>): (s: string)
    ensures |s| == 2 * |src|
    ensures IsLowerHex(s)
  {
    if src == [] then ""
    else [Digit(src[0] as int / 16), Digit(src[0] as int % 16)] + EncodeToString(src[1..])
  }

  /** `hex.DecodeString`: `None` for an odd length or a non-hex character,
      the errors Go reports as `ErrLength` and `InvalidByteError`. Text of
      even length in lower-case hex always decodes, to the bytes that
      encode back to it. */
  function DecodeString(s: string): (r: Option<seq<byte>>)
    ensures r.Some? ==> 2 * |r.value| == |s|
    ensures |s| % 2 == 0 && IsLowerHex(s) ==> r.Some? && EncodeToString(r.value) == s
    decreases |s|
  {
    if s == "" then Some([])
    else if |s| == 1 then None
    else
      match (DigitValue(s[0]), DigitValue(s[1]), DecodeString(s[2..]))
      case (Some(hi), Some(lo), Some(rest)) =>
        var b := (hi * 16 + lo) as byte;
        assert b as int / 16 == hi && b as int % 16 == lo;
        assert IsLowerHex(s) ==> Digit(hi) == s[0] && Digit(lo) == s[1];
        assert [b] + rest != [] && ([b] + rest)[1..] == rest;
        Some([b] + rest)
      case _ => None
  }

  /** A hex string has no ':' in it, so it never adds a key segment. */
  lemma NoColon(s: string)
    requires IsLowerHex(s)
    ensures ':' !in s
  {
  }

  lemma DigitValueOfDigit(n: int)
    requires 0 <= n < 16
    ensures DigitValue(Digit(n)) == Some(n)
  {
  }

  /** Decoding recovers the encoded bytes exactly. */
  lemma {:induction false} DecodeEncode(src: seq<byte>)
    ensures DecodeString(EncodeToString(src)) == Some(src)
  {
    if src != [] {
      var b := src[0] as int;
      var s := EncodeToString(src);
      DigitValueOfDigit(b / 16);
      DigitValueOfDigit(b % 16);
      assert s[2..] == EncodeToString(src[1..]);
      DecodeEncode(src[1..]);
      assert (b / 16 * 16 + b % 16) as byte == src[0];
      assert [src[0]] + src[1..] == src;
    }
  }
}
