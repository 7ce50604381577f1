/** Go's conversion `[]byte(s)` of a string to its bytes: the UTF-8
    encoding of its characters (RFC 3629), and a decoder that inverts it. */
module Utf8 {
  import opened Go

  predicate IsContinuation(b: byte)
  {
    0x80 <= b < 0xC0
  }

  /** The one to four bytes of one character. The arithmetic peels off
      six bits at a time, so that decoding is the same steps reversed. */
  function EncodeRune(c: char): (r: seq<byte>)
    ensures 1 <= |r| <= 4
  {
    var n := c as int;
    var d0, n1 := n % 64, n / 64;
    var d1, n2 := n1 % 64, n1 / 64;
    var d2, n3 := n2 % 64, n2 / 64;
    if n < 0x80 then [n as byte]
    else if n < 0x800 then [(0xC0 + n1) as byte, (0x80 + d0) as byte]
    else if n < 0x10000 then [(0xE0 + n2) as byte, (0x80 + d1) as byte, (0x80 + d0) as byte]
    else [(0xF0 + n3) as byte, (0x80 + d2) as byte, (0x80 + d1) as byte, (0x80 + d0) as byte]
  }

  /** The bytes of a string, in order: one to four per character, and
      decoding them gives the string back. */
  function Encode(s: string): (r: seq<byte>)
    ensures |s| <= |r| <= 4 * |s|
    ensures Decode(r) == Some(s)
  {
    if s == "" then []
    else
      var head, tail := EncodeRune(s[0]), Encode(s[1..]);
      DecodeEncodeRune(s[0], tail);
      assert (head + tail)[|head|..] == tail;
      assert [s[0]] + s[1..] == s;
      head + tail
  }

  /** The first character of `b` and its width in bytes; `None` for a
      truncated sequence, a stray continuation byte, an overlong form, a
      surrogate or a value beyond U+10FFFF. */
  function DecodeRune(b: seq<byte>): (r: Option<(char, nat)>)
    ensures r.Some? ==> 1 <= r.value.1 <= |b| && r.value.1 <= 4
  {
    if |b| == 0 then None
    else
      var b0 := b[0] as int;
      if b0 < 0x80 then Some((b0 as char, 1))
      else if 0xC0 <= b0 < 0xE0 then
        if |b| < 2 || !IsContinuation(b[1]) then None
        else
          var n := (b0 - 0xC0) * 64 + (b[1] as int - 0x80);
          if n < 0x80 then None else Some((n as char, 2))
      else if 0xE0 <= b0 < 0xF0 then
        if |b| < 3 || !IsContinuation(b[1]) || !IsContinuation(b[2]) then None
        else
          var n := ((b0 - 0xE0) * 64 + (b[1] as int - 0x80)) * 64 + (b[2] as int - 0x80);
          if n < 0x800 || 0xD800 <= n < 0xE000 then None else Some((n as char, 3))
      else if 0xF0 <= b0 < 0xF8 then
        if |b| < 4 || !IsContinuation(b[1]) || !IsContinuation(b[2]) || !IsContinuation(b[3]) then None
        else
          var n := (((b0 - 0xF0) * 64 + (b[1] as int - 0x80)) * 64 + (b[2] as int - 0x80)) * 64 + (b[3] as int - 0x80);
          if n < 0x10000 || 0x110000 <= n then None else Some((n as char, 4))
      else None
  }

  /** The string whose UTF-8 encoding is `b`, if `b` is well-formed. */
  function Decode(b: seq<byte>): (r: Option<string>)
    ensures r.Some? ==> |r.value| <= |b| <= 4 * |r.value|
    decreases |b|
  {
    if b == [] then Some("")
    else
      match DecodeRune(b)
      case None => None
      case Some((c, w)) =>
        match Decode(b[w..])
        case None => None
        case Some(rest) => Some([c] + rest)
  }

  /** The encoding of a character is read back as that character, whatever
      follows it. */
  lemma DecodeEncodeRune(c: char, rest: seq<byte>)
    ensures DecodeRune(EncodeRune(c) + rest) == Some((c, |EncodeRune(c)|))
  {
    var n := c as int;
    var d0, n1 := n % 64, n / 64;
    var d1, n2 := n1 % 64, n1 / 64;
    var d2, n3 := n2 % 64, n2 / 64;
    assert n == n1 * 64 + d0 && n1 == n2 * 64 + d1 && n2 == n3 * 64 + d2;
  }

  /** An ASCII string is its own bytes, one per character. */
  lemma {:induction false} EncodeAscii(s: string)
    requires forall i | 0 <= i < |s| :: s[i] < 0x80 as char
    ensures |Encode(s)| == |s|
    ensures forall i | 0 <= i < |s| :: Encode(s)[i] as int == s[i] as int
  {
    if s != "" {
      EncodeAscii(s[1..]);
      assert Encode(s) == [s[0] as int as byte] + Encode(s[1..]);
    }
  }
}
