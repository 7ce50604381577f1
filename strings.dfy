/** The two `strings` package operations the key builders rely on:
    `strings.Join`, which every variant uses to glue the segments, and
    `strings.Split` on a one-character separator, its inverse, used to
    state how a key can be taken apart again. */
module Strings {

  /** `strings.Join(elems, sep)`: the elements with `sep` between
      consecutive ones; no separator before the first or after the last. */
  function Join(elems: seq<string>, sep: string): (r: string)
    ensures |elems| == 0 ==> r == ""
    ensures |elems| > 0 ==> elems[0] <= r && |r| == TotalLength(elems) + (|elems| - 1) * |sep|
  {
    if |elems| == 0 then ""
    else if |elems| == 1 then elems[0]
    else elems[0] + sep + Join(elems[1..], sep)
  }

  /** The combined length of the elements. */
  function TotalLength(elems: seq<string>): nat
  {
    if elems == [] then 0 else |elems[0]| + TotalLength(elems[1..])
  }

  /** Appending one element to a non-empty list adds exactly one separator
      followed by that element at the end of the joined string. */
  lemma {:induction false} JoinAppend(elems: seq<string>, x: string, sep: string)
    requires |elems| > 0
    ensures Join(elems + [x], sep) == Join(elems, sep) + sep + x
  {
    var all := elems + [x];
    if |elems| == 1 {
      assert all[1..] == [x];
    } else {
      assert all[1..] == elems[1..] + [x];
      JoinAppend(elems[1..], x, sep);
      calc {
        Join(all, sep);
        all[0] + sep + Join(all[1..], sep);
        elems[0] + sep + (Join(elems[1..], sep) + sep + x);
        (elems[0] + sep + Join(elems[1..], sep)) + sep + x;
      }
    }
  }

  /** Position of the first occurrence of `c` in `s`. */
  function IndexOf(s: string, c: char): (i: nat)
    requires c in s
    ensures i < |s| && s[i] == c && c !in s[..i]
  {
    if s[0] == c then 0
    else
      assert c in s[1..] by { var k :| 0 <= k < |s| && s[k] == c; assert s[1..][k - 1] == c; }
      var j := IndexOf(s[1..], c);
      assert s[..j + 1] == [s[0]] + s[1..][..j];
      j + 1
  }

  /** `strings.Split(s, [c])`: the maximal runs between occurrences of `c`.
      As in Go, splitting the empty string yields one empty element. No part
      contains `c`, and joining the parts with `c` restores `s`. */
  function Split(s: string, c: char): (parts: seq<string>)
    ensures |parts| > 0
    ensures forall k | 0 <= k < |parts| :: c !in parts[k]
    ensures Join(parts, [c]) == s
    decreases |s|
  {
    if c !in s then [s]
    else
      var i := IndexOf(s, c);
      var rest := Split(s[i + 1..], c);
      var parts := [s[..i]] + rest;
      assert parts[1..] == rest;
      assert s == s[..i] + [c] + s[i + 1..];
      parts
  }

  /** Splitting undoes joining when no element contains the separator. */
  lemma {:induction false} SplitJoin(elems: seq<string>, c: char)
    requires |elems| > 0
    requires forall k | 0 <= k < |elems| :: c !in elems[k]
    ensures Split(Join(elems, [c]), c) == elems
  {
    if |elems| > 1 {
      var head, rest := elems[0], Join(elems[1..], [c]);
      var s := Join(elems, [c]);
      assert s == head + [c] + rest;
      assert s[|head|] == c;
      var i := IndexOf(s, c);
      assert i == |head|;
      assert s[..i] == head;
      assert s[i + 1..] == rest;
      SplitJoin(elems[1..], c);
      assert [head] + elems[1..] == elems;
    }
  }
}
