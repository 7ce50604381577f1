/** Package storeutils: the key builder whose whole namespace, identifier
    included, is one variadic list. It rewrites the caller's last slot in
    place before joining, so the namespace is an array here. */
module StoreUtils {
  import opened Go
  import Strings
  import Hex

  const Delimiter: char := ':'

  /** Hex text of the SHA-1 digest of `k`: 40 lower-case hex characters
      from which the 20 digest bytes can be read back. */
  function Sha1(sum: SumFn, k: string): (r: string)
    ensures |r| == 40 && Hex.IsLowerHex(r) && Delimiter !in r
    ensures Hex.DecodeString(r) == Some(sum(k))
  {
    var r := Hex.EncodeToString(sum(k));
    Hex.NoColon(r);
    Hex.DecodeEncode(sum(k));
    r
  }

  /** The identifier as it appears in a key: its digest when `hash` is set,
      the identifier itself otherwise. */
  function MaybeSha1(sum: SumFn, hash: bool, key: string): (r: string)
    ensures !hash ==> r == key
    ensures hash ==> |r| == 40 && Hex.IsLowerHex(r) && Delimiter !in r && Hex.DecodeString(r) == Some(sum(key))
  {
    if hash then Sha1(sum, key) else key
  }

  /** The key `Key` returns for the namespace `ns` it was called with: empty
      for an empty namespace, otherwise the segments joined with ':' after
      the last one has gone through `MaybeSha1`. A lone identifier is the
      whole key, with no ':' around it; with a scope, the key is the scope
      joined with ':', one ':' and the maybe-hashed identifier, so only the
      last segment is ever hashed. */
  function KeyOf(sum: SumFn, hash: bool, ns: seq<string>): (r: string)
    ensures |ns| == 0 ==> r == ""
    ensures |ns| == 1 ==> r == MaybeSha1(sum, hash, ns[0])
    ensures |ns| >= 2 ==>
      r == Strings.Join(ns[..|ns| - 1], [Delimiter]) + [Delimiter] + MaybeSha1(sum, hash, ns[|ns| - 1])
  {
    if |ns| == 0 then ""
    else
      var scope, id := ns[..|ns| - 1], MaybeSha1(sum, hash, ns[|ns| - 1]);
      if |ns| == 1 then
        assert scope + [id] == [id];
        Strings.Join(scope + [id], [Delimiter])
      else
        Strings.JoinAppend(scope, id, [Delimiter]);
        Strings.Join(scope + [id], [Delimiter])
  }

  /** `Key(hash, namespace...)`. The identifier slot of the caller's slice
      is overwritten with its maybe-hashed form, which the caller sees
      afterwards; the other slots are left alone. */
  method Key(sum: SumFn, hash: bool, namespace: array<string>) returns (key: string)
    modifies namespace
    ensures key == KeyOf(sum, hash, old(namespace[..]))
    ensures namespace.Length > 0 ==>
      namespace[..namespace.Length - 1] == old(namespace[..namespace.Length - 1]) &&
      namespace[namespace.Length - 1] == MaybeSha1(sum, hash, old(namespace[namespace.Length - 1]))
    ensures !hash ==> namespace[..] == old(namespace[..])
  {
    var n := namespace.Length;
    if n == 0 {
      return "";
    }
    var id := namespace[n - 1];
    namespace[n - 1] := MaybeSha1(sum, hash, id);
    assert namespace[..] == old(namespace[..n - 1]) + [MaybeSha1(sum, hash, id)];
    key := Strings.Join(namespace[..], [Delimiter]);
  }

  /** The cases of the package's table test, for any SHA-1 function. */
  lemma KeyOfExamples(sum: SumFn)
    ensures KeyOf(sum, true, []) == "" && KeyOf(sum, false, []) == ""
    ensures KeyOf(sum, false, ["key"]) == "key"
    ensures KeyOf(sum, true, ["key"]) == Sha1(sum, "key")
    ensures KeyOf(sum, false, ["n1", "n2"]) == "n1:n2"
    ensures KeyOf(sum, true, ["n1", "n2"]) == "n1:" + Sha1(sum, "n2")
  {
    assert ["n1", "n2"][..1] == ["n1"];
  }
}
