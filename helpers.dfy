/** Package helpers: the key builder that takes the identifier first and
    the scope segments as trailing variadic arguments, yet puts the
    identifier last in the key. Its `maybeSha1` takes the key before the
    flag. */
module Helpers {
  import opened Go
  import Strings
  import Hex

  const Delimiter: char := ':'

  /** Hex text of the SHA-1 digest of `key`: 40 lower-case hex characters
      from which the 20 digest bytes can be read back. */
  function Sha1(sum: SumFn, key: string): (r: string)
    ensures |r| == 40 && Hex.IsLowerHex(r) && Delimiter !in r
    ensures Hex.DecodeString(r) == Some(sum(key))
  {
    var r := Hex.EncodeToString(sum(key));
    Hex.NoColon(r);
    Hex.DecodeEncode(sum(key));
    r
  }

  /** `maybeSha1(key, hash)`: the digest when `hash` is set, the key itself
      otherwise. */
  function MaybeSha1(sum: SumFn, key: string, hash: bool): (r: string)
    ensures !hash ==> r == key
    ensures hash ==> |r| == 40 && Hex.IsLowerHex(r) && Delimiter !in r && Hex.DecodeString(r) == Some(sum(key))
  {
    if hash then Sha1(sum, key) else key
  }

  /** `Key(hash, k, namespace...)`: the scope segments, then the (maybe
      hashed) identifier `k`, joined with ':'. The identifier, though passed
      first, comes last; with no scope it is the whole key. */
  function Key(sum: SumFn, hash: bool, k: string, namespace: seq<string>): (r: string)
    ensures namespace == [] ==> r == MaybeSha1(sum, k, hash)
    ensures namespace != [] ==> r == Strings.Join(namespace, [Delimiter]) + [Delimiter] + MaybeSha1(sum, k, hash)
  {
    var id := MaybeSha1(sum, k, hash);
    if namespace == [] then
      assert namespace + [id] == [id];
      Strings.Join(namespace + [id], [Delimiter])
    else
      Strings.JoinAppend(namespace, id, [Delimiter]);
      Strings.Join(namespace + [id], [Delimiter])
  }

  /** The cases of the package's table test, for any SHA-1 function. */
  lemma KeyExamples(sum: SumFn)
    ensures Key(sum, true, "", []) == Sha1(sum, "")
    ensures Key(sum, false, "", []) == ""
    ensures Key(sum, true, "key", []) == Sha1(sum, "key")
    ensures Key(sum, true, "key", ["n0", "n1"]) == "n0:n1:" + Sha1(sum, "key")
    ensures Key(sum, false, "key", ["n0", "n1"]) == "n0:n1:key"
  {
    var scope := ["n0", "n1"];
    assert scope[1..] == ["n1"];
    assert Strings.Join(scope, [Delimiter]) == "n0:n1";
  }
}
