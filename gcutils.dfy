/** Package gcutils: the namespaced-key builder used by the gcredis cache.
    The scope segments come first as a list, the identifier last as its own
    argument; only the identifier is ever hashed. */
module GcUtils {
  import opened Go
  import Strings
  import Hex

  const Delimiter: char := ':'

  /** Hex text of the SHA-1 digest of `key`: 40 lower-case hex characters
      from which the 20 digest bytes can be read back. */
  function Sha1(sum: SumFn, key: string): (r: string)
    ensures |r| == 40 && Hex.IsLowerHex(r) && Delimiter !in r
    ensures Hex.DecodeString(r) == Some(sum(key))
  {
    var r := Hex.EncodeToString(sum(key));
    Hex.NoColon(r);
    Hex.DecodeEncode(sum(key));
    r
  }

  /** The identifier as it appears in a key: its digest when `hash` is set,
      the identifier itself otherwise. */
  function MaybeSha1(sum: SumFn, hash: bool, key: string): (r: string)
    ensures !hash ==> r == key
    ensures hash ==> |r| == 40 && Hex.IsLowerHex(r) && Delimiter !in r && Hex.DecodeString(r) == Some(sum(key))
  {
    if hash then Sha1(sum, key) else key
  }

  /** `Namespace(ns...)`: the variadic arguments as a slice, unchanged. */
  function Namespace(ns: seq<string>): (r: seq<string>)
    ensures |r| == |ns| && forall i | 0 <= i < |ns| :: r[i] == ns[i]
  {
    ns
  }

  /** `Key(hash, namespace, k)`: the scope segments, then the (maybe hashed)
      identifier, joined with ':'. Every key is the scope prefix followed by
      the maybe-hashed identifier; with no scope there is no leading ':'. */
  function Key(sum: SumFn, hash: bool, namespace: seq<string>, k: string): (r: string)
    ensures r == ScopePrefix(namespace) + MaybeSha1(sum, hash, k)
  {
    var id := MaybeSha1(sum, hash, k);
    if namespace == [] then
      assert namespace + [id] == [id];
      Strings.Join(namespace + [id], [Delimiter])
    else
      Strings.JoinAppend(namespace, id, [Delimiter]);
      Strings.Join(namespace + [id], [Delimiter])
  }

  /** The text a key has in front of its identifier: the scope joined with
      ':' and one more ':', or nothing for an empty scope. It does not
      depend on the flag: scope segments are never hashed. */
  function ScopePrefix(namespace: seq<string>): string
  {
    if namespace == [] then "" else Strings.Join(namespace, [Delimiter]) + [Delimiter]
  }

  /** Splitting a key at ':' gives back the scope and the identifier as it
      was written into the key, provided no scope segment contains ':' and,
      when nothing is hashed, neither does the identifier. */
  lemma KeySplits(sum: SumFn, hash: bool, namespace: seq<string>, k: string)
    requires forall i | 0 <= i < |namespace| :: Delimiter !in namespace[i]
    requires hash || Delimiter !in k
    ensures Strings.Split(Key(sum, hash, namespace, k), Delimiter) == namespace + [MaybeSha1(sum, hash, k)]
  {
    Strings.SplitJoin(namespace + [MaybeSha1(sum, hash, k)], Delimiter);
  }

  /** Two keys built with the same flag from ':'-free segments coincide only
      when their scopes are equal and their identifiers are equal or, when
      hashed, have the same SHA-1 digest. */
  lemma KeyCollision(sum: SumFn, hash: bool, ns1: seq<string>, k1: string, ns2: seq<string>, k2: string)
    requires forall i | 0 <= i < |ns1| :: Delimiter !in ns1[i]
    requires forall i | 0 <= i < |ns2| :: Delimiter !in ns2[i]
    requires hash || (Delimiter !in k1 && Delimiter !in k2)
    requires Key(sum, hash, ns1, k1) == Key(sum, hash, ns2, k2)
    ensures ns1 == ns2
    ensures if hash then sum(k1) == sum(k2) else k1 == k2
  {
    KeySplits(sum, hash, ns1, k1);
    KeySplits(sum, hash, ns2, k2);
    var parts1, parts2 := ns1 + [MaybeSha1(sum, hash, k1)], ns2 + [MaybeSha1(sum, hash, k2)];
    assert parts1 == parts2;
    assert ns1 == parts1[..|ns1|] == parts2[..|ns2|] == ns2;
    assert MaybeSha1(sum, hash, k1) == parts1[|ns1|] == MaybeSha1(sum, hash, k2);
  }

  /** The cases of the package's table test, for any SHA-1 function. */
  lemma KeyExamples(sum: SumFn)
    ensures Key(sum, true, [], "") == Sha1(sum, "")
    ensures Key(sum, false, [], "") == ""
    ensures Key(sum, true, [], "key") == Sha1(sum, "key")
    ensures Key(sum, true, ["n0", "n1"], "key") == "n0:n1:" + Sha1(sum, "key")
    ensures Key(sum, false, ["n0", "n1"], "key") == "n0:n1:key"
  {
    var scope := ["n0", "n1"];
    assert scope[1..] == ["n1"];
    assert Strings.Join(scope, [Delimiter]) == "n0" + [Delimiter] + "n1" == "n0:n1";
    assert ScopePrefix(scope) == "n0:n1:";
  }
}
