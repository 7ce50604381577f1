/** The three key builders agree: whichever package builds it, a key is
    the scope segments followed by the maybe-hashed identifier, joined
    with ':'. They differ only in where the identifier sits among the
    arguments. */
module KeyVariants {
  import opened Go
  import Strings
  import GcUtils
  import StoreUtils
  import Helpers

  /** `helpers.Key(h, k, ns...)` and `gcutils.Key(h, ns, k)` give the same
      key for every input. */
  lemma HelpersMatchesGcUtils(sum: SumFn, hash: bool, k: string, ns: seq<string>)
    ensures Helpers.Key(sum, hash, k, ns) == GcUtils.Key(sum, hash, ns, k)
  {
    assert Helpers.MaybeSha1(sum, k, hash) == GcUtils.MaybeSha1(sum, hash, k);
  }

  /** `storeutils.Key(h, ns...)` with a non-empty namespace is
      `gcutils.Key` of its scope and its last element. */
  lemma StoreUtilsMatchesGcUtils(sum: SumFn, hash: bool, ns: seq<string>)
    requires |ns| > 0
    ensures StoreUtils.KeyOf(sum, hash, ns) == GcUtils.Key(sum, hash, ns[..|ns| - 1], ns[|ns| - 1])
  {
    assert StoreUtils.MaybeSha1(sum, hash, ns[|ns| - 1]) == GcUtils.MaybeSha1(sum, hash, ns[|ns| - 1]);
  }

  /** The helpers key is its scope prefix followed by the maybe-hashed
      identifier: the identifier, though passed first, comes last. */
  lemma HelpersKeyLayout(sum: SumFn, hash: bool, k: string, ns: seq<string>)
    ensures Helpers.Key(sum, hash, k, ns) == GcUtils.ScopePrefix(ns) + Helpers.MaybeSha1(sum, k, hash)
  {
    HelpersMatchesGcUtils(sum, hash, k, ns);
  }

  /** A storeutils key of ':'-free segments splits back into the namespace
      with its identifier slot replaced as `Key` replaces it in place. */
  lemma StoreUtilsKeySplits(sum: SumFn, hash: bool, ns: seq<string>)
    requires |ns| > 0
    requires forall i | 0 <= i < |ns| :: ':' !in ns[i]
    ensures Strings.Split(StoreUtils.KeyOf(sum, hash, ns), ':') ==
      ns[..|ns| - 1] + [StoreUtils.MaybeSha1(sum, hash, ns[|ns| - 1])]
  {
    StoreUtilsMatchesGcUtils(sum, hash, ns);
    GcUtils.KeySplits(sum, hash, ns[..|ns| - 1], ns[|ns| - 1]);
  }
}
