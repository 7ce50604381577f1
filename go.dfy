/** Go values as the key builders and the Redis wrappers see them.

    A Go `string` is modelled as a Dafny `string` (a sequence of Unicode
    scalar values, i.e. a Go string holding valid UTF-8); a Go `[]byte`
    as a `seq<byte>`; a Go `error` as an `Option<Error>` whose `None` is
    Go's `nil`. */
module Go {

  newtype byte = x: int | 0 <= x < 256

  datatype Option<+T> = None | Some(value: T)

  /** An error value produced by code outside the model (the JSON encoder,
      the Redis client); only its identity matters here. */
  datatype Error = Error(message: string)

  /** A SHA-1 digest: the 20 bytes `sha1.Sum` returns (FIPS 180-4). */
  type Digest = d: seq<byte> | |d| == 20 witness seq(20, _ => 0 as byte)

  /** `sha1.Sum([]byte(s))`. The compression function is not modelled:
      every key builder takes the digest function as a parameter. */
  type SumFn = string -> Digest

  /** Go's `interface{}` argument to Marshal, as seen by its type switch:
      a `string`, a `[]byte`, or anything else (of type `T`). */
  datatype Value<T> = Str(s: string) | ByteSlice(b: seq<byte>) | Other(x: T)

  /** A Go `([]byte, error)` result pair. */
  datatype BytesResult = BytesResult(bs: seq<byte>, err: Option<Error>)
}
