# go-cache / go-store key builder and Redis wrappers, in Dafny

This project models the logic of a thin Go layer over Redis. That logic has
two parts.

- **The namespaced-key builder.** It exists in three packages: `gcutils`,
  `storeutils` and `helpers`. Each one joins the scope segments and a final
  identifier with `:`. When the hashing flag is set, only the identifier is
  replaced by its SHA-1 digest, written as 40 lower-case hex characters.
  `storeutils.Key` takes the whole namespace as a variadic slice. It writes
  the maybe-hashed identifier back into the caller's last slot before
  joining. Here it is a method on an `array<string>` with a `modifies`
  clause.
- **The two Redis wrappers.** These are `gcredis.Cache` and
  `redistore.Store`. `Marshal` is a three-way type switch: a string becomes
  its bytes, a byte slice is kept as it is, and any other value goes to
  JSON. `Unmarshal` sorts a reply into one of three cases: absent, which is
  not an error; a failed conversion, which returns an error with `found`
  false; or the reply's bytes with `found` true. The writes `Set` and
  `HSet` return a marshalling error before they send any command.

How the Go program is represented:

- A Go `string` is a Dafny `string`. Go's `[]byte(s)` is its UTF-8
  encoding, module `Utf8`, with a decoder that inverts it.
- SHA-1 (FIPS 180-4) is a parameter `sum: string -> Digest`. A `Digest` is
  exactly 20 bytes.
- `hex.EncodeToString` and `strings.Join` are defined concretely. They each
  have an inverse: `hex.DecodeString` and `strings.Split` on one character.
  Round-trip lemmas connect each pair.
- `json.Marshal`, `redis.Bytes` and the connection's `Do` come from outside
  this code. They are function parameters that may return an error.

Modules: `Go` (value types), `Strings`, `Hex`, `Utf8`, `Redigo` (reply,
command and result shapes), `GcUtils`, `StoreUtils`, `Helpers`,
`KeyVariants` (cross-package equivalences), `GcRedis`, `RediStore`,
`WrapperAgreement`.

## Model

| member | source | states |
|---|---|---|
| `Strings.Join` | gcutils/helpers.go:33 | No elements join to `""`. Otherwise the result starts with the first element, and its length is the elements' total length plus one separator between each pair. |
| `Strings.Split` | gcutils/helpers.go:33 | Splitting on a character gives at least one part, no part contains that character, and joining the parts with it gives back the input. |
| `Strings.JoinAppend` | gcutils/helpers.go:32-33 | Appending an element to a non-empty list adds exactly one separator and then that element to the end of the joined string. |
| `Strings.SplitJoin` | gcutils/helpers.go:33 | If no element contains the separator, splitting on it gives back the joined list. |
| `Hex.EncodeToString` | gcutils/helpers.go:12 | The output has two characters per input byte, and every character is in `0-9a-f`. |
| `Hex.DecodeString` | gcutils/helpers.go:12 | A decoded value has half as many bytes as the text has characters. Every even-length lower-case hex text decodes, and encoding the result gives the text back. |
| `Hex.DecodeEncode` | gcutils/helpers.go:10-13 | Decoding the hex text gives back exactly the encoded bytes, so a digest's text determines the digest. |
| `Hex.NoColon` | gcutils/helpers.go:12 | Hex text never contains `:`. |
| `Utf8.Encode` | gcredis/redis.go:71-72 | A string's bytes number one to four per character, and decoding them gives back the same string. |
| `Utf8.Decode` | gcredis/redis.go:72 | A well-formed byte sequence decodes to a string with at least a quarter as many characters as there are bytes, and no more characters than bytes. |
| `Utf8.EncodeAscii` | gcredis/redis.go:72 | An ASCII string's bytes are its characters, one byte each. |
| `GcUtils.Sha1` | gcutils/helpers.go:10-13 | The digest text has 40 characters, all lower-case hex, no `:`, and it decodes to the 20 digest bytes. |
| `GcUtils.MaybeSha1` | gcutils/helpers.go:15-20 | With the flag clear, the key is returned unchanged. With it set, the result is the key's digest as 40 lower-case hex characters, colon-free, decoding back to the digest. |
| `GcUtils.Namespace` | gcutils/helpers.go:22-25 | Returns its arguments unchanged and in order. |
| `GcUtils.Key` | gcutils/helpers.go:31-34 | A key is the scope prefix followed by the maybe-hashed identifier. The prefix is the scope joined with `:` plus a trailing `:`, or empty for no scope. The flag never touches the prefix. |
| `GcUtils.KeySplits` | gcutils/helpers.go:31-34 | Splitting a key at `:` gives the scope followed by the identifier as written. This needs colon-free scope segments, and a colon-free identifier when not hashing. |
| `GcUtils.KeyCollision` | gcutils/helpers.go:27-34 | Two keys built with the same flag from colon-free segments are equal only if the scopes are equal and the identifiers are equal. When hashed, they need only have the same SHA-1 digest. |
| `GcUtils.KeyExamples` | gcutils/helpers_test.go:17-52 | The table test's six cases hold for every SHA-1 function, including the empty scope with no leading `:` and `Key(false, nil, "") == ""`. |
| `StoreUtils.Sha1` | storeutils/key.go:16-20 | The digest text has 40 characters, all lower-case hex, no `:`, and it decodes to the 20 digest bytes. |
| `StoreUtils.MaybeSha1` | storeutils/key.go:9-14 | With the flag clear, the key is returned unchanged. With it set, the result is the key's digest as 40 lower-case hex characters, colon-free, decoding back to the digest. |
| `StoreUtils.Key` | storeutils/key.go:27-35 | Returns `KeyOf` of the input namespace. Slots `0..n-2` are unchanged, and slot `n-1` now holds `maybeSha1` of its old value. With the flag clear, the array is identical to its input. |
| `StoreUtils.KeyOf` | storeutils/key.go:27-35 | An empty namespace yields `""` for either flag. A one-element namespace yields the maybe-hashed identifier, with no delimiter. For two or more segments, the key is the scope joined with `:`, one `:`, and the maybe-hashed last segment, so only the last segment is ever hashed. |
| `StoreUtils.KeyOfExamples` | storeutils/key_test.go:16-45 | The table test's six cases hold for every SHA-1 function. |
| `Helpers.Sha1` | helpers/helpers.go:9-13 | The digest text has 40 characters, all lower-case hex, no `:`, and it decodes to the 20 digest bytes. |
| `Helpers.MaybeSha1` | helpers/helpers.go:15-20 | `maybeSha1(k, false) == k`. With the flag set, the result is the key's digest as 40 lower-case hex characters, colon-free, decoding back to the digest. |
| `Helpers.Key` | helpers/helpers.go:22-29 | With no scope, the key is the maybe-hashed identifier alone. Otherwise it is the scope joined with `:`, one `:`, and the maybe-hashed identifier. The identifier comes first among the arguments but last in the key. |
| `Helpers.KeyExamples` | helpers/helpers_test.go:17-52 | The table test's six cases hold for every SHA-1 function. The identifier comes first among the arguments but last in the key. |
| `KeyVariants.HelpersMatchesGcUtils` | helpers/helpers.go:26-29 | `helpers.Key(h, k, ns...) == gcutils.Key(h, ns, k)` for all inputs. |
| `KeyVariants.StoreUtilsMatchesGcUtils` | storeutils/key.go:27-35 | For a non-empty namespace, `storeutils.Key` equals `gcutils.Key` of the scope and the last element. |
| `KeyVariants.HelpersKeyLayout` | helpers/helpers.go:22-29 | A helpers key is the scope prefix followed by the maybe-hashed identifier. |
| `KeyVariants.StoreUtilsKeySplits` | storeutils/key.go:32-34 | A storeutils key with colon-free segments splits back into the namespace, with its last slot replaced as `Key` replaces it in place. |
| `GcRedis.Key` | gcredis/redis.go:54-57 | Equals `gcutils.Key` under the cache's own `HashKeys` flag: the scope prefix, then the identifier, hashed exactly when the cache hashes keys. |
| `GcRedis.Marshal` | gcredis/redis.go:65-79 | Only the JSON branch can fail. A string becomes exactly its bytes, which decode back to it. A byte slice is returned unchanged. Any other value returns the encoder's bytes and error. |
| `GcRedis.Unmarshal` | gcredis/redis.go:81-91 | A nil reply without an error gives exactly `(nil, false, nil)`, and only such a reply is reported absent without an error. Any other reply returns the conversion's error. A conversion error comes back with `found` false and no bytes. `found` is true only with no error, and then the bytes are the converted ones. |
| `GcRedis.SetPlan` | gcredis/redis.go:95-103 | On a marshalling error, the result is that error and no command. Otherwise it is one SET of the cache key and the marshalled bytes. |
| `GcRedis.Set` | gcredis/redis.go:95-105 | A marshalling error is returned whatever the connection does. Otherwise the result is the SET command's error. |
| `GcRedis.HSetPlan` | gcredis/redis.go:108-116 | On a marshalling error, the result is that error and no command. Otherwise it is one HMSET of the cache key, the field and the marshalled bytes. |
| `GcRedis.HSet` | gcredis/redis.go:108-118 | A marshalling error is returned whatever the connection does. Otherwise the result is the HMSET command's error. |
| `GcRedis.Get` | gcredis/redis.go:121-125 | Sends one GET of the cache key, and the result is `Unmarshal` of the connection's reply to it. A nil reply without an error gives `(nil, false, nil)`. Any other reply returns the conversion's error, and `found` is true exactly when that error is nil. |
| `GcRedis.HGet` | gcredis/redis.go:128-132 | Sends one HGET of the cache key and field, and the result is `Unmarshal` of the connection's reply to it. A nil reply without an error gives `(nil, false, nil)`. Any other reply returns the conversion's error, and `found` is true exactly when that error is nil. |
| `GcRedis.Del` | gcredis/redis.go:135-140 | Sends one DEL of the scope prefix plus the maybe-hashed identifier, and returns its error. |
| `GcRedis.HDel` | gcredis/redis.go:143-148 | Sends one HDEL of the key and field, and returns its error. |
| `GcRedis.StringMarshalsAsBytes` | gcredis/redis.go:70-74 | A string and its bytes marshal identically: a string is never JSON-quoted. |
| `GcRedis.UnmarshalPassesOnError` | gcredis/redis.go:85-88 | A transport error that the conversion passes on is returned unchanged, with `found` false. |
| `RediStore.Marshal` | redistore/redis.go:67-79 | Only the JSON branch can fail. A string becomes exactly its bytes. A byte slice is the identity. Any other value gets the encoder's result. |
| `RediStore.Unmarshal` | redistore/redis.go:81-91 | A nil reply without an error gives exactly `(nil, false, nil)`: absent, not an error. A conversion error gives `found` false. Success gives `(bs, true, nil)`. |
| `RediStore.Set` | redistore/redis.go:95-105 | A marshalling error is returned without sending anything. Otherwise the result is the error from sending the marshalled bytes; for a string, those are its raw bytes. |
| `RediStore.HSet` | redistore/redis.go:108-118 | A marshalling error is returned without sending anything. Otherwise the result is the error from sending the marshalled bytes. |
| `WrapperAgreement.MarshalAgrees` | redistore/redis.go:67-79 | redistore's `Marshal` equals gcredis's for every value. |
| `WrapperAgreement.UnmarshalAgrees` | redistore/redis.go:81-91 | redistore's `Unmarshal` equals gcredis's for every reply. |
| `WrapperAgreement.SetMarshalErrorAgrees` | redistore/redis.go:99-102 | When the JSON encoder fails, both wrappers' `Set` return that encoder error, whatever the connection. |

## Left out

- Pool construction (`Pool`, `NewPool`) and `Close`: network dialing, the PING sent on borrow, and idle timeouts all belong to the client library and the network. A pooled connection may send its PING before `Marshal` runs. "No command is sent" refers to the wrapper's own command.
- `redistore.Store.Key`: it passes a slice and a string to the variadic `storeutils.Key(hash, namespace...)`, which does not type-check. No repaired behaviour is invented. For the same reason, the key that redistore's commands would carry is not modelled. Its `Set`/`HSet` take a `send` parameter for their one command, and its `Get`, `HGet`, `Del` and `HDel` are not modelled.
- What the Redis server does with commands: storing, deleting, expiry, and the round trips `Set`-then-`Get` and `Del`-then-`Get`. The connection is a function from a command to its reply.
- `SetEX`/`SetPX` and expiry: no implementation of them exists in this code, and they depend on wall-clock time.
- The SHA-1 compression function, `json.Marshal` and `redis.Bytes`: they are library code and appear as parameters. `UnmarshalPassesOnError` assumes only that the conversion returns a transport error unchanged, for the reply it is given.
- Nil versus empty byte slices: both are the empty sequence. The flag `found` tells "absent" apart from "present but empty".
- `redistore.Store` and its `HashKeys` field: the struct is not represented, because only the left-out `Store.Key` reads the flag. `Set` and `HSet` take the connection's `send` function instead.
- Go strings holding invalid UTF-8: a Dafny `string` holds only Unicode scalar values.
- Go `append` aliasing in `gcutils.Key` and `helpers.Key` is modelled as pure sequence concatenation. Spare capacity in the caller's slice could otherwise be written.
- A single key-building convention with one argument order is not modelled. The code has three argument orders, and each is modelled as written. `KeyVariants` proves that all three build the same key.
