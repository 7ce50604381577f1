/** Package redistore: the same wrapper as gcredis, over storeutils. Its
    `Store.Key` hands a slice and a string to the variadic
    `storeutils.Key(hash, namespace...)`, which does not type-check, so the
    key it would send is not modelled: each write is given `send`, standing
    for its one `conn.Do` call with that key, applied to the marshalled
    bytes. */
module RediStore {
  import opened Go
  import opened Redigo
  import Utf8

  /** `Store.Marshal`: strings and byte slices are sent as their own bytes
      and cannot fail; everything else goes through the JSON encoder
      `json`, whose bytes and error are returned as they are. */
  function Marshal<T>(json: T -> BytesResult, v: Value<T>): (r: BytesResult)
    ensures r.err.Some? ==> v.Other?
    ensures v.Str? ==> r.err == None && r.bs == Utf8.Encode(v.s) && Utf8.Decode(r.bs) == Some(v.s)
    ensures v.ByteSlice? ==> r.err == None && r.bs == v.b
    ensures v.Other? ==> r == json(v.x)
  {
    match v
    case Str(s) => BytesResult(Utf8.Encode(s), None)
    case ByteSlice(b) => BytesResult(b, None)
    case Other(x) => json(x)
  }

  /** `Store.Unmarshal`: a nil reply without an error means the value does
      not exist, which is not an error; otherwise the reply goes through
      the byte conversion `bytes` (`redis.Bytes`), whose error comes back
      with `found` false and whose bytes come back with `found` true. */
  function Unmarshal<R>(bytes: (Reply<R>, Option<Error>) -> BytesResult, response: Reply<R>, err: Option<Error>): (r: Fetched)
    ensures response.Nil? && err == None ==> r == Fetched([], false, None)
    ensures r.found ==> r.err == None && r.bs == bytes(response, err).bs
    ensures r.err.Some? ==> !r.found && r.bs == []
    ensures !r.found && r.err == None <==> response.Nil? && err == None
    ensures !(response.Nil? && err == None) ==> r.err == bytes(response, err).err
  {
    if response.Nil? && err == None then Fetched([], false, None)
    else
      var conv := bytes(response, err);
      if conv.err.Some? then Fetched([], false, conv.err) else Fetched(conv.bs, true, None)
  }

  /** `Store.Set`: a marshalling error is returned without calling `send`;
      otherwise the error of sending the marshalled bytes. */
  function Set<T>(json: T -> BytesResult, send: seq<byte> -> Option<Error>, value: Value<T>): (r: Option<Error>)
    ensures Marshal(json, value).err.Some? ==> r == Marshal(json, value).err
    ensures Marshal(json, value).err == None ==> r == send(Marshal(json, value).bs)
    ensures value.Str? ==> r == send(Utf8.Encode(value.s))
  {
    var m := Marshal(json, value);
    if m.err.Some? then m.err else send(m.bs)
  }

  /** `Store.HSet`: as `Set`; `send` stands for the HMSET of the field. */
  function HSet<T>(json: T -> BytesResult, send: seq<byte> -> Option<Error>, value: Value<T>): (r: Option<Error>)
    ensures Marshal(json, value).err.Some? ==> r == Marshal(json, value).err
    ensures Marshal(json, value).err == None ==> r == send(Marshal(json, value).bs)
    ensures value.Str? ==> r == send(Utf8.Encode(value.s))
  {
    var m := Marshal(json, value);
    if m.err.Some? then m.err else send(m.bs)
  }
}
