/** Package gcredis: a cache over a Redis connection pool. Keys come from
    `gcutils.Key` with the cache's own hashing flag; values are marshalled
    to bytes before a write, and replies are classified after a read. The
    pool is not modelled: each operation is given the connection it would
    borrow, as a function from the command it sends to what `conn.Do`
    returns. */
module GcRedis {
  import opened Go
  import opened Redigo
  import Utf8
  import GcUtils

  /** A `Cache` as its operations see it: the hashing flag it was built with. */
  datatype Cache = Cache(hashKeys: bool)

  /** `Cache.Key`: the gcutils key under the cache's flag, that is, the
      scope prefix and then the identifier, hashed exactly when the cache
      hashes keys. */
  function Key(c: Cache, sum: SumFn, namespace: seq<string>, k: string): (r: string)
    ensures r == GcUtils.ScopePrefix(namespace) + GcUtils.MaybeSha1(sum, c.hashKeys, k)
    ensures r == GcUtils.Key(sum, c.hashKeys, namespace, k)
  {
    GcUtils.Key(sum, c.hashKeys, namespace, k)
  }

  /** `Cache.Marshal`: strings and byte slices are sent as their own bytes
      and cannot fail; everything else goes through the JSON encoder
      `json`, whose bytes and error are returned as they are. */
  function Marshal<T>(json: T -> BytesResult, v: Value<T>): (r: BytesResult)
    ensures r.err.Some? ==> v.Other?
    ensures v.Str? ==> r.err == None && r.bs == Utf8.Encode(v.s) && Utf8.Decode(r.bs) == Some(v.s)
    ensures v.ByteSlice? ==> r.err == None && r.bs == v.b
    ensures v.Other? ==> r == json(v.x)
  {
    match v
    case Str(s) => BytesResult(Utf8.Encode(s), None)
    case ByteSlice(b) => BytesResult(b, None)
    case Other(x) => json(x)
  }

  /** `Cache.Unmarshal`: a nil reply without an error means the value does
      not exist, which is not an error; otherwise the reply goes through
      the byte conversion `bytes` (`redis.Bytes`), whose error comes back
      with `found` false and whose bytes come back with `found` true. */
  function Unmarshal<R>(bytes: (Reply<R>, Option<Error>) -> BytesResult, response: Reply<R>, err: Option<Error>): (r: Fetched)
    ensures response.Nil? && err == None ==> r == Fetched([], false, None)
    ensures r.found ==> r.err == None && r.bs == bytes(response, err).bs
    ensures r.err.Some? ==> !r.found && r.bs == []
    ensures !r.found && r.err == None <==> response.Nil? && err == None
    ensures !(response.Nil? && err == None) ==> r.err == bytes(response, err).err
  {
    if response.Nil? && err == None then Fetched([], false, None)
    else
      var conv := bytes(response, err);
      if conv.err.Some? then Fetched([], false, conv.err) else Fetched(conv.bs, true, None)
  }

  /** The command `Set` sends, or the marshalling error that stops it
      before anything is sent. */
  function SetPlan<T>(c: Cache, sum: SumFn, json: T -> BytesResult, namespace: seq<string>, k: string, value: Value<T>): (p: Plan)
    ensures p.Abort? <==> Marshal(json, value).err.Some?
    ensures p.Abort? ==> Some(p.err) == Marshal(json, value).err
    ensures p.Issue? ==> (p.cmd.verb == SET &&
      p.cmd.args == [StrArg(GcUtils.Key(sum, c.hashKeys, namespace, k)), BytesArg(Marshal(json, value).bs)])
  {
    var m := Marshal(json, value);
    if m.err.Some? then Abort(m.err.value)
    else Issue(Command(SET, [StrArg(Key(c, sum, namespace, k)), BytesArg(m.bs)]))
  }

  /** `Cache.Set`: a marshalling error is returned whatever the connection
      would have done; otherwise the error of the one SET command. */
  function Set<T, R>(c: Cache, sum: SumFn, json: T -> BytesResult, conn: Command -> DoResult<R>,
                     namespace: seq<string>, k: string, value: Value<T>): (r: Option<Error>)
    ensures Marshal(json, value).err.Some? ==> r == Marshal(json, value).err
    ensures Marshal(json, value).err == None ==> r == conn(SetPlan(c, sum, json, namespace, k, value).cmd).err
  {
    match SetPlan(c, sum, json, namespace, k, value)
    case Abort(e) => Some(e)
    case Issue(cmd) => conn(cmd).err
  }

  /** The command `HSet` sends, or the marshalling error that stops it
      before anything is sent. */
  function HSetPlan<T>(c: Cache, sum: SumFn, json: T -> BytesResult, namespace: seq<string>, k: string,
                       field: string, value: Value<T>): (p: Plan)
    ensures p.Abort? <==> Marshal(json, value).err.Some?
    ensures p.Abort? ==> Some(p.err) == Marshal(json, value).err
    ensures p.Issue? ==> (p.cmd.verb == HMSET &&
      p.cmd.args == [StrArg(GcUtils.Key(sum, c.hashKeys, namespace, k)), StrArg(field), BytesArg(Marshal(json, value).bs)])
  {
    var m := Marshal(json, value);
    if m.err.Some? then Abort(m.err.value)
    else Issue(Command(HMSET, [StrArg(Key(c, sum, namespace, k)), StrArg(field), BytesArg(m.bs)]))
  }

  /** `Cache.HSet`: as `Set`, with one HMSET command. */
  function HSet<T, R>(c: Cache, sum: SumFn, json: T -> BytesResult, conn: Command -> DoResult<R>,
                      namespace: seq<string>, k: string, field: string, value: Value<T>): (r: Option<Error>)
    ensures Marshal(json, value).err.Some? ==> r == Marshal(json, value).err
    ensures Marshal(json, value).err == None ==> r == conn(HSetPlan(c, sum, json, namespace, k, field, value).cmd).err
  {
    match HSetPlan(c, sum, json, namespace, k, field, value)
    case Abort(e) => Some(e)
    case Issue(cmd) => conn(cmd).err
  }

  /** `Cache.Get`: one GET of the cache key, its reply classified by
      `Unmarshal`. */
  function Get<R>(c: Cache, sum: SumFn, bytes: (Reply<R>, Option<Error>) -> BytesResult,
                  conn: Command -> DoResult<R>, namespace: seq<string>, k: string): (r: Fetched)
    ensures var d := conn(Command(GET, [StrArg(GcUtils.Key(sum, c.hashKeys, namespace, k))]));
      r == Unmarshal(bytes, d.reply, d.err) &&
      (d.reply.Nil? && d.err == None ==> r == Fetched([], false, None)) &&
      (!(d.reply.Nil? && d.err == None) ==> r.err == bytes(d.reply, d.err).err && (r.err == None ==> r.found))
  {
    var d := conn(Command(GET, [StrArg(Key(c, sum, namespace, k))]));
    Unmarshal(bytes, d.reply, d.err)
  }

  /** `Cache.HGet`: one HGET of a field of the cache key, its reply
      classified by `Unmarshal`. */
  function HGet<R>(c: Cache, sum: SumFn, bytes: (Reply<R>, Option<Error>) -> BytesResult,
                   conn: Command -> DoResult<R>, namespace: seq<string>, k: string, field: string): (r: Fetched)
    ensures var d := conn(Command(HGET, [StrArg(GcUtils.Key(sum, c.hashKeys, namespace, k)), StrArg(field)]));
      r == Unmarshal(bytes, d.reply, d.err) &&
      (d.reply.Nil? && d.err == None ==> r == Fetched([], false, None)) &&
      (!(d.reply.Nil? && d.err == None) ==> r.err == bytes(d.reply, d.err).err && (r.err == None ==> r.found))
  {
    var d := conn(Command(HGET, [StrArg(Key(c, sum, namespace, k)), StrArg(field)]));
    Unmarshal(bytes, d.reply, d.err)
  }

  /** `Cache.Del`: the error of one DEL of the cache key. */
  function Del<R>(c: Cache, sum: SumFn, conn: Command -> DoResult<R>, namespace: seq<string>, k: string): (r: Option<Error>)
    ensures r == conn(Command(DEL, [StrArg(GcUtils.ScopePrefix(namespace) + GcUtils.MaybeSha1(sum, c.hashKeys, k))])).err
  {
    conn(Command(DEL, [StrArg(Key(c, sum, namespace, k))])).err
  }

  /** `Cache.HDel`: the error of one HDEL of a field of the cache key. */
  function HDel<R>(c: Cache, sum: SumFn, conn: Command -> DoResult<R>, namespace: seq<string>, k: string,
                   field: string): (r: Option<Error>)
    ensures r == conn(Command(HDEL, [StrArg(GcUtils.ScopePrefix(namespace) + GcUtils.MaybeSha1(sum, c.hashKeys, k)), StrArg(field)])).err
  {
    conn(Command(HDEL, [StrArg(Key(c, sum, namespace, k)), StrArg(field)])).err
  }

  /** A string and its bytes are marshalled alike: a string is stored as
      its raw bytes, never as a JSON string literal. */
  lemma StringMarshalsAsBytes<T>(json: T -> BytesResult, s: string)
    ensures Marshal(json, Str(s)) == Marshal(json, ByteSlice(Utf8.Encode(s)))
  {
  }

  /** A transport error reported with the reply is returned unchanged with
      `found` false, as long as the byte conversion passes it on as
      `redis.Bytes` does. */
  lemma UnmarshalPassesOnError<R>(bytes: (Reply<R>, Option<Error>) -> BytesResult, response: Reply<R>, e: Error)
    requires bytes(response, Some(e)).err == Some(e)
    ensures Unmarshal(bytes, response, Some(e)) == Fetched([], false, Some(e))
  {
  }
}
