/** The two Redis wrappers treat values alike: redistore's marshalling and
    reply handling are gcredis's, input for input. */
module WrapperAgreement {
  import opened Go
  import opened Redigo
  import GcRedis
  import RediStore

  lemma MarshalAgrees<T>(json: T -> BytesResult, v: Value<T>)
    ensures RediStore.Marshal(json, v) == GcRedis.Marshal(json, v)
  {
  }

  lemma UnmarshalAgrees<R>(bytes: (Reply<R>, Option<Error>) -> BytesResult, response: Reply<R>, err: Option<Error>)
    ensures RediStore.Unmarshal(bytes, response, err) == GcRedis.Unmarshal(bytes, response, err)
  {
  }

  /** A write that fails to marshal fails identically in both wrappers,
      whatever either would have sent. */
  lemma SetMarshalErrorAgrees<T, R>(c: GcRedis.Cache, sum: SumFn, json: T -> BytesResult, conn: Command -> DoResult<R>,
                                    send: seq<byte> -> Option<Error>, namespace: seq<string>, k: string, value: Value<T>)
    requires value.Other? && json(value.x).err.Some?
    ensures GcRedis.Set(c, sum, json, conn, namespace, k, value) == RediStore.Set(json, send, value) == json(value.x).err
  {
  }
}
