/** The surface of the Redis client library (redigo) that the wrappers
    touch. What the server does with a command is not modelled: a
    connection is a function from a command to the reply it produced. */
module Redigo {
  import opened Go

  /** A reply as `conn.Do` hands it back: Go's `nil` when the key or field
      does not exist, otherwise some reply value of type `R`. */
  datatype Reply<R> = Nil | Present(value: R)

  /** The `(interface{}, error)` pair `conn.Do` returns. */
  datatype DoResult<R> = DoResult(reply: Reply<R>, err: Option<Error>)

  datatype Verb = SET | HMSET | GET | HGET | DEL | HDEL

  datatype Arg = StrArg(s: string) | BytesArg(b: seq<byte>)

  /** One call `conn.Do(verb, args...)`. */
  datatype Command = Command(verb: Verb, args: seq<Arg>)

  /** What a write does before it reaches the connection: either the one
      command it will issue, or the error that stopped it first. */
  datatype Plan = Issue(cmd: Command) | Abort(err: Error)

  /** The `([]byte, bool, error)` triple a read returns. */
  datatype Fetched = Fetched(bs: seq<byte>, found: bool, err: Option<Error>)
}
