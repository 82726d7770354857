/**
 * The values the job-type registry and the scheduler talk about: payload
 * kinds and values (standing in for Go's reflect.Type and interface{}),
 * handler shapes (standing in for reflection on the handler function),
 * the JobType descriptor and the error taxonomy.
 */
module Types {
  import opened Wrappers

  newtype byte = x: int | 0 <= x < 256

  type Bytes = seq<byte>

  /** The runtime kind of a payload value. */
  datatype Kind = StringKind | IntKind | BoolKind | BytesKind

  /** A payload value as passed to Schedule. */
  datatype Value =
    | StringValue(s: string)
    | IntValue(i: int)
    | BoolValue(b: bool)
    | BytesValue(bs: Bytes)

  function KindOf(v: Value): Kind
  {
    match v
    case StringValue(_) => StringKind
    case IntValue(_) => IntKind
    case BoolValue(_) => BoolKind
    case BytesValue(_) => BytesKind
  }

  /**
   * The payload codec. Its byte format is not part of this model, so it is
   * a parameter of every operation that encodes; it may fail (None).
   */
  type Encoder = Value -> Option<Bytes>

  /**
   * What reflection reveals about a handler: either it is not a function
   * at all, or it is a function with the given parameter kinds.
   */
  datatype HandlerShape = NotAFunc | Func(params: seq<Kind>)

  /** A handler is accepted only if it is a function of zero or one parameter. */
  predicate ValidHandler(h: HandlerShape)
  {
    h.Func? && |h.params| <= 1
  }

  /** A registered job type: its unique name, its retry budget and its handler. */
  datatype JobType = JobType(name: string, retries: nat, handler: HandlerShape)
  {
    /** The kind of payload the handler expects, if it takes a parameter. */
    function PayloadKind(): Option<Kind>
      requires ValidHandler(handler)
    {
      if |handler.params| == 1 then Some(handler.params[0]) else None
    }

    /** A payload is acceptable when the handler takes no parameter or takes one of its kind. */
    predicate Accepts(data: Value)
      requires ValidHandler(handler)
    {
      PayloadKind().None? || PayloadKind().value == KindOf(data)
    }
  }

  datatype Error =
    | NameAlreadyRegistered(name: string)
    | InvalidHandler(handler: HandlerShape)
    | InvalidJobData(expected: Kind, got: Kind)
    | EncodeFailed
}
