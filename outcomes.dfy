/** Python-level vocabulary shared by every service: how a block of code ends,
    the exceptions the services raise or let through, and the HTTP replies they
    exchange. */
module Outcomes {

  /** A value of `random.randint(1, 100)`. */
  type Draw = d: int | 1 <= d <= 100 witness 1

  datatype Option<T> = None | Some(value: T)

  /** The exceptions the modelled code raises or lets through. */
  datatype PyError =
    | Exception(message: string)       // `raise Exception(message)`
    | KeyError(key: string)            // a missing dictionary key
    | TypeError(message: string)
    | ValueError(message: string)
    | ValidationError(model: string)   // pydantic rejected the fields given to `model`
    | ClientError(message: string)     // raised by a Redis, MySQL or DynamoDB client

  /** `str(e)`. For a KeyError Python shows the quoted key; pydantic's own
      wording of a validation error is not modelled, only the class it names. */
  function Str(e: PyError): string {
    match e
    case Exception(m) => m
    case KeyError(k) => "'" + k + "'"
    case TypeError(m) => m
    case ValueError(m) => m
    case ValidationError(model) => "validation error for " + model
    case ClientError(m) => m
  }

  /** How a block of code ends: it returns a value or it raises. */
  datatype Outcome<T> = Returned(value: T) | Raised(error: PyError)

  /** A value and the seconds an injected delay slept before it was produced. */
  datatype Delayed<T> = Delayed(value: T, latency: real)

  /** A decoded JSON body: the data of a successful call, or the
      `{"message": ...}` object the services send with an error status. */
  datatype Body<T> = Data(value: T) | Message(message: string)

  /** An HTTP reply: its status code and its decoded JSON body. */
  datatype Reply<T> = Reply(status: int, body: Body<T>)

  /** httpx's `Response.is_success`; `raise_for_status` raises for every other status. */
  predicate IsSuccess(status: int) {
    200 <= status <= 299
  }

  const OK: int := 200
  const NOT_FOUND: int := 404
  const INTERNAL_SERVER_ERROR: int := 500
}
