/** Results, error kinds and small notions shared by the components. */
module Common {

  datatype Option<+T> = None | Some(value: T)

  /** The kinds of `EngineError` the modelled code returns; message texts are not modelled. */
  datatype Error =
    | Conflict
    | PreconditionFailed
    | NotFound
    | InvalidRequest
    | AdapterError
    | Internal

  datatype Result<+T> = Ok(value: T) | Err(error: Error) {
    predicate IsFailure() {
      Err?
    }

    function PropagateFailure<U>(): Result<U>
      requires Err?
    {
      Err(error)
    }

    function Extract(): T
      requires Ok?
    {
      value
    }
  }

  /** A JSON document, with objects read as unordered maps. */
  datatype Value =
    | Null
    | Bool(b: bool)
    | Number(token: string)
    | String(s: string)
    | Array(items: seq<Value>)
    | Object(fields: map<string, Value>)

  const I64_MAX: int := 0x7FFF_FFFF_FFFF_FFFF
  const I64_MIN: int := -I64_MAX - 1
  const U64_MAX: nat := 0xFFFF_FFFF_FFFF_FFFF

  type u64 = n: nat | n <= U64_MAX

  /** The network a deployment or a request is for. */
  datatype Network = Mainnet | Testnet

  /** Nothing happens earlier than what comes before it, or than `since`. */
  predicate Monotone<T>(time: T -> int, xs: seq<T>, since: int)
    decreases |xs|
  {
    xs == [] || (since <= time(xs[0]) && Monotone(time, xs[1..], time(xs[0])))
  }
}
