module Common {

  datatype Option<+T> = None | Some(value: T)

  /** Outcome of a store operation: `NotFound` is the error some callers tolerate. */
  datatype StoreError = NotFound | InternalError

  datatype Result<+T> = Ok(value: T) | Err(error: StoreError) {
    predicate IsFailure() {
      Err?
    }

    function PropagateFailure<U>(): Result<U>
      requires Err?
    {
      Err(error)
    }

    function Extract(): T
      requires Ok?
    {
      value
    }
  }

  const U64_LIMIT: nat := 0x1_0000_0000_0000_0000
  type U64 = x: nat | x < U64_LIMIT

  type Byte = x: nat | x < 256

  /** The bytes of a stream that arrives in pieces. */
  function Concat(chunks: seq<seq<Byte>>): seq<Byte> {
    if chunks == [] then [] else chunks[0] + Concat(chunks[1..])
  }

  type U32 = x: nat | x < 0x1_0000_0000

  /** The log index that stands for "no entry". */
  const NO_INDEX: U64 := U64_LIMIT - 1

  datatype RaftId = RaftId(term: nat, index: U64)
}
