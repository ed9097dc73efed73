/** Shared result types for the interview model. */
module Common {

  /** A value that may be absent: JavaScript's `undefined`/`null` versus a present value. */
  datatype Option<+T> = None | Some(value: T)

  /** Why a call to the external generation service did not produce a value. The
      two cases are handled identically by every caller: the call is reported as
      failed and nothing it would have produced is stored. */
  datatype CallError = SchemaViolation | ProviderFailure

  /** The outcome of one external generation call. */
  datatype Result<+T> = Ok(value: T) | Err(error: CallError)

  function Min(a: int, b: int): int {
    if a <= b then a else b
  }
}
