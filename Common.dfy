/** Option and Result, the two shapes every modelled operation returns. */
module Common {

  /** `null`/`undefined` versus a present value. */
  datatype Option<+T> = None | Some(value: T)

  /** Why a JavaScript call threw:
      - `Thrown`: an `Error` the application builds with a message;
      - `NetworkFailure`: the `TypeError` `fetch` rejects with when no response arrives;
      - `MissingProperty`: the `TypeError` of reading a property of `undefined`;
      - `InvalidCharacter`: the `DOMException` `btoa` throws above U+00FF. */
  datatype Failure = Thrown(message: string) | NetworkFailure | MissingProperty | InvalidCharacter

  /** The value a call returns, or the exception it throws. */
  datatype Result<+T> = Ok(value: T) | Err(error: Failure)
}
