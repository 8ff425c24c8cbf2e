/** Option and Result, and the exceptions the core can raise. */
module Results {

  datatype Option<+T> = None | Some(value: T)

  /** The exceptions of the conversion core. */
  datatype Error =
    | MissingKey(key: string)  // thrown by `convert` for an absent required field
    | InvalidCharacter         // the DOMException `atob` and `btoa` throw
    | TypeError                // a value of the wrong shape reached a property access or a call
    | RangeError               // `new Uint8Array(n)` for a negative length

  /** A computation that returns a value or throws; usable with `:-`. */
  datatype Result<+T> = Success(value: T) | Failure(error: Error) {

    predicate IsFailure() {
      Failure?
    }

    function PropagateFailure<U>(): Result<U>
      requires Failure?
    {
      Failure(error)
    }

    function Extract(): T
      requires Success?
    {
      value
    }
  }
}
