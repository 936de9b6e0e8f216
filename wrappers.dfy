/** Option and Result types, and the error conditions of the translator.
    Every exception the translator can raise becomes an `Err` value. */
module Wrappers {

  /** A nullable value: `bool?` in the translator becomes `Option<bool>`. */
  datatype Option<+T> = None | Some(value: T) {

    function GetOr(default: T): T {
      match this
      case Some(v) => v
      case None => default
    }
  }

  /** The fatal conditions of one run. */
  datatype Error =
    | OutOfRange     // a cell read outside the frame
    | UnknownColour  // a pixel whose colour is not in the tile table
    | Unsupported    // a tile kind the oracle or tracer has no rule for
    | NotUnique      // a `Single()` lookup that found zero or several components
    | NullInput      // an expression built from a gate with an unset input
    | Stuck          // a sweep that added no clamp
    | Exhausted      // the recursion or sweep bound of the model was reached

  datatype Result<+T> = Ok(value: T) | Err(error: Error) {

    predicate IsFailure() {
      Err?
    }

    function PropagateFailure<U>(): Result<U>
      requires Err?
    {
      Err(error)
    }

    function Extract(): T
      requires Ok?
    {
      value
    }
  }
}
