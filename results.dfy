/** Error reporting shared by the whole model: every `throw` of the source,
    and every run-time failure of the JavaScript code, becomes an `Error`. */
module Results {

  datatype Error =
    | ShapeMismatch          // a shape check failed (setter, operation precondition, legacy operation)
    | Arity                  // an operation received the wrong number of tensors
    | NotConnected           // a gradient was read before backward() set it
    | NonScalarBackward      // backward() without a gradient on a tensor whose shape is not [1]
    | GradientCount          // verify: backward returned a different number of gradients
    | GradientShape(index: nat)  // verify: the gradient at `index` has the wrong shape
    | Crash                  // JavaScript fails at run time (property of undefined, reduce of an empty array)
    | NonNumeric             // JavaScript would go on with NaN, Infinity, undefined or a string; the model stops
    | InfinitySeen           // the training loop saw an infinite loss
    | ZeroValue              // legacy divide met a zero divisor
    | ValueNotDefined        // legacy constructor was given a falsy value
    | NoOutput               // a function returned undefined where a tensor was expected

  datatype Option<+T> = None | Some(value: T) {
    function GetOr(default: T): T {
      match this
      case Some(v) => v
      case None => default
    }
  }

  datatype Result<+T> = Ok(value: T) | Err(error: Error) {
    predicate IsFailure() { Err? }
    function PropagateFailure<U>(): Result<U>
      requires Err?
    {
      Err(error)
    }
    function Extract(): T
      requires Ok?
    {
      value
    }
  }

  datatype Outcome = Pass | Fail(error: Error) {
    predicate IsFailure() { Fail? }
    function PropagateFailure(): Outcome
      requires Fail?
    {
      this
    }
  }
}
