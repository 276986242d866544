/** Failure values shared by the whole model of the network.

    nn.js reports every failure by throwing a string (or, in a few places,
    by letting the JavaScript engine throw a TypeError). The model names
    each distinct condition and returns it in a Result instead of throwing.
 */
module Results {

  /** One constructor per distinct failure of nn.js. */
  datatype Error =
    | InvalidArguments    // constructor called with fewer than four arguments
    | UnknownActivation   // last constructor argument is not a known activation name
    | InputSizeMismatch   // eval: input length differs from the input layer
    | WrongArraySizes     // mse: input or target length differs from its layer
    | TargetSizeMismatch  // backprop: target length differs from the output layer
    | NoFinishCondition   // train: neither epochs nor minMSE is truthy
    | CountMismatch       // train: inputs and targets differ in count
    | DataSizeMismatch    // load: parsed data does not fit the network's shape
    | TypeError           // a property of `undefined` was read

  datatype Option<+T> = None | Some(value: T)

  /** Either the value an operation computed or the error it throws. */
  datatype Result<+T> = Ok(value: T) | Err(error: Error) {

    predicate IsFailure() {
      Err?
    }

    function PropagateFailure<U>(): Result<U>
      requires Err?
    {
      Err(error)
    }

    function Extract(): T
      requires Ok?
    {
      value
    }
  }
}
