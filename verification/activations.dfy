/** The activation registry of nn.js: three named activation/derivative
    pairs, where each derivative takes the activation's OUTPUT, not its input.

    The logistic function and tanh come from `Math.exp` and `Math.tanh`. Both
    are transcendental, so the model does not interpret them: every operation
    receives them in a `Transcendentals` record, and no property below depends
    on what they compute. ReLU and all three derivatives are piecewise
    polynomials and are modelled exactly.
 */
module Activations {
  import opened Results
  import opened Powers

  datatype Activation = Logistic | Tanh | Relu

  /** The uninterpreted transcendental activations: x ↦ 1/(1+e^-x) and x ↦ tanh x. */
  datatype Transcendentals = Transcendentals(logistic: real -> real, tanh: real -> real)

  /** The constructor's trailing argument, resolved by the `switch` in the
      constructor. Any other value, a non-string included, is unknown. */
  function Lookup(name: string): (r: Option<Activation>)
    ensures r == Some(Logistic) <==> name == "logistic"
    ensures r == Some(Tanh) <==> name == "tanh"
    ensures r == Some(Relu) <==> name == "relu"
    ensures r.None? <==> name !in {"logistic", "tanh", "relu"}
  {
    if name == "logistic" then Some(Logistic)
    else if name == "tanh" then Some(Tanh)
    else if name == "relu" then Some(Relu)
    else None
  }

  /** The activation applied to a neuron's weighted input. ReLU is `Math.max(0, x)`. */
  function Activate(a: Activation, tr: Transcendentals, x: real): (r: real)
    ensures a == Relu ==> 0.0 <= r && x <= r && (r == 0.0 || r == x)
    ensures a == Logistic ==> r == tr.logistic(x)
    ensures a == Tanh ==> r == tr.tanh(x)
  {
    match a
    case Logistic => tr.logistic(x)
    case Tanh => tr.tanh(x)
    case Relu => if 0.0 < x then x else 0.0
  }

  /** The derivative of the activation, given the activation's output y:
      y·(1−y) for the logistic function, 1 − `Math.pow(y, 2)` for tanh, and for ReLU 0 when
      y is exactly 0 and 1 otherwise. */
  function Derivative(a: Activation, y: real): (r: real)
    ensures a == Logistic ==> r <= 1.0 / 4.0
    ensures a == Tanh ==> r <= 1.0 && (r == 1.0 <==> y == 0.0)
    ensures a == Relu ==> (r == 0.0 <==> y == 0.0)
    ensures a == Relu ==> (r == 0.0 || r == 1.0)
  {
    match a
    case Logistic =>
      assert y * (1.0 - y) == 1.0 / 4.0 - (y - 1.0 / 2.0) * (y - 1.0 / 2.0);
      y * (1.0 - y)
    case Tanh =>
      SquareSign(y);
      1.0 - Pow(y, 2)
    case Relu => if y == 0.0 then 0.0 else 1.0
  }

  /** Since a ReLU output is 0 exactly when the weighted input is not
      positive, the output-based ReLU derivative is the slope of ReLU at
      every input. At 0, where ReLU has no slope, it gives 0. */
  lemma ReluDerivativeIsSlope(tr: Transcendentals, x: real)
    ensures Derivative(Relu, Activate(Relu, tr, x)) == (if 0.0 < x then 1.0 else 0.0)
  {
  }
}
