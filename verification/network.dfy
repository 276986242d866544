/** The `NeuralNetwork` class of nn.js: construction from variadic arguments,
    the forward pass (`eval` and `Layer.feed`) and the loss (`mse`).

    The network is an immutable value: an operation that mutates layers in
    place in the source returns the updated network here. In particular
    `eval` and `mse` return the network whose neuron values were refreshed,
    because `backprop` reads those values.
 */
module Network {
  import opened Results
  import opened Activations
  import opened Layers
  import opened Powers

  /** Layer 0 is the input layer, the last one the output layer and the
      ones between the hidden layers, in chain order. */
  datatype Net = Net(layers: seq<Layer>, activation: Activation)

  /** Layer k has the shape its predecessor's size calls for. */
  predicate LinkedAt(layers: seq<Layer>, k: nat)
    requires 1 <= k < |layers|
  {
    HasShape(layers[k], |layers[k - 1].neurons|)
  }

  /** The shape invariant: an input layer, at least one hidden layer, an
      output layer, and every other layer shaped by its predecessor. */
  predicate Chain(layers: seq<Layer>) {
    && |layers| >= 3
    && layers[0].Input?
    && forall k :: 1 <= k < |layers| ==> LinkedAt(layers, k)
  }

  predicate WellFormed(net: Net) {
    Chain(net.layers)
  }

  function InputSize(net: Net): nat
    requires WellFormed(net)
  {
    |net.layers[0].neurons|
  }

  function OutputSize(net: Net): nat
    requires WellFormed(net)
  {
    |net.layers[|net.layers| - 1].neurons|
  }

  /** l and m agree on everything but their neuron values. */
  predicate SameParams(l: Layer, m: Layer) {
    && |l.neurons| == |m.neurons|
    && l.Input? == m.Input?
    && (l.Linked? && m.Linked? ==> l.weights == m.weights && l.biases == m.biases && l.deltas == m.deltas)
  }

  /** l and m have the same kind and, if linked, the same weights and biases. */
  predicate SameWeights(l: Layer, m: Layer) {
    && l.Input? == m.Input?
    && (l.Linked? && m.Linked? ==> l.weights == m.weights && l.biases == m.biases)
  }

  /** Two chains with the same layer sizes and kinds. */
  predicate SameShape(ls: seq<Layer>, ms: seq<Layer>) {
    && |ls| == |ms|
    && forall k :: 0 <= k < |ls| ==> |ls[k].neurons| == |ms[k].neurons| && ls[k].Input? == ms[k].Input?
  }

  // ---------------------------------------------------------------------
  // Construction
  // ---------------------------------------------------------------------

  /** A constructor argument: a number or a string. */
  datatype Arg = Num(n: nat) | Text(s: string)

  /** The length of `new Array(x)`: x itself for a number, and 1 for any
      other value, which becomes the array's only element. */
  function ArrayLength(x: Arg): nat {
    match x
    case Num(n) => n
    case Text(_) => 1
  }

  /** The activation the last argument names, if any. */
  function ActivationArg(x: Arg): Option<Activation> {
    match x
    case Text(s) => Lookup(s)
    case Num(_) => None
  }

  /** The constructor's split of its arguments: the input size, the hidden
      sizes from positions 1 to n−3, and the output size at position n−2. */
  function LayerSizes(args: seq<Arg>): (sizes: seq<nat>)
    requires |args| >= 4
    ensures |sizes| == |args| - 1
    ensures forall k :: 0 <= k < |sizes| ==> sizes[k] == ArrayLength(args[k])
  {
    var hidden := seq(|args| - 3, i requires 0 <= i < |args| - 3 => ArrayLength(args[i + 1]));
    [ArrayLength(args[0])] + hidden + [ArrayLength(args[|args| - 2])]
  }

  /** Builds the chain of layers of the given sizes and initialises every
      non-input layer: weight (i, j) of layer k is `init(k, i, j)` (the
      source draws it from `Math.random`), every bias is 0.1. */
  function BuildLayers(sizes: seq<nat>, init: (nat, nat, nat) -> real): (layers: seq<Layer>)
    requires |sizes| >= 3
    ensures Chain(layers)
    ensures |layers| == |sizes|
    ensures forall k :: 0 <= k < |sizes| ==> |layers[k].neurons| == sizes[k]
    ensures FreshlyInitialised(layers, init)
  {
    var layers := seq(|sizes|, k requires 0 <= k < |sizes| => BuildLayer(sizes, init, k));
    assert forall k :: 1 <= k < |layers| ==> LinkedAt(layers, k) by {
      forall k | 1 <= k < |layers|
        ensures LinkedAt(layers, k)
      {
        assert layers[k] == BuildLayer(sizes, init, k) && layers[k - 1] == BuildLayer(sizes, init, k - 1);
      }
    }
    layers
  }

  /** Layer k of a freshly built chain. */
  function BuildLayer(sizes: seq<nat>, init: (nat, nat, nat) -> real, k: nat): (l: Layer)
    requires k < |sizes|
    ensures |l.neurons| == sizes[k]
    ensures k == 0 <==> l.Input?
    ensures k > 0 ==> HasShape(l, sizes[k - 1])
    ensures k > 0 ==> forall j :: 0 <= j < |l.biases| ==> l.biases[j] == 0.1
    ensures k > 0 ==> forall i, j :: 0 <= i < |l.weights| && 0 <= j < |l.weights[i]| ==> l.weights[i][j] == init(k, i, j)
  {
    if k == 0 then NewInput(sizes[0])
    else NewLinked(sizes[k], sizes[k - 1], Draws(init, k))
  }

  /** The weight draws of layer k. */
  function Draws(init: (nat, nat, nat) -> real, k: nat): (nat, nat) -> real {
    (i: nat, j: nat) => init(k, i, j)
  }

  /** What construction leaves in the parameters: every bias of every
      non-input layer is 0.1 and weight (i, j) of layer k is init(k, i, j). */
  predicate FreshlyInitialised(layers: seq<Layer>, init: (nat, nat, nat) -> real) {
    forall k :: 1 <= k < |layers| ==>
      && layers[k].Linked?
      && (forall j :: 0 <= j < |layers[k].biases| ==> layers[k].biases[j] == 0.1)
      && (forall i, j :: 0 <= i < |layers[k].weights| && 0 <= j < |layers[k].weights[i]| ==>
            layers[k].weights[i][j] == init(k, i, j))
  }

  /** `new NeuralNetwork(...args)`. */
  function Construct(args: seq<Arg>, init: (nat, nat, nat) -> real): (r: Result<Net>)
    ensures r == Err(InvalidArguments) <==> |args| < 4
    ensures r == Err(UnknownActivation) <==> |args| >= 4 && ActivationArg(args[|args| - 1]).None?
    ensures r.Ok? <==> |args| >= 4 && ActivationArg(args[|args| - 1]).Some?
    ensures r.Ok? ==> |args| >= 4 && ActivationArg(args[|args| - 1]) == Some(r.value.activation)
    ensures r.Ok? ==> WellFormed(r.value)
    ensures r.Ok? ==> |r.value.layers| == |args| - 1
    ensures r.Ok? ==> forall k :: 0 <= k < |args| - 1 ==> |r.value.layers[k].neurons| == ArrayLength(args[k])
    ensures r.Ok? ==> FreshlyInitialised(r.value.layers, init)
  {
    if |args| < 4 then Err(InvalidArguments)
    else
      match ActivationArg(args[|args| - 1])
      case None => Err(UnknownActivation)
      case Some(a) => Ok(Net(BuildLayers(LayerSizes(args), init), a))
  }

  // ---------------------------------------------------------------------
  // Forward pass
  // ---------------------------------------------------------------------

  /** `layers[k].feed(x)`: layer k takes the values x, computes its
      successor's values and feeds them on, down to the output layer. */
  function Feed(a: Activation, tr: Transcendentals, layers: seq<Layer>, k: nat, x: seq<real>): (r: seq<Layer>)
    requires Chain(layers) && k < |layers| && |x| == |layers[k].neurons|
    ensures |r| == |layers| && Chain(r)
    ensures forall i :: 0 <= i < |r| ==> SameParams(r[i], layers[i])
    ensures forall i :: 0 <= i < k ==> r[i] == layers[i]
    ensures r[k].neurons == x
    ensures forall i :: k < i < |r| ==> r[i].neurons == Incoming(a, tr, r, i)
    decreases |layers| - k
  {
    var here := layers[k := layers[k].(neurons := x)];
    assert forall i :: 1 <= i < |here| ==> LinkedAt(here, i) by {
      forall i | 1 <= i < |here| ensures LinkedAt(here, i) {
        assert LinkedAt(layers, i);
      }
    }
    if k == |layers| - 1 then here
    else
      var r := Feed(a, tr, here, k + 1, Incoming(a, tr, here, k + 1));
      assert r[k] == here[k] && SameParams(r[k + 1], here[k + 1]);
      assert LinkedAt(r, k + 1) && LinkedAt(here, k + 1);
      assert Incoming(a, tr, r, k + 1) == Incoming(a, tr, here, k + 1);
      r
  }

  /** The values layer k receives from layer k−1 in a forward pass. */
  function Incoming(a: Activation, tr: Transcendentals, layers: seq<Layer>, k: nat): (y: seq<real>)
    requires Chain(layers) && 1 <= k < |layers|
    ensures |y| == |layers[k].neurons|
  {
    assert LinkedAt(layers, k);
    LayerOutputs(a, tr, layers[k - 1].neurons, layers[k].weights, layers[k].biases)
  }

  /** The values layer k takes when the network evaluates x, computed from x
      alone by the layer recurrence, without any stored neuron values. */
  function Forward(a: Activation, tr: Transcendentals, layers: seq<Layer>, x: seq<real>, k: nat): (y: seq<real>)
    requires Chain(layers) && k < |layers| && |x| == |layers[0].neurons|
    ensures |y| == |layers[k].neurons|
  {
    if k == 0 then x
    else
      assert LinkedAt(layers, k);
      LayerOutputs(a, tr, Forward(a, tr, layers, x, k - 1), layers[k].weights, layers[k].biases)
  }

  /** The network after a forward pass, and the output vector it returned. */
  datatype Evaluated = Evaluated(net: Net, output: seq<real>)

  /** `eval(x)`. */
  function Eval(net: Net, tr: Transcendentals, x: seq<real>): (r: Result<Evaluated>)
    requires WellFormed(net)
    ensures r.Err? <==> |x| != InputSize(net)
    ensures r.Err? ==> r.error == InputSizeMismatch
    ensures r.Ok? ==> WellFormed(r.value.net) && r.value.net.activation == net.activation
    ensures r.Ok? ==> |r.value.net.layers| == |net.layers|
    ensures r.Ok? ==> forall k :: 0 <= k < |net.layers| ==> SameParams(r.value.net.layers[k], net.layers[k])
    ensures r.Ok? ==> r.value.net.layers[0].neurons == x
    ensures r.Ok? ==> forall k :: 1 <= k < |net.layers| ==>
      r.value.net.layers[k].neurons == Incoming(net.activation, tr, r.value.net.layers, k)
    ensures r.Ok? ==> r.value.output == r.value.net.layers[|net.layers| - 1].neurons
    ensures r.Ok? ==> |r.value.output| == OutputSize(net)
  {
    if |x| != InputSize(net) then Err(InputSizeMismatch)
    else
      var layers := Feed(net.activation, tr, net.layers, 0, x);
      Ok(Evaluated(Net(layers, net.activation), layers[|layers| - 1].neurons))
  }

  /** After evaluating x, layer k holds the value the layer recurrence gives. */
  lemma {:induction false} EvalLayerIsForward(net: Net, tr: Transcendentals, x: seq<real>, k: nat)
    requires WellFormed(net) && |x| == InputSize(net) && k < |net.layers|
    ensures Eval(net, tr, x).Ok?
    ensures Eval(net, tr, x).value.net.layers[k].neurons == Forward(net.activation, tr, net.layers, x, k)
  {
    if k > 0 {
      EvalLayerIsForward(net, tr, x, k - 1);
      var ls := Eval(net, tr, x).value.net.layers;
      assert ls[k].neurons == Incoming(net.activation, tr, ls, k);
      assert SameParams(ls[k], net.layers[k]);
      assert LinkedAt(ls, k) && LinkedAt(net.layers, k);
      assert Incoming(net.activation, tr, ls, k) ==
        LayerOutputs(net.activation, tr, Forward(net.activation, tr, net.layers, x, k - 1), net.layers[k].weights, net.layers[k].biases);
    }
  }

  /** Evaluating fills every layer with the value the layer recurrence gives,
      so the output is `Forward` at the output layer. */
  lemma EvalIsForward(net: Net, tr: Transcendentals, x: seq<real>)
    requires WellFormed(net) && |x| == InputSize(net)
    ensures Eval(net, tr, x).Ok?
    ensures forall k :: 0 <= k < |net.layers| ==>
      Eval(net, tr, x).value.net.layers[k].neurons == Forward(net.activation, tr, net.layers, x, k)
    ensures Eval(net, tr, x).value.output == Forward(net.activation, tr, net.layers, x, |net.layers| - 1)
  {
    hide Eval, Forward, Feed;
    forall k | 0 <= k < |net.layers|
      ensures Eval(net, tr, x).value.net.layers[k].neurons == Forward(net.activation, tr, net.layers, x, k)
    {
      EvalLayerIsForward(net, tr, x, k);
    }
    OutputIsForward(net, tr, x);
  }

  /** The output of `eval` is `Forward` at the output layer. */
  lemma OutputIsForward(net: Net, tr: Transcendentals, x: seq<real>)
    requires WellFormed(net) && |x| == InputSize(net)
    ensures Eval(net, tr, x).Ok?
    ensures Eval(net, tr, x).value.output == Forward(net.activation, tr, net.layers, x, |net.layers| - 1)
  {
    EvalLayerIsForward(net, tr, x, |net.layers| - 1);
  }

  /** Forward reads only weights and biases, so two networks that differ
      only in their stored neuron values and deltas agree on it. */
  lemma {:induction false} ForwardIgnoresState(a: Activation, tr: Transcendentals, ls: seq<Layer>, ms: seq<Layer>, x: seq<real>, k: nat)
    requires Chain(ls) && Chain(ms) && |ls| == |ms| && k < |ls| && |x| == |ls[0].neurons|
    requires forall i :: 0 <= i < |ls| ==> SameWeights(ls[i], ms[i])
    ensures |x| == |ms[0].neurons|
    ensures Forward(a, tr, ls, x, k) == Forward(a, tr, ms, x, k)
  {
    assert LinkedAt(ls, 1) && LinkedAt(ms, 1);
    if k > 0 {
      ForwardIgnoresState(a, tr, ls, ms, x, k - 1);
      assert LinkedAt(ls, k) && LinkedAt(ms, k);
    }
  }

  /** The output of `eval` depends only on the activation, the weights, the
      biases and the input: never on the neuron values or deltas left
      behind by earlier calls. */
  lemma EvalIsDeterministic(net1: Net, net2: Net, tr: Transcendentals, x: seq<real>)
    requires WellFormed(net1) && WellFormed(net2) && net1.activation == net2.activation
    requires |net1.layers| == |net2.layers|
    requires forall i :: 0 <= i < |net1.layers| ==> SameWeights(net1.layers[i], net2.layers[i])
    requires |x| == InputSize(net1)
    ensures Eval(net1, tr, x).Ok? && Eval(net2, tr, x).Ok?
    ensures Eval(net1, tr, x).value.output == Eval(net2, tr, x).value.output
  {
    assert Chain(net1.layers) && Chain(net2.layers) && |x| == |net1.layers[0].neurons|;
    assert InputSize(net2) == |net2.layers[0].neurons|;
    hide *;
    ForwardIgnoresState(net1.activation, tr, net1.layers, net2.layers, x, |net1.layers| - 1);
    OutputIsForward(net1, tr, x);
    OutputIsForward(net2, tr, x);
  }

  // ---------------------------------------------------------------------
  // Loss
  // ---------------------------------------------------------------------

  /** Σ_{i<n} (t[i] − o[i])², accumulated left to right as `mse` does. */
  function SumSquares(t: seq<real>, o: seq<real>, n: nat): real
    requires n <= |t| && n <= |o|
  {
    if n == 0 then 0.0 else SumSquares(t, o, n - 1) + Pow(t[n - 1] - o[n - 1], 2)
  }

  /** A sum of squares is never negative, and it is zero exactly when
      the two vectors agree on every summed position. */
  lemma {:induction false} SumSquaresZero(t: seq<real>, o: seq<real>, n: nat)
    requires n <= |t| && n <= |o|
    ensures 0.0 <= SumSquares(t, o, n)
    ensures SumSquares(t, o, n) == 0.0 <==> t[..n] == o[..n]
  {
    if n > 0 {
      SumSquaresZero(t, o, n - 1);
      SquareSign(t[n - 1] - o[n - 1]);
      assert t[..n] == t[..n - 1] + [t[n - 1]];
      assert o[..n] == o[..n - 1] + [o[n - 1]];
      if t[..n] == o[..n] {
        assert t[..n - 1] == t[..n][..n - 1];
        assert o[..n - 1] == o[..n][..n - 1];
        assert t[n - 1] == t[..n][n - 1];
        assert o[n - 1] == o[..n][n - 1];
      }
    }
  }

  /** The network after `mse` (it evaluates the input first) and the loss it returned. */
  datatype Measured = Measured(net: Net, value: real)

  /** `mse(x, t)`: half the sum of squared differences between the target
      and the output of a fresh evaluation of x. */
  function Mse(net: Net, tr: Transcendentals, x: seq<real>, t: seq<real>): (r: Result<Measured>)
    requires WellFormed(net)
    ensures r.Err? <==> |x| != InputSize(net) || |t| != OutputSize(net)
    ensures r.Err? ==> r.error == WrongArraySizes
    ensures r.Ok? ==> Eval(net, tr, x).Ok? && r.value.net == Eval(net, tr, x).value.net
    ensures r.Ok? ==> r.value.value == SumSquares(t, Eval(net, tr, x).value.output, |t|) / 2.0
    ensures r.Ok? ==> 0.0 <= r.value.value
    ensures r.Ok? ==> (r.value.value == 0.0 <==> Eval(net, tr, x).value.output == t)
  {
    if |x| != InputSize(net) || |t| != OutputSize(net) then Err(WrongArraySizes)
    else
      var e := Eval(net, tr, x).value;
      SumSquaresZero(t, e.output, |t|);
      assert t[..|t|] == t && e.output[..|t|] == e.output;
      Ok(Measured(e.net, SumSquares(t, e.output, |t|) / 2.0))
  }
}
