/** The `Layer` class of nn.js and the per-layer arithmetic of the forward
    and backward passes.

    A layer holds its neuron values. A layer with a predecessor also holds a
    weight matrix (one row per predecessor neuron, one column per own neuron),
    a bias vector and a delta vector. The input layer holds none of these.
    The `prev`/`next` links of the source become adjacent positions in the
    network's sequence of layers.
 */
module Layers {
  import opened Activations

  type Matrix = seq<seq<real>>

  datatype Layer =
    | Input(neurons: seq<real>)
    | Linked(neurons: seq<real>, weights: Matrix, biases: seq<real>, deltas: seq<real>)

  /** m has `rows` rows of `cols` entries each. */
  predicate IsMatrix(m: Matrix, rows: nat, cols: nat) {
    |m| == rows && forall i :: 0 <= i < |m| ==> |m[i]| == cols
  }

  /** The shape of a layer whose predecessor has `prevSize` neurons:
      prevSize × size weights, and size biases and deltas. */
  predicate HasShape(l: Layer, prevSize: nat) {
    && l.Linked?
    && IsMatrix(l.weights, prevSize, |l.neurons|)
    && |l.biases| == |l.neurons|
    && |l.deltas| == |l.neurons|
  }

  /** Placeholder values. The source leaves fresh neuron and delta arrays
      as holes. Deltas are always written before they are read, and `eval`
      writes the neurons; a `backprop` with no `eval` before it reads the
      holes and yields NaN in the source, but 0.0 here. */
  function Zeros(n: nat): (r: seq<real>)
    ensures |r| == n
    ensures forall i :: 0 <= i < n ==> r[i] == 0.0
  {
    seq(n, _ => 0.0)
  }

  /** `matrix(rows, cols)` filled in by `initWeights`: entry (i, j) is `draw(i, j)`.
      The draws stand for `Math.random() * sqrt(2 / rows)`. */
  function InitWeights(rows: nat, cols: nat, draw: (nat, nat) -> real): (m: Matrix)
    ensures IsMatrix(m, rows, cols)
    ensures forall i, j :: 0 <= i < rows && 0 <= j < cols ==> m[i][j] == draw(i, j)
  {
    seq(rows, i requires 0 <= i < rows => seq(cols, j requires 0 <= j < cols => draw(i, j)))
  }

  /** `initBiases`: every bias becomes 0.1. */
  function InitBiases(n: nat): (b: seq<real>)
    ensures |b| == n
    ensures forall j :: 0 <= j < n ==> b[j] == 0.1
  {
    seq(n, _ => 0.1)
  }

  /** `new Layer(n)`: the input layer, which has no predecessor. */
  function NewInput(n: nat): (l: Layer)
    ensures l.Input? && |l.neurons| == n
  {
    Input(Zeros(n))
  }

  /** `new Layer(n, prev)` followed by `initWeights` and `initBiases`. */
  function NewLinked(n: nat, prevSize: nat, draw: (nat, nat) -> real): (l: Layer)
    ensures HasShape(l, prevSize) && |l.neurons| == n
    ensures forall j :: 0 <= j < n ==> l.biases[j] == 0.1
    ensures forall i, j :: 0 <= i < prevSize && 0 <= j < n ==> l.weights[i][j] == draw(i, j)
  {
    Linked(Zeros(n), InitWeights(prevSize, n, draw), InitBiases(n), Zeros(n))
  }

  /** Σ_{i<n} x[i]·w[i][j], accumulated left to right as `feed` does. */
  function WeightedSum(x: seq<real>, w: Matrix, j: nat, n: nat): real
    requires n <= |x| && n <= |w|
    requires forall i :: 0 <= i < n ==> j < |w[i]|
  {
    if n == 0 then 0.0 else WeightedSum(x, w, j, n - 1) + x[n - 1] * w[n - 1][j]
  }

  /** The values `feed` hands to a successor with weights w and biases b
      when this layer holds x: neuron j gets act(Σ_i x[i]·w[i][j] + b[j]). */
  function LayerOutputs(a: Activation, tr: Transcendentals, x: seq<real>, w: Matrix, b: seq<real>): (y: seq<real>)
    requires IsMatrix(w, |x|, |b|)
    ensures |y| == |b|
  {
    seq(|b|, j requires 0 <= j < |b| => Activate(a, tr, WeightedSum(x, w, j, |x|) + b[j]))
  }

  /** The two nested loops of `feed` that compute the successor's values. */
  method FeedStep(a: Activation, tr: Transcendentals, x: seq<real>, w: Matrix, b: seq<real>) returns (outputs: seq<real>)
    requires IsMatrix(w, |x|, |b|)
    ensures |outputs| == |b|
    ensures forall j :: 0 <= j < |outputs| ==> outputs[j] == Activate(a, tr, WeightedSum(x, w, j, |x|) + b[j])
    ensures outputs == LayerOutputs(a, tr, x, w, b)
  {
    outputs := [];
    var j := 0;
    while j < |b|
      invariant j <= |b|
      invariant outputs == LayerOutputs(a, tr, x, w, b)[..j]
    {
      var sum := 0.0;
      var i := 0;
      while i < |x|
        invariant i <= |x|
        invariant sum == WeightedSum(x, w, j, i)
      {
        sum := sum + x[i] * w[i][j];
        i := i + 1;
      }
      sum := sum + b[j];
      outputs := outputs + [Activate(a, tr, sum)];
      j := j + 1;
    }
  }

  /** Σ_{j<n} d[j]·w[i][j]: the error that row i of a successor's weights
      carries back to neuron i of this layer. */
  function BackSum(d: seq<real>, w: Matrix, i: nat, n: nat): real
    requires n <= |d| && i < |w| && n <= |w[i]|
  {
    if n == 0 then 0.0 else BackSum(d, w, i, n - 1) + d[n - 1] * w[i][n - 1]
  }

  /** Output-layer deltas for target t and output o: −(t_k − o_k)·act'(o_k). */
  function OutputDeltas(a: Activation, t: seq<real>, o: seq<real>): (d: seq<real>)
    requires |t| == |o|
    ensures |d| == |o|
  {
    seq(|o|, k requires 0 <= k < |o| => -1.0 * (t[k] - o[k]) * Derivative(a, o[k]))
  }

  /** Hidden-layer deltas of a layer holding `neurons`, from the deltas d and
      weights w of its successor: (Σ_j d[j]·w[i][j])·act'(neurons[i]). */
  function HiddenDeltas(a: Activation, neurons: seq<real>, d: seq<real>, w: Matrix): (h: seq<real>)
    requires IsMatrix(w, |neurons|, |d|)
    ensures |h| == |neurons|
  {
    seq(|neurons|, i requires 0 <= i < |neurons| => BackSum(d, w, i, |d|) * Derivative(a, neurons[i]))
  }

  /** Stores the deltas d in l and takes one gradient step with learning rate
      lr, given the predecessor's neuron values `prev`. */
  function Update(l: Layer, d: seq<real>, prev: seq<real>, lr: real): (r: Layer)
    requires HasShape(l, |prev|) && |d| == |l.neurons|
    ensures HasShape(r, |prev|)
    ensures r.neurons == l.neurons && r.deltas == d
    ensures forall i, j :: 0 <= i < |prev| && 0 <= j < |d| ==>
      r.weights[i][j] == l.weights[i][j] + -lr * d[j] * prev[i]
    ensures forall j :: 0 <= j < |d| ==> r.biases[j] == l.biases[j] + -lr * d[j]
  {
    l.(weights := seq(|prev|, i requires 0 <= i < |prev| =>
                    seq(|d|, j requires 0 <= j < |d| => l.weights[i][j] + -lr * d[j] * prev[i])),
       biases := seq(|d|, j requires 0 <= j < |d| => l.biases[j] + -lr * d[j]),
       deltas := d)
  }
}
