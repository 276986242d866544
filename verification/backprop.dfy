/** `NeuralNetwork.backprop` and `Layer.back`: one gradient step on the
    values left in the neurons by the last forward pass.

    The output layer is handled first: its deltas come from the target, and
    its weights and biases are updated at once. Then `back` walks the hidden
    layers from the last to the first. Each hidden layer computes its deltas
    from the deltas and the weights its successor holds at that moment, which
    are the successor's already-updated weights, and then updates itself.
    The input layer has no deltas, which ends the chain.
 */
module Backprop {
  import opened Results
  import opened Activations
  import opened Layers
  import opened Network
  import opened Powers

  /** The deltas `back` computes for hidden layer i from the deltas and the
      weights of layer i + 1 as they stand in `layers`. */
  function BackDeltas(a: Activation, layers: seq<Layer>, i: nat): (d: seq<real>)
    requires Chain(layers) && 1 <= i < |layers| - 1
    ensures |d| == |layers[i].neurons|
  {
    assert LinkedAt(layers, i + 1);
    HiddenDeltas(a, layers[i].neurons, layers[i + 1].deltas, layers[i + 1].weights)
  }

  /** Layer i of `after` is layer i of `before` after storing the deltas d
      and taking a gradient step with learning rate lr. */
  predicate SteppedAt(before: seq<Layer>, after: seq<Layer>, i: nat, d: seq<real>, lr: real)
    requires Chain(before) && 1 <= i < |before| && |d| == |before[i].neurons|
  {
    assert LinkedAt(before, i);
    i < |after| && after[i] == Update(before[i], d, before[i - 1].neurons, lr)
  }

  /** Only deltas, weights and biases change: sizes, kinds and neuron values stay. */
  predicate KeepsNeurons(before: seq<Layer>, after: seq<Layer>) {
    && |after| == |before|
    && forall i :: 0 <= i < |before| ==> after[i].neurons == before[i].neurons && after[i].Input? == before[i].Input?
  }

  /** Replacing layer i of a chain by a layer of the same size and the same
      shape keeps the chain. */
  lemma ReplaceKeepsChain(layers: seq<Layer>, i: nat, l: Layer)
    requires Chain(layers) && 1 <= i < |layers|
    requires HasShape(l, |layers[i - 1].neurons|) && l.neurons == layers[i].neurons
    ensures Chain(layers[i := l])
  {
    var r := layers[i := l];
    forall k | 1 <= k < |r|
      ensures LinkedAt(r, k)
    {
      assert LinkedAt(layers, k);
    }
  }

  /** `layers[k].back(lr)` followed by the chained calls on layers k − 1
      down to 1: every layer from k down takes the deltas computed from its
      successor as the successor stands after its own update. */
  function Back(a: Activation, layers: seq<Layer>, k: nat, lr: real): (r: seq<Layer>)
    requires Chain(layers) && 1 <= k < |layers| - 1
    ensures Chain(r) && KeepsNeurons(layers, r)
    ensures r[0] == layers[0]
    ensures forall i :: k < i < |r| ==> r[i] == layers[i]
    ensures forall i :: 1 <= i <= k ==> SteppedAt(layers, r, i, BackDeltas(a, r, i), lr)
    decreases k
  {
    assert LinkedAt(layers, k);
    var d := BackDeltas(a, layers, k);
    var here := layers[k := Update(layers[k], d, layers[k - 1].neurons, lr)];
    ReplaceKeepsChain(layers, k, here[k]);
    if k == 1 then
      assert BackDeltas(a, here, k) == d;
      here
    else
      var r := Back(a, here, k - 1, lr);
      assert r[k] == here[k] && r[k + 1] == layers[k + 1];
      assert BackDeltas(a, r, k) == d;
      r
  }

  /** `backprop(t, lr)`. */
  function Backprop(net: Net, t: seq<real>, lr: real): (r: Result<Net>)
    requires WellFormed(net)
    ensures r.Err? <==> |t| != OutputSize(net)
    ensures r.Err? ==> r.error == TargetSizeMismatch
    ensures r.Ok? ==> WellFormed(r.value) && r.value.activation == net.activation
    ensures r.Ok? ==> KeepsNeurons(net.layers, r.value.layers) && r.value.layers[0] == net.layers[0]
    ensures r.Ok? ==> SteppedAt(net.layers, r.value.layers, |net.layers| - 1,
      OutputDeltas(net.activation, t, net.layers[|net.layers| - 1].neurons), lr)
    ensures r.Ok? ==> forall i :: 1 <= i < |net.layers| - 1 ==>
      SteppedAt(net.layers, r.value.layers, i, BackDeltas(net.activation, r.value.layers, i), lr)
  {
    if |t| != OutputSize(net) then Err(TargetSizeMismatch)
    else
      var ls := net.layers;
      var n := |ls| - 1;
      assert LinkedAt(ls, n);
      var d := OutputDeltas(net.activation, t, ls[n].neurons);
      var out := ls[n := Update(ls[n], d, ls[n - 1].neurons, lr)];
      ReplaceKeepsChain(ls, n, out[n]);
      var r := Back(net.activation, out, n - 1, lr);
      Ok(Net(r, net.activation))
  }

  // ---------------------------------------------------------------------
  // Properties
  // ---------------------------------------------------------------------

  predicate AllZero(v: seq<real>) {
    forall j :: 0 <= j < |v| ==> v[j] == 0.0
  }

  /** No error flows back from a successor whose deltas are all zero. */
  lemma {:induction false} BackSumOfZero(d: seq<real>, w: Matrix, i: nat, n: nat)
    requires n <= |d| && i < |w| && n <= |w[i]| && AllZero(d)
    ensures BackSum(d, w, i, n) == 0.0
  {
    if n > 0 {
      BackSumOfZero(d, w, i, n - 1);
    }
  }

  /** A gradient step with zero deltas leaves weights and biases as they are. */
  lemma UpdateWithZero(l: Layer, d: seq<real>, prev: seq<real>, lr: real)
    requires HasShape(l, |prev|) && |d| == |l.neurons| && AllZero(d)
    ensures Update(l, d, prev, lr).weights == l.weights
    ensures Update(l, d, prev, lr).biases == l.biases
  {
    var r := Update(l, d, prev, lr);
    forall i | 0 <= i < |prev|
      ensures r.weights[i] == l.weights[i]
    {
      assert |r.weights[i]| == |l.weights[i]|;
    }
  }

  /** A learning rate of 0 leaves weights and biases as they are, whatever the deltas. */
  lemma UpdateAtRateZero(l: Layer, d: seq<real>, prev: seq<real>)
    requires HasShape(l, |prev|) && |d| == |l.neurons|
    ensures Update(l, d, prev, 0.0).weights == l.weights
    ensures Update(l, d, prev, 0.0).biases == l.biases
  {
    var r := Update(l, d, prev, 0.0);
    forall i | 0 <= i < |prev|
      ensures r.weights[i] == l.weights[i]
    {
      assert |r.weights[i]| == |l.weights[i]|;
    }
  }

  /** The layers from i up to the output layer kept their weights and biases
      and hold zero deltas. */
  predicate SettledFrom(before: seq<Layer>, after: seq<Layer>, i: nat)
    requires |after| == |before|
  {
    forall k :: i <= k < |before| ==>
      && after[k].Linked? && before[k].Linked?
      && after[k].weights == before[k].weights
      && after[k].biases == before[k].biases
      && AllZero(after[k].deltas)
  }

  /** Going down from the output layer, zero deltas in layer i + 1 make the
      deltas of layer i zero, and its step a no-op. */
  lemma {:induction false} SettlesDown(a: Activation, before: seq<Layer>, after: seq<Layer>, lr: real, i: nat)
    requires Chain(before) && Chain(after) && KeepsNeurons(before, after)
    requires 1 <= i < |before| - 1
    requires SettledFrom(before, after, |before| - 1)
    requires forall k :: 1 <= k < |before| - 1 ==> SteppedAt(before, after, k, BackDeltas(a, after, k), lr)
    ensures SettledFrom(before, after, i)
    decreases |before| - i
  {
    if i + 1 < |before| - 1 {
      SettlesDown(a, before, after, lr, i + 1);
    }
    assert LinkedAt(after, i + 1) && LinkedAt(before, i);
    var d := BackDeltas(a, after, i);
    forall j | 0 <= j < |d|
      ensures d[j] == 0.0
    {
      BackSumOfZero(after[i + 1].deltas, after[i + 1].weights, j, |after[i + 1].deltas|);
    }
    assert SteppedAt(before, after, i, d, lr);
    UpdateWithZero(before[i], d, before[i - 1].neurons, lr);
  }

  /** Backpropagating the target the output layer already holds changes no
      weight and no bias, and leaves every delta zero. */
  lemma BackpropAtTarget(net: Net, t: seq<real>, lr: real)
    requires WellFormed(net) && t == net.layers[|net.layers| - 1].neurons
    ensures Backprop(net, t, lr).Ok?
    ensures SettledFrom(net.layers, Backprop(net, t, lr).value.layers, 1)
  {
    var ls := net.layers;
    var n := |ls| - 1;
    var r := Backprop(net, t, lr).value.layers;
    assert LinkedAt(ls, n) && LinkedAt(r, n);
    var d := OutputDeltas(net.activation, t, ls[n].neurons);
    assert AllZero(d);
    UpdateWithZero(ls[n], d, ls[n - 1].neurons, lr);
    SettlesDown(net.activation, ls, r, lr, 1);
  }

  /** With a learning rate of 0, backpropagation only stores deltas. */
  lemma BackpropAtRateZero(net: Net, t: seq<real>)
    requires WellFormed(net) && |t| == OutputSize(net)
    ensures Backprop(net, t, 0.0).Ok?
    ensures forall k :: 0 <= k < |net.layers| ==> SameWeights(Backprop(net, t, 0.0).value.layers[k], net.layers[k])
  {
    var ls := net.layers;
    var r := Backprop(net, t, 0.0).value.layers;
    forall k | 1 <= k < |ls|
      ensures SameWeights(r[k], ls[k])
    {
      assert LinkedAt(ls, k);
      if k == |ls| - 1 {
        UpdateAtRateZero(ls[k], OutputDeltas(net.activation, t, ls[k].neurons), ls[k - 1].neurons);
      } else {
        assert SteppedAt(ls, r, k, BackDeltas(net.activation, r, k), 0.0);
        UpdateAtRateZero(ls[k], BackDeltas(net.activation, r, k), ls[k - 1].neurons);
      }
    }
  }

  /** Σ_{k<n} lr·p·d[k]²: what a step with learning rate lr removes from
      the error a neuron of value p receives through deltas d. */
  function StepLoss(d: seq<real>, lr: real, p: real, n: nat): real
    requires n <= |d|
  {
    if n == 0 then 0.0 else StepLoss(d, lr, p, n - 1) + lr * p * Pow(d[n - 1], 2)
  }

  /** The error row i carries back through weights w2 that already took the
      step w2[i][j] = w[i][j] − lr·d[j]·p is the error through the old
      weights w, less lr·p·Σ d[j]². */
  lemma {:induction false} SteppedSignal(w: Matrix, w2: Matrix, d: seq<real>, p: real, lr: real, i: nat, n: nat)
    requires i < |w| && i < |w2| && n <= |d| && n <= |w[i]| && n <= |w2[i]|
    requires forall j :: 0 <= j < n ==> w2[i][j] == w[i][j] + -lr * d[j] * p
    ensures BackSum(d, w2, i, n) == BackSum(d, w, i, n) - StepLoss(d, lr, p, n)
  {
    if n > 0 {
      SteppedSignal(w, w2, d, p, lr, i, n - 1);
      SteppedTerm(d[n - 1], w[i][n - 1], w2[i][n - 1], p, lr);
    }
  }

  /** One term of that sum. */
  lemma SteppedTerm(x: real, v: real, v2: real, p: real, lr: real)
    requires v2 == v + -lr * x * p
    ensures x * v2 == x * v - lr * p * Pow(x, 2)
  {
    assert Pow(x, 2) == x * Pow(x, 1) && Pow(x, 1) == x;
  }

  /** The error row j carries back with deltas d through weights w2 is the
      error through weights w, less lr·p·Σ d[k]². */
  predicate SignalShift(d: seq<real>, w: Matrix, w2: Matrix, j: nat, p: real, lr: real) {
    && j < |w| && j < |w2| && |d| <= |w[j]| && |d| <= |w2[j]|
    && BackSum(d, w2, j, |d|) == BackSum(d, w, j, |d|) - StepLoss(d, lr, p, |d|)
  }

  /** The error row j carries back through a layer `after` that took a
      step from `l`, in terms of the weights of `l`. */
  lemma StepSignal(l: Layer, after: Layer, d: seq<real>, prev: seq<real>, lr: real, j: nat)
    requires HasShape(l, |prev|) && |d| == |l.neurons| && j < |prev|
    requires after == Update(l, d, prev, lr)
    ensures SignalShift(after.deltas, l.weights, after.weights, j, prev[j], lr)
  {
    hide Update;
    assert after.deltas == d;
    assert forall k :: 0 <= k < |d| ==> after.weights[j][k] == l.weights[j][k] + -lr * d[k] * prev[j] by {
      StepRow(l, d, prev, lr, j);
    }
    SteppedSignal(l.weights, after.weights, d, prev[j], lr, j, |d|);
  }

  /** Row j of a stepped layer, entry by entry. */
  lemma StepRow(l: Layer, d: seq<real>, prev: seq<real>, lr: real, j: nat)
    requires HasShape(l, |prev|) && |d| == |l.neurons| && j < |prev|
    ensures forall k :: 0 <= k < |d| ==>
      Update(l, d, prev, lr).weights[j][k] == l.weights[j][k] + -lr * d[k] * prev[j]
  {
  }

  /** Because `back` runs after the successor's update, the error signal a
      hidden layer i receives is not the one through the weights the forward
      pass used: for neuron j it is smaller by lr·x_j·Σ_k d_k², where x_j is
      the neuron's value and d the successor's deltas. */
  lemma HiddenSignalUsesSteppedWeights(net: Net, t: seq<real>, lr: real, i: nat, j: nat)
    requires WellFormed(net) && |t| == OutputSize(net)
    requires 1 <= i < |net.layers| - 1 && j < |net.layers[i].neurons|
    ensures Backprop(net, t, lr).Ok?
    ensures
      var before := net.layers;
      var after := Backprop(net, t, lr).value.layers;
      && |after| == |before|
      && LinkedAt(before, i + 1) && LinkedAt(after, i + 1)
      && SignalShift(after[i + 1].deltas, before[i + 1].weights, after[i + 1].weights, j, before[i].neurons[j], lr)
  {
    hide Backprop;
    var before := net.layers;
    var after := Backprop(net, t, lr).value.layers;
    assert LinkedAt(before, i + 1) && LinkedAt(after, i + 1);
    var d := if i + 1 == |before| - 1 then OutputDeltas(net.activation, t, before[i + 1].neurons)
             else BackDeltas(net.activation, after, i + 1);
    assert after[i + 1] == Update(before[i + 1], d, before[i].neurons, lr) by {
      assert SteppedAt(before, after, i + 1, d, lr);
    }
    StepSignal(before[i + 1], after[i + 1], d, before[i].neurons, lr, j);
  }
}
