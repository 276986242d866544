/** `NeuralNetwork.print` and `NeuralNetwork.load`: the weights and biases
    of every layer after the input layer, saved as one record per layer and
    installed back after a size check.

    The file and its JSON text are left out: the model works on the parsed
    records. Every error `load` raises is re-thrown by its `catch` as one
    "Error while reading file" message; the model keeps the cause.
 */
module Persistence {
  import opened Results
  import opened Layers
  import opened Network

  /** The saved form of one linked layer. */
  datatype LayerData = LayerData(weights: Matrix, biases: seq<real>)

  /** The saved form of layer k + 1. */
  function Saved(layers: seq<Layer>, k: nat): LayerData
    requires Chain(layers) && k < |layers| - 1
  {
    assert LinkedAt(layers, k + 1);
    LayerData(layers[k + 1].weights, layers[k + 1].biases)
  }

  /** `print`: one record per hidden layer, then one for the output layer. */
  function Print(net: Net): (data: seq<LayerData>)
    requires WellFormed(net)
    ensures |data| == |net.layers| - 1
    ensures forall k :: 0 <= k < |data| ==>
      IsMatrix(data[k].weights, |net.layers[k].neurons|, |net.layers[k + 1].neurons|)
      && |data[k].biases| == |net.layers[k + 1].neurons|
  {
    var data := seq(|net.layers| - 1, k requires 0 <= k < |net.layers| - 1 => Saved(net.layers, k));
    assert forall k :: 0 <= k < |data| ==> LinkedAt(net.layers, k + 1) && data[k] == Saved(net.layers, k);
    data
  }

  // ---------------------------------------------------------------------
  // `load` as the source writes it
  // ---------------------------------------------------------------------

  /** The size test of `load` for one layer: the row count, then the length
      of the first row only, then the bias count. With no rows, reading the
      length of the missing first row raises a TypeError. */
  function CheckLayer(l: Layer, d: LayerData): (e: Option<Error>)
    requires l.Linked?
    ensures e.None? <==> |d.weights| == |l.weights| && 0 < |l.weights|
                         && |d.weights[0]| == |l.weights[0]| && |d.biases| == |l.biases|
    ensures e == Some(TypeError) <==> |d.weights| == |l.weights| == 0
    ensures e.Some? ==> e.value in {DataSizeMismatch, TypeError}
  {
    if |l.weights| != |d.weights| then Some(DataSizeMismatch)
    else if |l.weights| == 0 then Some(TypeError)
    else if |l.weights[0]| != |d.weights[0]| || |l.biases| != |d.biases| then Some(DataSizeMismatch)
    else None
  }

  /** The size test of layer k + 1 against record k. */
  function Test(layers: seq<Layer>, data: seq<LayerData>, k: nat): Option<Error>
    requires Chain(layers) && |data| == |layers| - 1 && k < |data|
  {
    assert LinkedAt(layers, k + 1);
    CheckLayer(layers[k + 1], data[k])
  }

  /** Record k passes the size test of layer k + 1. */
  predicate Passes(layers: seq<Layer>, data: seq<LayerData>, k: nat)
    requires Chain(layers) && |data| == |layers| - 1 && k < |data|
  {
    Test(layers, data, k).None?
  }

  /** The size test of layers k + 1 onwards, in order: the first failure. */
  function CheckFrom(layers: seq<Layer>, data: seq<LayerData>, k: nat): (e: Option<Error>)
    requires Chain(layers) && |data| == |layers| - 1 && k <= |data|
    ensures e.None? <==> forall j :: k <= j < |data| ==> Passes(layers, data, j)
    ensures e.Some? ==>
      exists j :: k <= j < |data| && (forall i :: k <= i < j ==> Passes(layers, data, i)) && e == Test(layers, data, j)
    decreases |data| - k
  {
    if k == |data| then None
    else if Test(layers, data, k).Some? then
      assert !Passes(layers, data, k);
      Test(layers, data, k)
    else CheckFrom(layers, data, k + 1)
  }

  /** Layer k with the weights and biases of record k − 1 when it is linked. */
  function Installed(layers: seq<Layer>, data: seq<LayerData>, k: nat): (l: Layer)
    requires Chain(layers) && |data| == |layers| - 1 && k < |layers|
    ensures k == 0 ==> l == layers[0]
    ensures k > 0 ==> layers[k].Linked? && l.Linked? && l.neurons == layers[k].neurons && l.deltas == layers[k].deltas
    ensures k > 0 ==> l.weights == data[k - 1].weights && l.biases == data[k - 1].biases
  {
    if k == 0 then layers[0]
    else
      assert LinkedAt(layers, k);
      layers[k].(weights := data[k - 1].weights, biases := data[k - 1].biases)
  }

  /** Replaces the weights and biases of every linked layer by the records,
      keeping the neurons and deltas. */
  function Install(layers: seq<Layer>, data: seq<LayerData>): (r: seq<Layer>)
    requires Chain(layers) && |data| == |layers| - 1
    ensures |r| == |layers| && r[0] == layers[0]
    ensures forall k :: 1 <= k < |r| ==>
      && layers[k].Linked? && r[k].Linked?
      && r[k].neurons == layers[k].neurons && r[k].deltas == layers[k].deltas
      && r[k].weights == data[k - 1].weights && r[k].biases == data[k - 1].biases
  {
    var r := seq(|layers|, k requires 0 <= k < |layers| => Installed(layers, data, k));
    forall k | 1 <= k < |r|
      ensures layers[k].Linked? && r[k].Linked? && r[k].neurons == layers[k].neurons && r[k].deltas == layers[k].deltas
      ensures r[k].weights == data[k - 1].weights && r[k].biases == data[k - 1].biases
    {
      assert r[k] == Installed(layers, data, k);
    }
    assert r[0] == Installed(layers, data, 0);
    r
  }

  /** `load`: the layer count, then every layer's size test in order, and
      only when all pass, the records installed. */
  function Load(net: Net, data: seq<LayerData>): (r: Result<Net>)
    requires WellFormed(net)
    ensures r == Err(DataSizeMismatch) <==>
      |data| != |net.layers| - 1 || CheckFrom(net.layers, data, 0) == Some(DataSizeMismatch)
    ensures r == Err(TypeError) <==>
      |data| == |net.layers| - 1 && CheckFrom(net.layers, data, 0) == Some(TypeError)
    ensures r.Ok? <==> |data| == |net.layers| - 1 && forall k :: 0 <= k < |data| ==> Passes(net.layers, data, k)
    ensures r.Ok? ==> r.value.activation == net.activation && r.value.layers == Install(net.layers, data)
  {
    if |data| != |net.layers| - 1 then Err(DataSizeMismatch)
    else
      match CheckFrom(net.layers, data, 0)
      case Some(err) => Err(err)
      case None => Ok(net.(layers := Install(net.layers, data)))
  }

  /** Saving a network and loading the result back restores it, as long as
      no layer before the output layer is empty. */
  lemma LoadPrint(net: Net)
    requires WellFormed(net)
    requires forall k :: 0 <= k < |net.layers| - 1 ==> 0 < |net.layers[k].neurons|
    ensures Load(net, Print(net)) == Ok(net)
  {
    var data := Print(net);
    forall k | 0 <= k < |data|
      ensures Passes(net.layers, data, k)
    {
      assert LinkedAt(net.layers, k + 1);
    }
    var r := Install(net.layers, data);
    forall k | 1 <= k < |r|
      ensures r[k] == net.layers[k]
    {
      assert LinkedAt(net.layers, k);
      assert data[k - 1] == Saved(net.layers, k - 1);
    }
    assert r == net.layers;
  }

  /** A network with an empty hidden layer cannot load even its own records:
      the layer after it has no rows. */
  lemma LoadPrintEmptyLayer(net: Net, k: nat)
    requires WellFormed(net) && k < |net.layers| - 1 && |net.layers[k].neurons| == 0
    ensures Load(net, Print(net)).Err?
  {
    assert LinkedAt(net.layers, k + 1);
    assert !Passes(net.layers, Print(net), k);
  }

  /** The records of a network, loaded into a network of the same shape,
      give that network the weights and biases of the first. */
  lemma LoadPrintAcross(net: Net, other: Net)
    requires WellFormed(net) && WellFormed(other) && SameShape(net.layers, other.layers)
    requires forall k :: 0 <= k < |net.layers| - 1 ==> 0 < |net.layers[k].neurons|
    ensures Load(other, Print(net)).Ok?
    ensures forall k :: 0 <= k < |net.layers| ==>
      SameWeights(Load(other, Print(net)).value.layers[k], net.layers[k])
  {
    var data := Print(net);
    forall k | 0 <= k < |data|
      ensures Passes(other.layers, data, k)
    {
      assert LinkedAt(net.layers, k + 1) && LinkedAt(other.layers, k + 1);
    }
  }

  // ---------------------------------------------------------------------
  // Ragged weight matrices
  // ---------------------------------------------------------------------

  /** A two-input, one-hidden, one-output network, every weight and bias 0.1. */
  function Small(): (net: Net)
    ensures WellFormed(net)
  {
    var net := Net([Input([0.0, 0.0]),
                    Linked([0.0, 0.0], [[0.1, 0.1], [0.1, 0.1]], [0.1, 0.1], [0.0, 0.0]),
                    Linked([0.0], [[0.1], [0.1]], [0.1], [0.0])], Activations.Relu);
    assert LinkedAt(net.layers, 1) && LinkedAt(net.layers, 2);
    net
  }

  /** Only the first row's length is tested, so `load` accepts a hidden
      weight matrix whose second row is too short and leaves a network that
      is no longer well formed: `feed` would read weight (1, 1), which the
      row does not have. */
  lemma LoadAcceptsRagged()
    ensures var data := [LayerData([[1.0, 2.0], [3.0]], [0.0, 0.0]), LayerData([[1.0], [1.0]], [0.0])];
      && Load(Small(), data).Ok?
      && !WellFormed(Load(Small(), data).value)
      && |Load(Small(), data).value.layers[1].weights[1]| < |Load(Small(), data).value.layers[1].neurons|
  {
    var net := Small();
    var data := [LayerData([[1.0, 2.0], [3.0]], [0.0, 0.0]), LayerData([[1.0], [1.0]], [0.0])];
    assert LinkedAt(net.layers, 1) && LinkedAt(net.layers, 2);
    assert Passes(net.layers, data, 0) && Passes(net.layers, data, 1);
    var r := Load(net, data).value;
    assert |r.layers[1].neurons| == 2 && |r.layers[1].weights[1]| == 1;
    assert !LinkedAt(r.layers, 1);
  }

  /** Record d fits linked layer l exactly: every row, not only the first. */
  predicate FitsLayer(l: Layer, d: LayerData)
    requires l.Linked?
  {
    IsMatrix(d.weights, |l.weights|, |l.neurons|) && |d.biases| == |l.biases|
  }

  /** The records fit every linked layer exactly. */
  predicate FitsAll(layers: seq<Layer>, data: seq<LayerData>)
    requires Chain(layers)
  {
    && |data| == |layers| - 1
    && forall k :: 0 <= k < |data| ==> LinkedAt(layers, k + 1) && FitsLayer(layers[k + 1], data[k])
  }

  /** `load` testing the length of every row: it accepts exactly the
      records that fit, and so always leaves a well-formed network. */
  function LoadChecked(net: Net, data: seq<LayerData>): (r: Result<Net>)
    requires WellFormed(net)
    ensures r.Ok? <==> FitsAll(net.layers, data)
    ensures r.Err? ==> r.error == DataSizeMismatch
    ensures r.Ok? ==> WellFormed(r.value) && SameShape(net.layers, r.value.layers)
    ensures r.Ok? ==> r.value.activation == net.activation
    ensures r.Ok? ==> forall k :: 1 <= k < |net.layers| ==>
      r.value.layers[k].Linked? && r.value.layers[k].weights == data[k - 1].weights && r.value.layers[k].biases == data[k - 1].biases
  {
    if !FitsAll(net.layers, data) then Err(DataSizeMismatch)
    else
      var layers := Install(net.layers, data);
      assert forall k :: 1 <= k < |layers| ==> LinkedAt(layers, k) by {
        forall k | 1 <= k < |layers| ensures LinkedAt(layers, k) {
          assert LinkedAt(net.layers, k);
        }
      }
      Ok(net.(layers := layers))
  }

  /** Where both accept, the two loads agree; the checked load accepts
      every fitting record set that has no empty layer, as `load` does. */
  lemma LoadCheckedAgrees(net: Net, data: seq<LayerData>)
    requires WellFormed(net)
    ensures LoadChecked(net, data).Ok? && Load(net, data).Ok? ==> LoadChecked(net, data) == Load(net, data)
    ensures LoadChecked(net, data).Ok? && (forall k :: 0 <= k < |net.layers| - 1 ==> 0 < |net.layers[k].neurons|)
      ==> Load(net, data) == LoadChecked(net, data)
  {
  }

  /** The corrected load restores a saved network, like `load`. */
  lemma LoadCheckedPrint(net: Net)
    requires WellFormed(net)
    ensures LoadChecked(net, Print(net)) == Ok(net)
  {
    var data := Print(net);
    assert FitsAll(net.layers, data) by {
      forall k | 0 <= k < |data|
        ensures LinkedAt(net.layers, k + 1) && FitsLayer(net.layers[k + 1], data[k])
      {
        assert LinkedAt(net.layers, k + 1);
      }
    }
    var r := Install(net.layers, data);
    forall k | 1 <= k < |r|
      ensures r[k] == net.layers[k]
    {
      assert LinkedAt(net.layers, k);
      assert data[k - 1] == Saved(net.layers, k - 1);
    }
    assert r == net.layers;
  }
}
