# nn.js multilayer perceptron, modelled in Dafny

A model of `nn.js`, a small JavaScript multilayer perceptron. The source
class `NeuralNetwork` holds a chain of `Layer` objects: an input layer, one
or more hidden layers and an output layer. A layer after the input layer
holds a weight matrix (one row per predecessor neuron), a bias vector and
a delta vector. The network evaluates inputs layer by layer (`eval`,
`feed`) and measures half the summed squared error (`mse`). It trains by
online gradient descent: `backprop` for the output layer and `back` for
the hidden layers. `train` runs whole epochs until an epoch bound or a
loss threshold is reached. `print` and `load` save and restore the
weights and biases.

The model is functional: every operation that mutates the network in the
source returns the new network here. The numbers are `real`. Logistic
and tanh activations are uninterpreted functions carried in a
`Transcendentals` record. ReLU and all three derivatives are modelled
exactly. The files are:

- `results.dfy`: the error kinds the source throws, with `Option` and
  `Result`.
- `powers.dfy`: `Math.pow` with a natural exponent, and the sign of a
  square.
- `activations.dfy`: the activation registry and the derivatives, which
  take the activation's output.
- `layers.dfy`: the `Layer` record, its shape, construction, the
  per-layer forward step and the gradient step.
- `network.dfy`: the shape invariant of the chain, the constructor,
  `eval` and its reference recurrence, and `mse`.
- `backprop.dfy`: `backprop` and `back`, and what their update order
  implies.
- `training.dfy`: `train` and its `do … while` loop.
- `persistence.dfy`: `print`, `load` as written, and `load` checking
  every row.

The following are definitions. Each writes one of the source's formulas
once, and the contracts below use them:

- `Layers.WeightedSum` and `Layers.LayerOutputs`: the forward step of `feed` (nn.js:268-276).
- `Layers.OutputDeltas`: the output-layer deltas of `backprop` (nn.js:94-96).
- `Layers.BackSum`, `Layers.HiddenDeltas` and `Backprop.BackDeltas`: the hidden-layer deltas of `back` (nn.js:282-288).
- `Network.Incoming`: the values one layer feeds the next (nn.js:268-277).
- `Network.Forward`: the same step repeated from the input layer, without stored neurons (nn.js:57-62, 264-278).

## Model

| member | source | states |
|---|---|---|
| Powers.SquareSign | nn.js:78 | `Math.pow(x, 2)` is never negative, and it is zero exactly when x is zero. |
| Activations.Lookup | nn.js:33-47 | The last constructor argument selects Logistic, Tanh or Relu exactly when it is "logistic", "tanh" or "relu". Every other value selects nothing. |
| Activations.Activate | nn.js:322-335 | The ReLU output is non-negative, at least its input, and either 0 or the input. Logistic and tanh apply the uninterpreted functions. |
| Activations.Derivative | nn.js:322-335 | The logistic derivative is at most 1/4. The tanh derivative is at most 1, and equals 1 exactly at y = 0. The ReLU derivative is 0 exactly when y = 0, and 1 otherwise. |
| Activations.ReluDerivativeIsSlope | nn.js:332-335 | The ReLU derivative of an output is 1 for a positive input and 0 otherwise, so it is the slope of ReLU. |
| Layers.InitWeights | nn.js:249-256 | The weight matrix has prevSize rows of size entries each. Entry (i, j) is the i, j-th draw. |
| Layers.InitBiases | nn.js:258-262 | Every bias of a fresh layer is 0.1. |
| Layers.NewInput | nn.js:237-238 | A layer without a predecessor is an input layer of n neurons, with no weights. |
| Layers.NewLinked | nn.js:237-247 | A layer with a predecessor of size p and n neurons has a p × n weight matrix and n biases and deltas. The biases are 0.1 and the weights are the draws. |
| Layers.FeedStep | nn.js:268-276 | The nested loops of `feed` produce, for successor neuron j, act(Σ_i x[i]·w[i][j] + b[j]), one value per bias. |
| Layers.Update | nn.js:99-106 | The gradient step keeps the layer's shape and neurons and stores the deltas. Each weight (i, j) gains −lr·d[j]·prev[i] and each bias j gains −lr·d[j]. |
| Network.LayerSizes | nn.js:7-13 | The sizes are the first argument, then arguments 1 to n−3 as hidden sizes, then argument n−2. Each size is the length `new Array(x)` gives. |
| Network.BuildLayers | nn.js:15-30 | The chain has one layer per size and is well formed. Layer 0 is the input layer. Every other layer holds the draws as weights and 0.1 as biases. |
| Network.Construct | nn.js:2-50 | Construction fails exactly when there are fewer than 4 arguments, or when the last argument names no activation. Otherwise it yields a well-formed, freshly initialised network with one layer per size argument. |
| Network.Feed | nn.js:264-278 | `feed` from layer k keeps every weight, bias and delta and leaves the layers before k unchanged. Layer k takes x, and every later layer takes the values its predecessor feeds it. |
| Network.Eval | nn.js:57-62 | `eval` fails exactly when the input length differs from the input-layer size. Otherwise the input layer holds x and every later layer holds act(weighted sum + bias) of its predecessor. The weights are unchanged, and the output is the output layer's neurons, of output size. |
| Network.EvalLayerIsForward | nn.js:57-62 | After `eval(x)`, layer k holds the value of the layer recurrence from x at k. |
| Network.EvalIsForward | nn.js:264-278 | `eval(x)` fills every layer with the layer recurrence from x and returns its value at the output layer. |
| Network.OutputIsForward | nn.js:57-62 | The output of `eval(x)` is the layer recurrence from x at the output layer. |
| Network.ForwardIgnoresState | nn.js:264-278 | The layer recurrence reads only weights and biases. Chains that agree on those agree on it, whatever neurons and deltas they hold. |
| Network.EvalIsDeterministic | nn.js:57-62 | Two networks with the same activation, weights and biases return the same `eval` output for the same input. |
| Network.SumSquaresZero | nn.js:76-79 | The sum of squared differences is non-negative, and zero exactly when the summed positions agree. |
| Network.Mse | nn.js:70-81 | `mse` fails exactly when the input or the target has the wrong length. Otherwise it evaluates the input and returns half the sum of squared differences between target and output. The value is non-negative, and zero exactly when the output equals the target. |
| Training.MseRepeats | nn.js:70-81 | `mse` changes only the stored neurons, so measuring the same pair again on the network it leaves gives the same loss. |
| Backprop.Back | nn.js:280-303 | `back` from hidden layer k down to layer 1 keeps every layer's neurons and the chain's shape. It leaves layer 0 and the layers above k unchanged. Each layer 1..k gets one gradient step with the deltas computed from its successor's stored deltas and already-updated weights. |
| Backprop.Backprop | nn.js:88-109 | `backprop` fails exactly when the target length differs from the output size. Otherwise the output layer takes one gradient step with deltas −(t_k − o_k)·act'(o_k). Every hidden layer then takes one step with deltas from its successor after that successor was updated. Neurons, the input layer and all shapes are kept. |
| Backprop.UpdateWithZero | nn.js:290-298 | A gradient step with all-zero deltas leaves weights and biases unchanged. |
| Backprop.UpdateAtRateZero | nn.js:290-298 | A gradient step with learning rate 0 leaves weights and biases unchanged. |
| Backprop.SettlesDown | nn.js:280-303 | Suppose the output layer kept its weights and biases and holds zero deltas, and every hidden layer took its `back` step. Then every layer from i up also kept its weights and biases and holds zero deltas. |
| Backprop.BackpropAtTarget | nn.js:88-109 | When the output already equals the target, `backprop` succeeds and changes no weight or bias, and all stored deltas become zero. |
| Backprop.BackpropAtRateZero | nn.js:88-109 | With learning rate 0, `backprop` changes no weight or bias. |
| Backprop.SteppedSignal | nn.js:285 | After a gradient step, the error that row i sends back is the error before the step minus lr·prev·Σ_j d[j]². |
| Backprop.StepSignal | nn.js:290-298 | A layer's gradient step shifts the error sum of every row by −lr·prev[i]·Σ d², in terms of the deltas it stored. |
| Backprop.HiddenSignalUsesSteppedWeights | nn.js:99-108 | The sum that hidden neuron j of layer i reads in `back` is the sum over the successor's old weights, shifted by −lr·n_j·Σ d². So a hidden layer sees its successor's updated weights. |
| Training.Step | nn.js:134-137 | One inner step (`eval` then `backprop`) fails exactly when the pair does not fit. It raises the input-size error first, then the target-size error, and keeps the network's shape. |
| Training.Pass | nn.js:134-137 | The inner `for` loop over the first n pairs, each an `eval` then a `backprop`. A pass that succeeds keeps the network's shape. |
| Training.PassOutcome | nn.js:134-137 | A pass over n pairs fails exactly when some pair does not fit. It then fails with the error of the first such pair. |
| Training.EpochBound | nn.js:127-128 | A falsy `epochs` becomes an unbounded count. Any other value is kept. |
| Training.Threshold | nn.js:129-130 | A falsy `minMSE` becomes −1. Any other value is kept. |
| Training.Epoch | nn.js:133-140 | One iteration of the `do … while`: a pass, then the loop condition. A stop reports epoch count i+1, and both a stop and a continuation keep the network's shape. |
| Training.EpochOutcome | nn.js:133-140 | One iteration succeeds exactly when every pair fits, unless the training set is empty and a further epoch is due (TypeError). It stops at the epoch bound or at a non-negative loss no greater than the threshold, and goes on only below the bound with a loss above the threshold. |
| Training.EpochLoss | nn.js:138-140 | The loss the condition compares is `mse(inputs[0], targets[0])` on the network after the pass. The iteration stops with that network and loss when the loss is at most the threshold, and goes on with them otherwise. At the epoch bound no loss is measured, and the run holds the pass's network. |
| Training.Loop | nn.js:132-140 | The `do … while` from epoch i on. A successful run keeps the network's shape and reports more than i epochs. |
| Training.Train | nn.js:119-141 | `train` fails with the no-finish-condition error exactly when both `epochs` and `minMSE` are falsy. It fails with the count error exactly when a condition is given and inputs and targets differ in count. It fails with a type error exactly when both lists are empty and more than one epoch is allowed, because the loss is then read from a missing first pair. No other errors than these and the input-size and target-size errors occur. It succeeds exactly when a condition is given, the counts agree, every pair fits and that type error does not arise. A successful run keeps the shape and runs at least one epoch. |
| Training.LoopOk | nn.js:132-140 | The loop succeeds exactly when every pair fits and the set is not empty when a second epoch is due. Every later epoch runs on a network of the same shape, so its pairs fit too. |
| Training.LoopErrors | nn.js:133-140 | The loop raises only input-size, target-size or TypeError errors. The TypeError occurs exactly when the training set is empty and a second epoch is due. |
| Training.LoopStops | nn.js:140 | A run that finished has reached the epoch bound or a reported loss at most the threshold. A run that used up its fuel has reached neither. |
| Training.LoopLoss | nn.js:140 | Any loss a run reports is `mse(inputs[0], targets[0])` of the network the run returns. With LoopStops, a run that stops on its loss has a first-pair loss at most the threshold. |
| Training.LoopWithinBound | nn.js:138-140 | The loop never runs more epochs than the bound, except the one epoch it always runs. |
| Training.LoopRunsToBound | nn.js:132-140 | With a negative threshold, a fitting non-empty training set and enough fuel, the loop finishes after exactly max(i+1, n) epochs. |
| Training.TrainRunsEpochs | nn.js:119-141 | `train(…, n)` without `minMSE` runs exactly max(1, n) epochs on a fitting non-empty training set. |
| Persistence.Print | nn.js:180-190 | `print` saves one record per non-input layer. Record k holds a matrix shaped like layer k+1's weights and its biases. |
| Persistence.CheckLayer | nn.js:212-215 | A layer's test passes exactly when the row counts agree, there is a row, the first rows agree in length and the bias counts agree. Equal empty matrices raise TypeError. Any other failure is a size mismatch. |
| Persistence.CheckFrom | nn.js:210-220 | The tests of layers k+1 onward pass exactly when each passes. Otherwise the result is the failure of the first layer that fails. |
| Persistence.Install | nn.js:223-228 | Installing keeps layer 0, and every other layer's neurons and deltas. It replaces each linked layer's weights and biases by its record's. |
| Persistence.Load | nn.js:200-228 | `load` fails with a size mismatch exactly when the layer count is wrong or the first failing test is a mismatch. It fails with TypeError exactly when the first failing test is on an empty matrix. It succeeds exactly when every test passes, and then installs every record. |
| Persistence.LoadPrint | nn.js:178-228 | Loading what `print` saved restores the network, when no layer before the output layer is empty. |
| Persistence.LoadPrintEmptyLayer | nn.js:212-220 | A network with an empty non-output layer cannot load its own saved records. |
| Persistence.LoadPrintAcross | nn.js:178-228 | The saved records of a network load into any network of the same shape whose layers before the output layer are non-empty, and give it the same weights and biases. An empty such layer makes the test read `weights[0]` of an empty matrix (see LoadPrintEmptyLayer). |
| Persistence.LoadAcceptsRagged | nn.js:212-220 | `load` accepts a hidden record whose second weight row is shorter than the first. The network it leaves is not well formed: that row is shorter than the layer, so `feed` would read a missing weight. |
| Persistence.LoadChecked | nn.js:205-228 | Checking every row, the load succeeds exactly when every record fits its layer. A successful load leaves a well-formed network of the same shape holding the records' weights and biases. |
| Persistence.LoadCheckedAgrees | nn.js:205-228 | Where both loads succeed they agree. When no layer is empty, `load` accepts every record set the checked load accepts. |
| Persistence.LoadCheckedPrint | nn.js:178-228 | The checked load restores a saved network. |

## Left out

- `trainAsync` and `stopTraining` (nn.js:151-176): cooperative scheduling through `setImmediate` and a stop flag, with no arithmetic beyond `train`'s.
- File I/O and JSON in `print` and `load` (nn.js:179, 192-197, 202-204): the model works on the parsed records. `load`'s `catch` (nn.js:230-232) wraps every error into one "Error while reading file" message; the model keeps the underlying cause as the error kind.
- `Math.random` and `Math.sqrt` in `initWeights` (nn.js:250-253): the weights are an arbitrary `init` function of the layer, row and column.
- `Math.exp` and `Math.tanh` (nn.js:323, 328): uninterpreted, so no property depends on their values.
- IEEE-754 rounding, NaN and infinities: the numbers are `real`.
- Reference aliasing: `feed` stores the caller's array and `load` stores the parsed arrays (nn.js:265, 306, 310). With immutable values, sharing is invisible.
- Partial mutation before a throw: when `eval` or `backprop` throws in the middle of a training epoch, the source keeps the steps already taken. The model returns only the error.
- Non-integer, NaN or non-number `epochs` and `minMSE`: `epochs` is an optional integer and `minMSE` an optional real, where a missing value or zero is falsy.
- Training.Train: the source loop is unbounded when `epochs` is falsy. The model allows `fuel` further epochs and then reports the run as not finished, with the last loss it computed.
- Training.LoopRunsToBound: it is stated for a non-empty, fitting training set. The empty set raises TypeError as soon as a second epoch is due; LoopErrors states that case.
- Network.Construct: a size is an unbounded natural number. `new Array(n)` (nn.js:238) throws a RangeError for a negative, fractional or at least 2^32 size, before the activation name is checked (nn.js:34). So `(2, -1, 1, "bogus")` throws RangeError, not the activation error. The model has no such sizes and does not model that error.
- Freshly built layers hold 0.0 where the source leaves `new Array(n)` holes (nn.js:238, 245). `train` and `mse` always `eval` before reading neurons, so the placeholders are never read there. But `backprop` called on a network that no `eval` has filled reads holes (nn.js:95, 101, 105), and the source turns every delta, weight and bias into NaN. The model instead takes a finite step from zero neurons.
- Running a network that a ragged `load` left behind: every operation of the model requires a well-formed network, so after the load that LoadAcceptsRagged exhibits the model stops. The source goes on. `feed` (nn.js:269-273) ignores the extra entries of an over-long row, and a short row gives `undefined`, so every later value is NaN.
- Constructor arguments that are neither numbers nor strings: an argument is a natural number or a string. A string as a size gives a one-element array, as `new Array("s")` does.
- Convergence: whether training lowers the loss is not a property the code promises.

## Findings

| source | as written | input that shows it | evidently intended | confidence | as-written member | corrected member |
|---|---|---|---|---|---|---|
| nn.js:212-220 | `load` compares only the length of the first weight row of each layer | a network with 2 inputs, 2 hidden and 1 output neuron, loaded with hidden weights `[[1, 2], [3]]`: `feed` then reads `weights[1][1]` as `undefined` and yields NaN | every row of a loaded matrix has the layer's width, so the loaded network keeps its shape | not executed | Persistence.LoadAcceptsRagged | Persistence.LoadChecked |
