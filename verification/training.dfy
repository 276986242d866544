/** `NeuralNetwork.train`: repeated passes over a training set, each pair
    evaluated and then backpropagated, until an epoch bound or a loss
    threshold is reached.

    The loop of the source is unbounded when no epoch count is given. The
    model gives it a `fuel` budget of extra epochs instead; a run that uses
    it up reports that it did not finish.
 */
module Training {
  import opened Results
  import opened Activations
  import opened Layers
  import opened Network
  import opened Backprop

  /** m is a network of the same shape and activation as net. */
  predicate Shaped(net: Net, m: Net) {
    && WellFormed(m)
    && m.activation == net.activation
    && SameShape(net.layers, m.layers)
  }

  /** Having the shape of is transitive. */
  lemma ShapedTrans(a: Net, b: Net, c: Net)
    requires Shaped(a, b) && Shaped(b, c)
    ensures Shaped(a, c)
  {
  }

  /** The pair (x, t) has the sizes `eval` and `backprop` demand. */
  predicate Fits(net: Net, x: seq<real>, t: seq<real>)
    requires WellFormed(net)
  {
    |x| == InputSize(net) && |t| == OutputSize(net)
  }

  /** The error a pair that does not fit raises: `eval` checks the input first. */
  function Misfit(net: Net, x: seq<real>): Error
    requires WellFormed(net)
  {
    if |x| != InputSize(net) then InputSizeMismatch else TargetSizeMismatch
  }

  /** Networks of one shape accept the same pairs. */
  lemma ShapedFits(net: Net, m: Net, x: seq<real>, t: seq<real>)
    requires WellFormed(net) && Shaped(net, m)
    ensures Fits(m, x, t) <==> Fits(net, x, t)
    ensures Misfit(m, x) == Misfit(net, x)
  {
  }

  /** Evaluating, and so measuring the loss, keeps the shape of a network. */
  lemma EvalShaped(net: Net, tr: Transcendentals, x: seq<real>, t: seq<real>)
    requires WellFormed(net)
    ensures Eval(net, tr, x).Ok? ==> Shaped(net, Eval(net, tr, x).value.net)
    ensures Mse(net, tr, x, t).Ok? ==> Shaped(net, Mse(net, tr, x, t).value.net)
  {
  }

  /** Backpropagation keeps the shape of a network. */
  lemma BackpropShaped(net: Net, t: seq<real>, lr: real)
    requires WellFormed(net)
    ensures Backprop.Backprop(net, t, lr).Ok? ==> Shaped(net, Backprop.Backprop(net, t, lr).value)
  {
  }

  /** One step of the inner loop of `train`: `eval(x)`, then `backprop(t, lr)`. */
  function Step(net: Net, tr: Transcendentals, x: seq<real>, t: seq<real>, lr: real): (r: Result<Net>)
    requires WellFormed(net)
    ensures r.Err? <==> !Fits(net, x, t)
    ensures r.Err? ==> r.error == Misfit(net, x)
    ensures r.Ok? ==> Shaped(net, r.value)
  {
    EvalShaped(net, tr, x, t);
    var e :- Eval(net, tr, x);
    BackpropShaped(e.net, t, lr);
    ShapedFits(net, e.net, x, t);
    var b :- Backprop.Backprop(e.net, t, lr);
    ShapedTrans(net, e.net, b);
    Ok(b)
  }

  /** The first n pairs of the training set, stepped through in order. */
  function Pass(net: Net, tr: Transcendentals, inputs: seq<seq<real>>, targets: seq<seq<real>>, lr: real, n: nat): (r: Result<Net>)
    requires WellFormed(net) && n <= |inputs| && n <= |targets|
    ensures r.Ok? ==> Shaped(net, r.value)
  {
    if n == 0 then Ok(net)
    else
      var p :- Pass(net, tr, inputs, targets, lr, n - 1);
      var q :- Step(p, tr, inputs[n - 1], targets[n - 1], lr);
      ShapedTrans(net, p, q);
      Ok(q)
  }

  /** Every one of the first n pairs fits. */
  predicate AllFit(net: Net, inputs: seq<seq<real>>, targets: seq<seq<real>>, n: nat)
    requires WellFormed(net) && n <= |inputs| && n <= |targets|
  {
    forall j :: 0 <= j < n ==> Fits(net, inputs[j], targets[j])
  }

  /** A pass fails exactly when some pair does not fit, and then with the
      error of the first pair that does not. */
  lemma {:induction false} PassOutcome(net: Net, tr: Transcendentals, inputs: seq<seq<real>>, targets: seq<seq<real>>, lr: real, n: nat)
    requires WellFormed(net) && n <= |inputs| && n <= |targets|
    ensures Pass(net, tr, inputs, targets, lr, n).Ok? <==> AllFit(net, inputs, targets, n)
    ensures Pass(net, tr, inputs, targets, lr, n).Err? ==>
      exists j :: 0 <= j < n && !Fits(net, inputs[j], targets[j]) && AllFit(net, inputs, targets, j)
        && Pass(net, tr, inputs, targets, lr, n).error == Misfit(net, inputs[j])
  {
    hide Step;
    if n > 0 {
      PassOutcome(net, tr, inputs, targets, lr, n - 1);
      var p := Pass(net, tr, inputs, targets, lr, n - 1);
      if p.Ok? {
        ShapedFits(net, p.value, inputs[n - 1], targets[n - 1]);
        if !Fits(net, inputs[n - 1], targets[n - 1]) {
          assert AllFit(net, inputs, targets, n - 1);
        }
      }
    }
  }

  // ---------------------------------------------------------------------
  // The training loop
  // ---------------------------------------------------------------------

  /** A JavaScript value is falsy when it is missing or zero. */
  predicate GivenCount(epochs: Option<int>) {
    epochs.Some? && epochs.value != 0
  }

  predicate GivenLoss(minMse: Option<real>) {
    minMse.Some? && minMse.value != 0.0
  }

  /** The epoch bound after defaulting: a falsy `epochs` becomes `Infinity`. */
  datatype Bound = Finite(n: int) | Infinite

  function EpochBound(epochs: Option<int>): (b: Bound)
    ensures b.Infinite? <==> !GivenCount(epochs)
    ensures b.Finite? ==> b.n == epochs.value
  {
    if GivenCount(epochs) then Finite(epochs.value) else Infinite
  }

  /** The loss threshold after defaulting: a falsy `minMSE` becomes −1. */
  function Threshold(minMse: Option<real>): (m: real)
    ensures !GivenLoss(minMse) ==> m == -1.0
    ensures GivenLoss(minMse) ==> m == minMse.value
  {
    if GivenLoss(minMse) then minMse.value else -1.0
  }

  /** `i < epochs`. */
  predicate Below(i: int, b: Bound) {
    b.Infinite? || i < b.n
  }

  /** The outcome of a training run: the network, the number of epochs run,
      whether the loop condition ended the run (rather than the fuel), and
      the last loss the loop condition computed, if it computed one. */
  datatype Run = Run(net: Net, epochs: nat, finished: bool, loss: Option<real>)

  /** What one iteration of the loop decides: stop with a run, or go on
      with a network whose loss is still above the threshold. */
  datatype Next = Stop(run: Run) | Again(net: Net, loss: real)

  /** One iteration of the `do … while` loop of `train`, the (i+1)-th: a
      pass over the training set, then the loop condition, which computes
      the loss on the first pair only when the epoch bound is not reached. */
  function Epoch(net: Net, tr: Transcendentals, inputs: seq<seq<real>>, targets: seq<seq<real>>, lr: real,
                 bound: Bound, threshold: real, i: nat): (r: Result<Next>)
    requires WellFormed(net) && |inputs| == |targets|
    ensures r.Ok? && r.value.Stop? ==> Shaped(net, r.value.run.net) && r.value.run.epochs == i + 1
    ensures r.Ok? && r.value.Again? ==> Shaped(net, r.value.net)
  {
    var p :- Pass(net, tr, inputs, targets, lr, |inputs|);
    if !Below(i + 1, bound) then Ok(Stop(Run(p, i + 1, true, None)))
    else if |inputs| == 0 then Err(TypeError)
    else
      EvalShaped(p, tr, inputs[0], targets[0]);
      var m :- Mse(p, tr, inputs[0], targets[0]);
      ShapedTrans(net, p, m.net);
      if m.value <= threshold then Ok(Stop(Run(m.net, i + 1, true, Some(m.value))))
      else Ok(Again(m.net, m.value))
  }

  /** An iteration succeeds exactly when every pair fits and the loop
      condition does not read `inputs[0]` of an empty set; it stops at the
      epoch bound or at a loss no greater than the threshold, and goes on
      otherwise. */
  lemma EpochOutcome(net: Net, tr: Transcendentals, inputs: seq<seq<real>>, targets: seq<seq<real>>, lr: real,
                     bound: Bound, threshold: real, i: nat)
    requires WellFormed(net) && |inputs| == |targets|
    ensures var r := Epoch(net, tr, inputs, targets, lr, bound, threshold, i);
      r.Ok? <==> AllFit(net, inputs, targets, |inputs|) && !(|inputs| == 0 && Below(i + 1, bound))
    ensures var r := Epoch(net, tr, inputs, targets, lr, bound, threshold, i);
      r.Err? ==> r.error in {InputSizeMismatch, TargetSizeMismatch, TypeError}
    ensures var r := Epoch(net, tr, inputs, targets, lr, bound, threshold, i);
      r == Err(TypeError) <==> |inputs| == 0 && Below(i + 1, bound)
    ensures var r := Epoch(net, tr, inputs, targets, lr, bound, threshold, i);
      r.Ok? && r.value.Stop? ==>
        var run := r.value.run;
        run.finished && (!Below(i + 1, bound) || (run.loss.Some? && 0.0 <= run.loss.value <= threshold))
    ensures var r := Epoch(net, tr, inputs, targets, lr, bound, threshold, i);
      r.Ok? && r.value.Again? ==> Below(i + 1, bound) && 0 < |inputs| && threshold < r.value.loss
  {
    hide Pass, Mse;
    PassOutcome(net, tr, inputs, targets, lr, |inputs|);
    var p := Pass(net, tr, inputs, targets, lr, |inputs|);
    if p.Ok? && Below(i + 1, bound) && |inputs| != 0 {
      ShapedFits(net, p.value, inputs[0], targets[0]);
    }
  }

  /** The loss an iteration compares with the threshold is the loss of the
      first training pair, measured on the network the pass leaves; at the
      epoch bound no loss is measured and the pass's network is the run's. */
  lemma EpochLoss(net: Net, tr: Transcendentals, inputs: seq<seq<real>>, targets: seq<seq<real>>, lr: real,
                  bound: Bound, threshold: real, i: nat)
    requires WellFormed(net) && |inputs| == |targets|
    ensures var r := Epoch(net, tr, inputs, targets, lr, bound, threshold, i);
      r.Ok? && !Below(i + 1, bound) ==>
        var p := Pass(net, tr, inputs, targets, lr, |inputs|);
        p.Ok? && r.value == Stop(Run(p.value, i + 1, true, None))
    ensures var r := Epoch(net, tr, inputs, targets, lr, bound, threshold, i);
      r.Ok? && Below(i + 1, bound) ==>
        var p := Pass(net, tr, inputs, targets, lr, |inputs|);
        p.Ok? && 0 < |inputs| && Mse(p.value, tr, inputs[0], targets[0]).Ok? &&
        var m := Mse(p.value, tr, inputs[0], targets[0]).value;
        r.value == (if m.value <= threshold then Stop(Run(m.net, i + 1, true, Some(m.value))) else Again(m.net, m.value))
  {
    hide Pass, Mse;
  }

  /** The `do … while` loop of `train` from epoch i on, with `fuel` further
      epochs allowed after this one. */
  function Loop(net: Net, tr: Transcendentals, inputs: seq<seq<real>>, targets: seq<seq<real>>, lr: real,
                bound: Bound, threshold: real, i: nat, fuel: nat): (r: Result<Run>)
    requires WellFormed(net) && |inputs| == |targets|
    ensures r.Ok? ==> Shaped(net, r.value.net) && i < r.value.epochs
    decreases fuel
  {
    var e :- Epoch(net, tr, inputs, targets, lr, bound, threshold, i);
    match e
    case Stop(run) => Ok(run)
    case Again(m, loss) =>
      if fuel == 0 then Ok(Run(m, i + 1, false, Some(loss)))
      else
        var r :- Loop(m, tr, inputs, targets, lr, bound, threshold, i + 1, fuel - 1);
        ShapedTrans(net, m, r.net);
        Ok(r)
  }

  /** `train(inputs, targets, lr, epochs, minMSE)`, with `fuel` epochs
      beyond the first allowed. */
  function Train(net: Net, tr: Transcendentals, inputs: seq<seq<real>>, targets: seq<seq<real>>, lr: real,
                 epochs: Option<int>, minMse: Option<real>, fuel: nat): (r: Result<Run>)
    requires WellFormed(net)
    ensures r == Err(NoFinishCondition) <==> !GivenCount(epochs) && !GivenLoss(minMse)
    ensures r == Err(CountMismatch) <==> (GivenCount(epochs) || GivenLoss(minMse)) && |inputs| != |targets|
    ensures r == Err(TypeError) <==>
      (GivenCount(epochs) || GivenLoss(minMse)) && |inputs| == |targets| == 0 && Below(1, EpochBound(epochs))
    ensures r.Err? ==>
      r.error in {NoFinishCondition, CountMismatch, InputSizeMismatch, TargetSizeMismatch, TypeError}
    ensures r.Ok? <==>
      && (GivenCount(epochs) || GivenLoss(minMse)) && |inputs| == |targets|
      && AllFit(net, inputs, targets, |inputs|) && !(|inputs| == 0 && Below(1, EpochBound(epochs)))
    ensures r.Ok? ==> Shaped(net, r.value.net) && 1 <= r.value.epochs
  {
    if !GivenCount(epochs) && !GivenLoss(minMse) then Err(NoFinishCondition)
    else if |inputs| != |targets| then Err(CountMismatch)
    else
      var r := Loop(net, tr, inputs, targets, lr, EpochBound(epochs), Threshold(minMse), 0, fuel);
      LoopErrors(net, tr, inputs, targets, lr, EpochBound(epochs), Threshold(minMse), 0, fuel);
      LoopOk(net, tr, inputs, targets, lr, EpochBound(epochs), Threshold(minMse), 0, fuel);
      r
  }

  // ---------------------------------------------------------------------
  // Properties of the loop
  // ---------------------------------------------------------------------

  /** The loop raises only the errors a pass raises, or the TypeError of
      reading `inputs[0]` of an empty set when a second epoch is due. */
  lemma {:induction false} LoopErrors(net: Net, tr: Transcendentals, inputs: seq<seq<real>>, targets: seq<seq<real>>, lr: real,
                                      bound: Bound, threshold: real, i: nat, fuel: nat)
    requires WellFormed(net) && |inputs| == |targets|
    ensures var r := Loop(net, tr, inputs, targets, lr, bound, threshold, i, fuel);
      r.Err? ==> r.error in {InputSizeMismatch, TargetSizeMismatch, TypeError}
    ensures var r := Loop(net, tr, inputs, targets, lr, bound, threshold, i, fuel);
      r == Err(TypeError) <==> |inputs| == 0 && Below(i + 1, bound)
    decreases fuel
  {
    hide Epoch;
    EpochOutcome(net, tr, inputs, targets, lr, bound, threshold, i);
    var e := Epoch(net, tr, inputs, targets, lr, bound, threshold, i);
    if e.Ok? && e.value.Again? && fuel != 0 {
      LoopErrors(e.value.net, tr, inputs, targets, lr, bound, threshold, i + 1, fuel - 1);
    }
  }

  /** The loop succeeds exactly when its first iteration does: every pair
      fits, and the set is not empty when a second epoch is due. Later
      iterations run on networks of the same shape, so they succeed too. */
  lemma {:induction false} LoopOk(net: Net, tr: Transcendentals, inputs: seq<seq<real>>, targets: seq<seq<real>>, lr: real,
                                  bound: Bound, threshold: real, i: nat, fuel: nat)
    requires WellFormed(net) && |inputs| == |targets|
    ensures Loop(net, tr, inputs, targets, lr, bound, threshold, i, fuel).Ok? <==>
      AllFit(net, inputs, targets, |inputs|) && !(|inputs| == 0 && Below(i + 1, bound))
    decreases fuel
  {
    hide Epoch;
    EpochOutcome(net, tr, inputs, targets, lr, bound, threshold, i);
    var e := Epoch(net, tr, inputs, targets, lr, bound, threshold, i);
    if e.Ok? && e.value.Again? && fuel != 0 {
      var m := e.value.net;
      forall j | 0 <= j < |inputs|
        ensures Fits(m, inputs[j], targets[j]) <==> Fits(net, inputs[j], targets[j])
      {
        ShapedFits(net, m, inputs[j], targets[j]);
      }
      LoopOk(m, tr, inputs, targets, lr, bound, threshold, i + 1, fuel - 1);
    }
  }

  /** The loop ends either at the epoch bound or when the loss is at most
      the threshold; when the fuel runs out first, neither has happened. */
  lemma {:induction false} LoopStops(net: Net, tr: Transcendentals, inputs: seq<seq<real>>, targets: seq<seq<real>>, lr: real,
                                     bound: Bound, threshold: real, i: nat, fuel: nat)
    requires WellFormed(net) && |inputs| == |targets|
    ensures var r := Loop(net, tr, inputs, targets, lr, bound, threshold, i, fuel);
      r.Ok? && r.value.finished ==>
        !Below(r.value.epochs, bound) || (r.value.loss.Some? && r.value.loss.value <= threshold)
    ensures var r := Loop(net, tr, inputs, targets, lr, bound, threshold, i, fuel);
      r.Ok? && !r.value.finished ==>
        Below(r.value.epochs, bound) && r.value.loss.Some? && threshold < r.value.loss.value
    decreases fuel
  {
    hide Epoch;
    EpochOutcome(net, tr, inputs, targets, lr, bound, threshold, i);
    var e := Epoch(net, tr, inputs, targets, lr, bound, threshold, i);
    if e.Ok? && e.value.Again? && fuel != 0 {
      LoopStops(e.value.net, tr, inputs, targets, lr, bound, threshold, i + 1, fuel - 1);
    }
  }

  /** Measuring the loss changes only the stored neurons, so measuring the
      same pair again on the network it leaves gives the same loss. */
  lemma MseRepeats(net: Net, tr: Transcendentals, x: seq<real>, t: seq<real>)
    requires WellFormed(net)
    ensures Mse(net, tr, x, t).Ok? ==>
      var m := Mse(net, tr, x, t).value;
      Mse(m.net, tr, x, t).Ok? && Mse(m.net, tr, x, t).value.value == m.value
  {
    if Mse(net, tr, x, t).Ok? {
      var e := Eval(net, tr, x).value;
      assert forall k :: 0 <= k < |net.layers| ==> SameWeights(net.layers[k], e.net.layers[k]);
      EvalIsDeterministic(net, e.net, tr, x);
    }
  }

  /** The loss a run reports, if any, is the loss of the first training
      pair on the network the run returns. */
  predicate FirstLoss(run: Run, tr: Transcendentals, inputs: seq<seq<real>>, targets: seq<seq<real>>) {
    run.loss.Some? ==>
      && WellFormed(run.net) && 0 < |inputs| && 0 < |targets|
      && Mse(run.net, tr, inputs[0], targets[0]).Ok?
      && Mse(run.net, tr, inputs[0], targets[0]).value.value == run.loss.value
  }

  /** A run that ends on a loss measured on the first pair reports that loss. */
  lemma MeasuredFirst(p: Net, tr: Transcendentals, inputs: seq<seq<real>>, targets: seq<seq<real>>, epochs: nat, finished: bool)
    requires WellFormed(p) && 0 < |inputs| && 0 < |targets| && Mse(p, tr, inputs[0], targets[0]).Ok?
    ensures var m := Mse(p, tr, inputs[0], targets[0]).value;
      FirstLoss(Run(m.net, epochs, finished, Some(m.value)), tr, inputs, targets)
  {
    MseRepeats(p, tr, inputs[0], targets[0]);
  }

  /** An iteration that stops or goes on after measuring a loss reports the
      first pair's loss on the network it passes on. */
  lemma EpochFirstLoss(net: Net, tr: Transcendentals, inputs: seq<seq<real>>, targets: seq<seq<real>>, lr: real,
                       bound: Bound, threshold: real, i: nat)
    requires WellFormed(net) && |inputs| == |targets|
    ensures var r := Epoch(net, tr, inputs, targets, lr, bound, threshold, i);
      r.Ok? && r.value.Stop? ==> FirstLoss(r.value.run, tr, inputs, targets)
    ensures var r := Epoch(net, tr, inputs, targets, lr, bound, threshold, i);
      r.Ok? && r.value.Again? ==> FirstLoss(Run(r.value.net, i + 1, false, Some(r.value.loss)), tr, inputs, targets)
  {
    hide Epoch, Pass, Mse;
    EpochLoss(net, tr, inputs, targets, lr, bound, threshold, i);
    var e := Epoch(net, tr, inputs, targets, lr, bound, threshold, i);
    if e.Ok? && Below(i + 1, bound) {
      var p := Pass(net, tr, inputs, targets, lr, |inputs|).value;
      MeasuredFirst(p, tr, inputs, targets, i + 1, true);
      MeasuredFirst(p, tr, inputs, targets, i + 1, false);
    }
  }

  /** The loss a run reports is the loss of the first training pair on the
      network the run returns: the loop condition measures `inputs[0]`
      against `targets[0]` after each pass, and nothing else. */
  lemma {:induction false} LoopLoss(net: Net, tr: Transcendentals, inputs: seq<seq<real>>, targets: seq<seq<real>>, lr: real,
                                    bound: Bound, threshold: real, i: nat, fuel: nat)
    requires WellFormed(net) && |inputs| == |targets|
    ensures var r := Loop(net, tr, inputs, targets, lr, bound, threshold, i, fuel);
      r.Ok? ==> FirstLoss(r.value, tr, inputs, targets)
    decreases fuel
  {
    hide Epoch, FirstLoss;
    EpochFirstLoss(net, tr, inputs, targets, lr, bound, threshold, i);
    var e := Epoch(net, tr, inputs, targets, lr, bound, threshold, i);
    if e.Ok? && e.value.Again? && fuel != 0 {
      LoopLoss(e.value.net, tr, inputs, targets, lr, bound, threshold, i + 1, fuel - 1);
    }
  }

  /** The loop never runs past the epoch bound, except that it always runs
      the epoch it starts. */
  lemma {:induction false} LoopWithinBound(net: Net, tr: Transcendentals, inputs: seq<seq<real>>, targets: seq<seq<real>>, lr: real,
                                           n: int, threshold: real, i: nat, fuel: nat)
    requires WellFormed(net) && |inputs| == |targets|
    ensures var r := Loop(net, tr, inputs, targets, lr, Finite(n), threshold, i, fuel);
      r.Ok? ==> r.value.epochs <= if i + 1 < n then n else i + 1
    decreases fuel
  {
    hide Epoch;
    EpochOutcome(net, tr, inputs, targets, lr, Finite(n), threshold, i);
    var e := Epoch(net, tr, inputs, targets, lr, Finite(n), threshold, i);
    if e.Ok? && e.value.Again? && fuel != 0 {
      LoopWithinBound(e.value.net, tr, inputs, targets, lr, n, threshold, i + 1, fuel - 1);
    }
  }

  /** With a negative threshold (what a missing `minMSE` defaults to, below
      every loss), a fitting, non-empty training set and enough fuel, the
      loop runs exactly up to the epoch bound, and at least once. */
  lemma {:induction false} LoopRunsToBound(net: Net, tr: Transcendentals, inputs: seq<seq<real>>, targets: seq<seq<real>>, lr: real,
                                           n: int, threshold: real, i: nat, fuel: nat)
    requires WellFormed(net) && |inputs| == |targets| && 0 < |inputs|
    requires AllFit(net, inputs, targets, |inputs|)
    requires threshold < 0.0 && n <= i + 1 + fuel
    ensures var r := Loop(net, tr, inputs, targets, lr, Finite(n), threshold, i, fuel);
      r.Ok? && r.value.finished && r.value.epochs == if i + 1 < n then n else i + 1
    decreases fuel
  {
    hide Epoch;
    EpochOutcome(net, tr, inputs, targets, lr, Finite(n), threshold, i);
    var e := Epoch(net, tr, inputs, targets, lr, Finite(n), threshold, i);
    if i + 1 < n {
      var m := e.value.net;
      forall j | 0 <= j < |inputs|
        ensures Fits(m, inputs[j], targets[j])
      {
        ShapedFits(net, m, inputs[j], targets[j]);
      }
      LoopRunsToBound(m, tr, inputs, targets, lr, n, threshold, i + 1, fuel - 1);
    }
  }

  /** `train` with an epoch count n and no loss threshold runs max(1, n)
      epochs, given enough fuel. */
  lemma TrainRunsEpochs(net: Net, tr: Transcendentals, inputs: seq<seq<real>>, targets: seq<seq<real>>, lr: real,
                        n: int, fuel: nat)
    requires WellFormed(net) && |inputs| == |targets| && 0 < |inputs|
    requires AllFit(net, inputs, targets, |inputs|)
    requires n != 0 && n <= fuel + 1
    ensures var r := Train(net, tr, inputs, targets, lr, Some(n), None, fuel);
      r.Ok? && r.value.finished && r.value.epochs == if 1 < n then n else 1
  {
    hide Loop;
    LoopRunsToBound(net, tr, inputs, targets, lr, n, -1.0, 0, fuel);
  }
}
