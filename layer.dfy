/** A fully connected layer: weights, biases, their two gradient accumulators
    and the values cached by the last forward pass, all updated in place. */
module Layers {
  import opened Outcomes
  import opened Activations
  import opened Matrices

  /** What `forward` returns for a layer with weights w and biases b:
      activate(w * input + b).  `multiply` and `add` throw on a shape mismatch,
      `activate` on a softmax layer. */
  ghost function Output(w: Matrix, b: Matrix, f: ActivationFunction, input: Matrix, exp: real -> Positive): Result<Matrix>
    requires w.Valid() && b.Valid() && input.Valid()
  {
    if w.cols != input.rows then Failure(DimensionMismatch)
    else if !SameShape(Product(w, input), b) then Failure(DimensionMismatch)
    else Activated(Plus(Product(w, input), b), f, exp)
  }

  /** The delta of `backward`: the incoming gradient times, element-wise, the
      activation derivative taken at the cached activated output. */
  ghost function Delta(g: Matrix, activated: Matrix, f: ActivationFunction, exp: real -> Positive): (r: Result<Matrix>)
    requires g.Valid() && activated.Valid()
    ensures r.Success? ==> r.value.Valid() && SameShape(r.value, activated) && SameShape(r.value, g)
  {
    var d := Derived(activated, f, exp);
    if d.Failure? then Failure(d.error)
    else if !SameShape(g, d.value) then Failure(DimensionMismatch)
    else Success(Hadamard(g, d.value))
  }

  class FullyConnectedLayer {
    var weights: Matrix
    var costGradientWeights: Matrix
    var biases: Matrix
    var costGradientBiases: Matrix
    const activation: ActivationFunction
    /** The input of the last `forward`; None (Java's null) before the first. */
    var previousOutput: Option<Matrix>
    /** The output of the last `forward` that got through `activate`. */
    var activatedOutput: Option<Matrix>

    function NumInputs(): nat
      reads this
    {
      weights.cols
    }

    function NumOutputs(): nat
      reads this
    {
      weights.rows
    }

    /** Weights are outputs x inputs, biases a column of outputs, each accumulator
        shaped like what it accumulates, and a cached output is a column of outputs. */
    ghost predicate Valid()
      reads this
    {
      weights.Valid() && biases.Valid() && costGradientWeights.Valid() && costGradientBiases.Valid() &&
      biases.rows == weights.rows && biases.cols == 1 &&
      SameShape(costGradientWeights, weights) && SameShape(costGradientBiases, biases) &&
      (previousOutput.Some? ==> previousOutput.value.Valid()) &&
      (activatedOutput.Some? ==> activatedOutput.value.Valid() &&
                                 activatedOutput.value.rows == weights.rows && activatedOutput.value.cols == 1)
    }

    /** The constructor: weights and biases drawn through `Matrix.randomized`
        (the draws are the values of `Math.random`), then `clearGradient`. */
    constructor (numInputNodes: nat, numOutputNodes: nat, activation: ActivationFunction,
                 weightDraws: seq<seq<real>>, biasDraws: seq<seq<real>>)
      requires |weightDraws| == numOutputNodes && forall i :: 0 <= i < numOutputNodes ==> |weightDraws[i]| == numInputNodes
      requires forall i, j :: 0 <= i < numOutputNodes && 0 <= j < numInputNodes ==> 0.0 <= weightDraws[i][j] < 1.0
      requires |biasDraws| == numOutputNodes && forall i :: 0 <= i < numOutputNodes ==> |biasDraws[i]| == 1
      requires forall i :: 0 <= i < numOutputNodes ==> 0.0 <= biasDraws[i][0] < 1.0
      ensures Valid()
      ensures NumInputs() == numInputNodes && NumOutputs() == numOutputNodes && this.activation == activation
      ensures forall i, j :: 0 <= i < numOutputNodes && 0 <= j < numInputNodes ==>
                weights.data[i][j] == weightDraws[i][j] * 2.0 - 1.0 && -1.0 <= weights.data[i][j] < 1.0
      ensures forall i :: 0 <= i < numOutputNodes ==>
                biases.data[i][0] == biasDraws[i][0] * 2.0 - 1.0 && -1.0 <= biases.data[i][0] < 1.0
      ensures costGradientWeights == Zero(numOutputNodes, numInputNodes)
      ensures costGradientBiases == Zero(numOutputNodes, 1)
      ensures previousOutput == None && activatedOutput == None
    {
      var w := Randomized(numOutputNodes, numInputNodes, weightDraws);
      var b := Randomized(numOutputNodes, 1, biasDraws);
      weights := w;
      biases := b;
      this.activation := activation;
      previousOutput := None;
      activatedOutput := None;
      new;
      ClearGradient();
    }

    /** `forward`: caches the input first, so it is cached even when `multiply`,
        `add` or `activate` then throws; the activated output is cached only
        when it is computed. */
    method Forward(input: Matrix, exp: real -> Positive) returns (r: Result<Matrix>)
      requires Valid() && input.Valid()
      modifies this
      ensures Valid()
      ensures r == Output(weights, biases, activation, input, exp)
      ensures r.Failure? <==> input.rows != NumInputs() || input.cols != 1 || (activation == Softmax && NumOutputs() > 0)
      ensures r.Success? ==> r.value.Valid() && r.value.rows == NumOutputs() && r.value.cols == 1
      ensures previousOutput == Some(input)
      ensures activatedOutput == if r.Success? then Some(r.value) else old(activatedOutput)
      ensures weights == old(weights) && biases == old(biases)
      ensures costGradientWeights == old(costGradientWeights) && costGradientBiases == old(costGradientBiases)
    {
      previousOutput := Some(input);
      var weightedInputs := Multiply(weights, input);
      if weightedInputs.Failure? {
        return Failure(weightedInputs.error);
      }
      var biasedOutput := Add(weightedInputs.value, biases);
      if biasedOutput.Failure? {
        return Failure(biasedOutput.error);
      }
      r := Activate(biasedOutput.value, activation, exp);
      if r.Success? {
        activatedOutput := Some(r.value);
      }
    }

    /** `backward`: delta = outputGradient (.) derivative(activatedOutput); the
        weight accumulator gains delta * previousOutputᵀ and the bias accumulator
        gains delta; the result is weightsᵀ * delta.  Both cached values must
        exist (Java dereferences them). */
    method Backward(outputGradient: Matrix, exp: real -> Positive) returns (r: Result<Matrix>)
      requires Valid() && outputGradient.Valid()
      requires previousOutput.Some? && activatedOutput.Some?
      modifies this
      ensures Valid()
      ensures weights == old(weights) && biases == old(biases)
      ensures previousOutput == old(previousOutput) && activatedOutput == old(activatedOutput)
      ensures var delta := Delta(outputGradient, activatedOutput.value, activation, exp);
              var x := previousOutput.value;
              (r.Failure? <==> delta.Failure? || x.cols != 1 || x.rows != NumInputs()) &&
              (r.Success? ==>
                 costGradientWeights == Plus(old(costGradientWeights), Product(delta.value, Transposed(x))) &&
                 costGradientBiases == Plus(old(costGradientBiases), delta.value) &&
                 r.value == Product(Transposed(weights), delta.value) &&
                 r.value.rows == NumInputs() && r.value.cols == 1)
      ensures r.Failure? ==> costGradientWeights == old(costGradientWeights) && costGradientBiases == old(costGradientBiases)
      ensures var delta := Delta(outputGradient, activatedOutput.value, activation, exp);
              r.Failure? ==> r.error == if delta.Failure? then delta.error else DimensionMismatch
    {
      var activationDerivative := ActivationDerivative(activatedOutput.value, activation, exp);
      if activationDerivative.Failure? {
        return Failure(activationDerivative.error);
      }
      var delta := ElementWiseMultiply(outputGradient, activationDerivative.value);
      if delta.Failure? {
        return Failure(delta.error);
      }
      var inputTranspose := Transpose(previousOutput.value);
      var weightGradient := Multiply(delta.value, inputTranspose);
      if weightGradient.Failure? {
        return Failure(weightGradient.error);
      }
      var biasGradient := delta.value;
      var newWeights := Add(costGradientWeights, weightGradient.value);
      if newWeights.Failure? {
        return Failure(newWeights.error);
      }
      costGradientWeights := newWeights.value;
      var newBiases := Add(costGradientBiases, biasGradient);
      costGradientBiases := newBiases.value;
      var weightsTranspose := Transpose(weights);
      var previousGradient := Multiply(weightsTranspose, delta.value);
      r := Success(previousGradient.value);
    }

    /** `applyGradient`: one descent step, W := W - lr * gradW and b := b - lr * gradB.
        The batch size is unused and the accumulators are kept. */
    method ApplyGradient(learnRate: real, batchSize: int)
      requires Valid()
      modifies this
      ensures Valid()
      ensures weights == Minus(old(weights), Times(old(costGradientWeights), learnRate))
      ensures biases == Minus(old(biases), Times(old(costGradientBiases), learnRate))
      ensures SameShape(weights, old(weights)) && SameShape(biases, old(biases))
      ensures costGradientWeights == old(costGradientWeights) && costGradientBiases == old(costGradientBiases)
      ensures previousOutput == old(previousOutput) && activatedOutput == old(activatedOutput)
    {
      var weightStep := Scale(costGradientWeights, learnRate);
      var newWeights := Subtract(weights, weightStep);
      weights := newWeights.value;
      var biasStep := Scale(costGradientBiases, learnRate);
      var newBiases := Subtract(biases, biasStep);
      biases := newBiases.value;
    }

    /** `clearGradient`: zero accumulators shaped like the weights and biases. */
    method ClearGradient()
      requires weights.Valid() && biases.Valid()
      modifies this
      ensures costGradientWeights == Zero(weights.rows, weights.cols)
      ensures costGradientBiases == Zero(biases.rows, biases.cols)
      ensures weights == old(weights) && biases == old(biases)
      ensures previousOutput == old(previousOutput) && activatedOutput == old(activatedOutput)
    {
      costGradientWeights := New(weights.rows, weights.cols);
      costGradientBiases := New(biases.rows, biases.cols);
    }
  }

  // ---------------------------------------------------------------------
  // Properties of the layer's arithmetic
  // ---------------------------------------------------------------------

  /** `forward` fails exactly on an input that is not a column of NumInputs
      entries, or on a nonempty softmax layer; otherwise output i is
      f(sum_k w[i][k] * input[k][0] + b[i][0]). */
  lemma OutputEntries(w: Matrix, b: Matrix, f: ActivationFunction, input: Matrix, exp: real -> Positive)
    requires w.Valid() && b.Valid() && input.Valid() && b.rows == w.rows && b.cols == 1
    ensures var r := Output(w, b, f, input, exp);
            (r.Failure? <==> input.rows != w.cols || input.cols != 1 || (f == Softmax && w.rows > 0)) &&
            (r.Success? ==> (r.value.rows == w.rows && r.value.cols == 1 &&
               forall i :: 0 <= i < w.rows ==>
                 r.value.data[i][0] == Apply(f, Dot(w, input, i, 0, w.cols) + b.data[i][0], exp).value))
  {
  }

  /** The weight gradient delta * xᵀ of a column delta and a column x is their
      outer product. */
  lemma OuterProduct(delta: Matrix, x: Matrix, i: nat, j: nat)
    requires delta.Valid() && x.Valid() && delta.cols == 1 && x.cols == 1
    requires i < delta.rows && j < x.rows
    ensures Product(delta, Transposed(x)).rows == delta.rows && Product(delta, Transposed(x)).cols == x.rows
    ensures Product(delta, Transposed(x)).data[i][j] == delta.data[i][0] * x.data[j][0]
  {
    assert Dot(delta, Transposed(x), i, j, 0) == 0.0;
  }

  /** With cleared accumulators, a descent step leaves weights and biases as they were. */
  lemma ClearedStepIsIdentity(w: Matrix, b: Matrix, learnRate: real)
    requires w.Valid() && b.Valid()
    ensures Minus(w, Times(Zero(w.rows, w.cols), learnRate)) == w
    ensures Minus(b, Times(Zero(b.rows, b.cols), learnRate)) == b
  {
    MinusScaledZero(w, learnRate);
    MinusScaledZero(b, learnRate);
  }

  /** The first `backward` after `clearGradient` leaves exactly its own
      gradients in the accumulators. */
  lemma FirstAccumulation(w: Matrix, b: Matrix, weightGradient: Matrix, delta: Matrix)
    requires w.Valid() && b.Valid() && weightGradient.Valid() && delta.Valid()
    requires SameShape(weightGradient, w) && SameShape(delta, b)
    ensures Plus(Zero(w.rows, w.cols), weightGradient) == weightGradient
    ensures Plus(Zero(b.rows, b.cols), delta) == delta
  {
    ZeroPlus(weightGradient);
    ZeroPlus(delta);
  }
}
