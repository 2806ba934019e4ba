/** The `ActivationFunction` enum: four variants, each with a scalar `apply`
    and `derivative`.  `Math.exp` is not modelled; it is passed in as `exp`,
    a function whose values are positive. */
module Activations {
  import opened Outcomes

  /** The variants in declaration order (their ordinals are 0, 1, 2, 3). */
  datatype ActivationFunction = LeakyRelu | Relu | Sigmoid | Softmax

  /** `ordinal()`; its inverse is `values()[k]`. */
  function Ordinal(f: ActivationFunction): (k: nat)
    ensures k < 4 && FromOrdinal(k) == Success(f)
  {
    match f
    case LeakyRelu => 0
    case Relu => 1
    case Sigmoid => 2
    case Softmax => 3
  }

  /** `ActivationFunction.values()[k]`: any index outside 0..3 throws. */
  function FromOrdinal(k: int): (r: Result<ActivationFunction>)
    ensures r.Failure? <==> !(0 <= k < 4)
    ensures r.Failure? ==> r.error == IndexOutOfBounds
  {
    if k == 0 then Success(LeakyRelu)
    else if k == 1 then Success(Relu)
    else if k == 2 then Success(Sigmoid)
    else if k == 3 then Success(Softmax)
    else Failure(IndexOutOfBounds)
  }

  /** `Math.max(0, x)`. */
  function Max0(x: real): real { if 0.0 >= x then 0.0 else x }

  /** The logistic function 1 / (1 + e^-x). */
  function Logistic(x: real, exp: real -> Positive): real
  {
    1.0 / (1.0 + exp(-x))
  }

  /** `apply(x)`.  LEAKY_RELU is written exactly like RELU: `Math.max(0, x)`. */
  function Apply(f: ActivationFunction, x: real, exp: real -> Positive): (r: Result<real>)
    ensures r.Failure? <==> f == Softmax
    ensures r.Failure? ==> r.error == UnsupportedOperation
    ensures (f == Relu || f == LeakyRelu) ==>
              r.value >= 0.0 && r.value >= x && (r.value == 0.0 || r.value == x)
  {
    match f
    case LeakyRelu => Success(Max0(x))
    case Relu => Success(Max0(x))
    case Sigmoid => Success(Logistic(x, exp))
    case Softmax => Failure(UnsupportedOperation)
  }

  /** `derivative(x)`.  LEAKY_RELU returns x itself (not 1) for positive x, as written. */
  function Derivative(f: ActivationFunction, x: real, exp: real -> Positive): (r: Result<real>)
    ensures r.Failure? <==> f == Softmax
    ensures r.Failure? ==> r.error == UnsupportedOperation
    ensures f == Relu ==> (r.value == 0.0 || r.value == 1.0) && (r.value == 1.0 <==> x > 0.0)
    ensures f == LeakyRelu ==> (x > 0.0 ==> r.value == x) && (x <= 0.0 ==> r.value == x / 100.0)
    ensures f == Sigmoid ==>
              var s := Apply(Sigmoid, x, exp).value; r.value == s * (1.0 - s)
  {
    match f
    case LeakyRelu => Success(if x > 0.0 then x else 0.01 * x)
    case Relu => Success(if x > 0.0 then 1.0 else 0.0)
    case Sigmoid =>
      var activation := Logistic(x, exp);
      Success(activation * (1.0 - activation))
    case Softmax => Failure(UnsupportedOperation)
  }

  /** As written, LEAKY_RELU's `apply` is indistinguishable from RELU's. */
  lemma LeakyReluAppliesLikeRelu(x: real, exp: real -> Positive)
    ensures Apply(LeakyRelu, x, exp) == Apply(Relu, x, exp)
  {
  }

  /** With a positive exponential, the sigmoid lies strictly between 0 and 1
      and its derivative s(1 - s) lies in (0, 1/4]. */
  lemma SigmoidBounds(x: real, exp: real -> Positive)
    ensures 0.0 < Apply(Sigmoid, x, exp).value < 1.0
    ensures 0.0 < Derivative(Sigmoid, x, exp).value <= 0.25
  {
    var e := exp(-x);
    var s := Logistic(x, exp);
    assert s * (1.0 + e) == 1.0;
    assert 0.0 < s < 1.0;
    assert (s - 0.5) * (s - 0.5) >= 0.0;
  }
}
