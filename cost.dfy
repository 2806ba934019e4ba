/** The `CostFunction` enum: MSE, CROSS_ENTROPY and MAE, each with a
    `calculate` (a scalar) and a `derivative` (a matrix shaped like the
    prediction).  `Math.log` is passed in as `ln`, defined on positive reals
    only, so that every call site must show its argument is positive. */
module Costs {
  import opened Outcomes
  import opened Matrices

  /** The variants in declaration order (their ordinals are 0, 1, 2). */
  datatype CostFunction = Mse | CrossEntropy | Mae

  /** `ordinal()`; its inverse is `values()[k]`. */
  function Ordinal(c: CostFunction): (k: nat)
    ensures k < 3 && FromOrdinal(k) == Success(c)
  {
    match c
    case Mse => 0
    case CrossEntropy => 1
    case Mae => 2
  }

  /** `CostFunction.values()[k]`: any index outside 0..2 throws. */
  function FromOrdinal(k: int): (r: Result<CostFunction>)
    ensures r.Failure? <==> !(0 <= k < 3)
    ensures r.Failure? ==> r.error == IndexOutOfBounds
  {
    if k == 0 then Success(Mse)
    else if k == 1 then Success(CrossEntropy)
    else if k == 2 then Success(Mae)
    else Failure(IndexOutOfBounds)
  }

  /** The clamp bound 1e-9 of CROSS_ENTROPY. */
  const Epsilon: real := 0.000000001

  /** `Math.max(1e-9, Math.min(p, 1 - 1e-9))`: both p and 1 - p end up at least 1e-9,
      so neither `log` argument nor any divisor can be zero; inside the band p is kept. */
  function Clamp(p: real): (q: real)
    ensures Epsilon <= q <= 1.0 - Epsilon
    ensures q > 0.0 && 1.0 - q > 0.0
    ensures Epsilon <= p <= 1.0 - Epsilon ==> q == p
    ensures p < Epsilon ==> q == Epsilon
    ensures p > 1.0 - Epsilon ==> q == 1.0 - Epsilon
  {
    var upper := if p <= 1.0 - Epsilon then p else 1.0 - Epsilon;
    if Epsilon >= upper then Epsilon else upper
  }

  function Abs(x: real): real { if x < 0.0 then -x else x }

  /** One cross-entropy term, on the clamped prediction. */
  function CrossEntropyTerm(p: real, y: real, ln: Positive -> real): real
  {
    var q := Clamp(p);
    y * ln(q) + (1.0 - y) * ln(1.0 - q)
  }

  /** One cross-entropy gradient entry, on the clamped prediction. */
  function CrossEntropySlope(p: real, y: real): real
  {
    var q := Clamp(p);
    -(y / q) + (1.0 - y) / (1.0 - q)
  }

  /** One MAE gradient entry: the sign of p - y (zero counts as negative), times the factor. */
  function MaeSlope(p: real, y: real, factor: real): real
  {
    factor * (if p - y > 0.0 then 1.0 else -1.0)
  }

  /** The MAE factor 1 / (rows * cols). */
  function MaeFactor(p: Matrix): real
    requires p.rows > 0 && p.cols > 0
  {
    assert p.rows * p.cols > 0;
    1.0 / (p.rows * p.cols) as real
  }

  /** The grid of cross-entropy terms. */
  ghost function CrossEntropyTerms(p: Matrix, e: Matrix, ln: Positive -> real): (m: Matrix)
    requires p.Valid() && e.Valid() && SameShape(p, e)
    ensures m.Valid() && SameShape(m, p)
  {
    Matrix(p.rows, p.cols,
      seq(p.rows, i requires 0 <= i < p.rows =>
        seq(p.cols, j requires 0 <= j < p.cols => CrossEntropyTerm(p.data[i][j], e.data[i][j], ln))))
  }

  /** The grid of cross-entropy gradient entries. */
  ghost function CrossEntropySlopes(p: Matrix, e: Matrix): (m: Matrix)
    requires p.Valid() && e.Valid() && SameShape(p, e)
    ensures m.Valid() && SameShape(m, p)
  {
    Matrix(p.rows, p.cols,
      seq(p.rows, i requires 0 <= i < p.rows =>
        seq(p.cols, j requires 0 <= j < p.cols => CrossEntropySlope(p.data[i][j], e.data[i][j]))))
  }

  /** The grid of absolute differences |p - e|. */
  ghost function AbsoluteErrors(p: Matrix, e: Matrix): (m: Matrix)
    requires p.Valid() && e.Valid() && SameShape(p, e)
    ensures m.Valid() && SameShape(m, p)
  {
    Matrix(p.rows, p.cols,
      seq(p.rows, i requires 0 <= i < p.rows =>
        seq(p.cols, j requires 0 <= j < p.cols => Abs(p.data[i][j] - e.data[i][j]))))
  }

  /** The grid of MAE gradient entries. */
  ghost function MaeSlopes(p: Matrix, e: Matrix): (m: Matrix)
    requires p.Valid() && e.Valid() && SameShape(p, e) && p.rows > 0 && p.cols > 0
    ensures m.Valid() && SameShape(m, p)
  {
    Matrix(p.rows, p.cols,
      seq(p.rows, i requires 0 <= i < p.rows =>
        seq(p.cols, j requires 0 <= j < p.cols => MaeSlope(p.data[i][j], e.data[i][j], MaeFactor(p)))))
  }

  // ---------------------------------------------------------------------
  // What each `calculate` and `derivative` computes
  // ---------------------------------------------------------------------

  /** MSE: the summed squared difference over rows * cols (NaN, as 0.0 / 0, when empty). */
  ghost function MseCost(p: Matrix, e: Matrix): Result<real>
    requires p.Valid() && e.Valid()
  {
    if !SameShape(p, e) then Failure(DimensionMismatch)
    else if p.rows * p.cols == 0 then Failure(NotANumber)
    else Success(Total(Hadamard(Minus(p, e), Minus(p, e))) / (p.rows * p.cols) as real)
  }

  /** The MSE gradient is scaled by `2.0 / rows * cols`, that is (2 / rows) * cols.
      With no rows the (infinite) factor multiplies nothing. */
  function MseFactor(p: Matrix): real
  {
    if p.rows == 0 then 0.0 else 2.0 / p.rows as real * p.cols as real
  }

  ghost function MseGradient(p: Matrix, e: Matrix): Result<Matrix>
    requires p.Valid() && e.Valid()
  {
    if !SameShape(p, e) then Failure(DimensionMismatch)
    else Success(Times(Minus(p, e), MseFactor(p)))
  }

  /** CROSS_ENTROPY: minus the summed terms, over rows only.  `toArray` throws
      on a matrix without rows. */
  ghost function CrossEntropyCost(p: Matrix, e: Matrix, ln: Positive -> real): Result<real>
    requires p.Valid() && e.Valid()
  {
    if !SameShape(p, e) then Failure(DimensionMismatch)
    else if p.rows == 0 then Failure(IndexOutOfBounds)
    else Success(-Total(CrossEntropyTerms(p, e, ln)) / p.rows as real)
  }

  ghost function CrossEntropyGradient(p: Matrix, e: Matrix): Result<Matrix>
    requires p.Valid() && e.Valid()
  {
    if !SameShape(p, e) then Failure(DimensionMismatch)
    else if p.rows == 0 then Failure(IndexOutOfBounds)
    else Success(CrossEntropySlopes(p, e))
  }

  /** MAE: the summed absolute difference over rows * cols.  `toArray` throws on a
      matrix without rows; with rows but no columns the quotient is 0.0 / 0. */
  ghost function MaeCost(p: Matrix, e: Matrix): Result<real>
    requires p.Valid() && e.Valid()
  {
    if !SameShape(p, e) then Failure(DimensionMismatch)
    else if p.rows == 0 then Failure(IndexOutOfBounds)
    else if p.cols == 0 then Failure(NotANumber)
    else Success(Total(AbsoluteErrors(p, e)) / (p.rows * p.cols) as real)
  }

  ghost function MaeGradient(p: Matrix, e: Matrix): Result<Matrix>
    requires p.Valid() && e.Valid()
  {
    if !SameShape(p, e) then Failure(DimensionMismatch)
    else if p.rows == 0 then Failure(IndexOutOfBounds)
    else if p.cols == 0 then Success(p)
    else Success(MaeSlopes(p, e))
  }

  ghost function Cost(f: CostFunction, p: Matrix, e: Matrix, ln: Positive -> real): Result<real>
    requires p.Valid() && e.Valid()
  {
    match f
    case Mse => MseCost(p, e)
    case CrossEntropy => CrossEntropyCost(p, e, ln)
    case Mae => MaeCost(p, e)
  }

  ghost function Gradient(f: CostFunction, p: Matrix, e: Matrix): Result<Matrix>
    requires p.Valid() && e.Valid()
  {
    match f
    case Mse => MseGradient(p, e)
    case CrossEntropy => CrossEntropyGradient(p, e)
    case Mae => MaeGradient(p, e)
  }

  // ---------------------------------------------------------------------
  // The enum's methods
  // ---------------------------------------------------------------------

  /** `calculate(predicted, expected)`. */
  method Calculate(f: CostFunction, predicted: Matrix, expected: Matrix, ln: Positive -> real) returns (r: Result<real>)
    requires predicted.Valid() && expected.Valid()
    ensures r == Cost(f, predicted, expected, ln)
    ensures !SameShape(predicted, expected) ==> r == Failure(DimensionMismatch)
  {
    match f
    case Mse => r := MseCalculate(predicted, expected);
    case CrossEntropy => r := CrossEntropyCalculate(predicted, expected, ln);
    case Mae => r := MaeCalculate(predicted, expected);
  }

  /** `derivative(predicted, expected)`. */
  method Derivative(f: CostFunction, predicted: Matrix, expected: Matrix) returns (r: Result<Matrix>)
    requires predicted.Valid() && expected.Valid()
    ensures r == Gradient(f, predicted, expected)
    ensures !SameShape(predicted, expected) ==> r == Failure(DimensionMismatch)
    ensures r.Success? ==> r.value.Valid() && SameShape(r.value, predicted)
  {
    match f
    case Mse => r := MseDerivative(predicted, expected);
    case CrossEntropy => r := CrossEntropyDerivative(predicted, expected);
    case Mae => r := MaeDerivative(predicted, expected);
  }

  /** MSE `calculate`: subtract, square element-wise, sum, divide by the entry count. */
  method MseCalculate(predicted: Matrix, expected: Matrix) returns (r: Result<real>)
    requires predicted.Valid() && expected.Valid()
    ensures r == MseCost(predicted, expected)
  {
    if predicted.rows != expected.rows || predicted.cols != expected.cols {
      return Failure(DimensionMismatch);
    }
    var difference := Subtract(predicted, expected);
    var squared := ElementWiseMultiply(difference.value, difference.value);
    var total := Sum(squared.value);
    if predicted.rows * predicted.cols == 0 {
      return Failure(NotANumber);
    }
    r := Success(total / (predicted.rows * predicted.cols) as real);
  }

  /** MSE `derivative`: the difference, scaled by (2 / rows) * cols. */
  method MseDerivative(predicted: Matrix, expected: Matrix) returns (r: Result<Matrix>)
    requires predicted.Valid() && expected.Valid()
    ensures r == MseGradient(predicted, expected)
    ensures r.Success? ==> r.value.Valid() && SameShape(r.value, predicted)
  {
    if predicted.rows != expected.rows || predicted.cols != expected.cols {
      return Failure(DimensionMismatch);
    }
    var difference := Subtract(predicted, expected);
    var factor := MseFactor(predicted);
    var scaled := Scale(difference.value, factor);
    r := Success(scaled);
  }

  /** CROSS_ENTROPY `calculate`: copies both grids out with `toArray`, accumulates
      the clamped log terms, and divides minus the sum by the row count. */
  method CrossEntropyCalculate(predicted: Matrix, expected: Matrix, ln: Positive -> real) returns (r: Result<real>)
    requires predicted.Valid() && expected.Valid()
    ensures r == CrossEntropyCost(predicted, expected, ln)
  {
    if predicted.rows != expected.rows || predicted.cols != expected.cols {
      return Failure(DimensionMismatch);
    }
    var predictedData := ToArray(predicted);
    if predictedData.Failure? {
      return Failure(predictedData.error);
    }
    var expectedData := ToArray(expected);
    if expectedData.Failure? {
      return Failure(IndexOutOfBounds);
    }
    var cost := CrossEntropyLoop(predictedData.value, expectedData.value, predicted, expected, ln);
    r := Success(-cost / predicted.rows as real);
  }

  /** The double loop of CROSS_ENTROPY `calculate`, over the copied grids. */
  method CrossEntropyLoop(pd: array2<real>, ed: array2<real>, ghost predicted: Matrix, ghost expected: Matrix,
                          ln: Positive -> real) returns (cost: real)
    requires predicted.Valid() && expected.Valid() && SameShape(predicted, expected)
    requires Mirrors(pd, predicted) && Mirrors(ed, expected)
    ensures cost == Total(CrossEntropyTerms(predicted, expected, ln))
  {
    cost := 0.0;
    ghost var terms := CrossEntropyTerms(predicted, expected, ln);
    for row := 0 to pd.Length0
      invariant cost == PartialTotal(terms, row)
    {
      cost := CrossEntropyRow(pd, ed, predicted, expected, ln, row, cost);
    }
  }

  /** The inner loop of CROSS_ENTROPY `calculate`: the terms of one row added
      to the running cost, left to right. */
  method CrossEntropyRow(pd: array2<real>, ed: array2<real>, ghost predicted: Matrix, ghost expected: Matrix,
                         ln: Positive -> real, row: nat, cost0: real) returns (cost: real)
    requires predicted.Valid() && expected.Valid() && SameShape(predicted, expected)
    requires Mirrors(pd, predicted) && Mirrors(ed, expected) && row < pd.Length0
    ensures cost == cost0 + RowTotal(CrossEntropyTerms(predicted, expected, ln), row, predicted.cols)
  {
    cost := cost0;
    ghost var terms := CrossEntropyTerms(predicted, expected, ln);
    for col := 0 to pd.Length1
      invariant cost == cost0 + RowTotal(terms, row, col)
    {
      var p := pd[row, col];
      var y := ed[row, col];
      p := Clamp(p);
      cost := cost + (y * ln(p) + (1.0 - y) * ln(1.0 - p));
    }
  }

  /** CROSS_ENTROPY `derivative`: -(y / p) + (1 - y) / (1 - p) on the clamped p,
      written into a fresh grid and wrapped with `new Matrix(gradient)`. */
  method CrossEntropyDerivative(predicted: Matrix, expected: Matrix) returns (r: Result<Matrix>)
    requires predicted.Valid() && expected.Valid()
    ensures r == CrossEntropyGradient(predicted, expected)
    ensures r.Success? ==> r.value.Valid() && SameShape(r.value, predicted)
  {
    if predicted.rows != expected.rows || predicted.cols != expected.cols {
      return Failure(DimensionMismatch);
    }
    var gradient := new real[predicted.rows, predicted.cols]((_, _) => 0.0);
    var predictedData := ToArray(predicted);
    if predictedData.Failure? {
      return Failure(predictedData.error);
    }
    var expectedData := ToArray(expected);
    if expectedData.Failure? {
      return Failure(IndexOutOfBounds);
    }
    CrossEntropyFill(gradient, predictedData.value, expectedData.value, predicted, expected);
    r := OfArray(gradient);
    Extensionality(r.value, CrossEntropySlopes(predicted, expected));
  }

  /** The double loop of CROSS_ENTROPY `derivative`, over the copied grids. */
  method CrossEntropyFill(gradient: array2<real>, pd: array2<real>, ed: array2<real>,
                          ghost predicted: Matrix, ghost expected: Matrix)
    requires predicted.Valid() && expected.Valid() && SameShape(predicted, expected)
    requires Mirrors(pd, predicted) && Mirrors(ed, expected)
    requires gradient.Length0 == predicted.rows && gradient.Length1 == predicted.cols
    requires gradient != pd && gradient != ed
    modifies gradient
    ensures forall i, j :: 0 <= i < predicted.rows && 0 <= j < predicted.cols ==>
              gradient[i, j] == CrossEntropySlope(predicted.data[i][j], expected.data[i][j])
  {
    for row := 0 to gradient.Length0
      invariant forall i, j :: 0 <= i < row && 0 <= j < predicted.cols ==>
                  gradient[i, j] == CrossEntropySlope(predicted.data[i][j], expected.data[i][j])
    {
      for col := 0 to gradient.Length1
        invariant forall i, j :: 0 <= i < row && 0 <= j < predicted.cols ==>
                    gradient[i, j] == CrossEntropySlope(predicted.data[i][j], expected.data[i][j])
        invariant forall j :: 0 <= j < col ==>
                    gradient[row, j] == CrossEntropySlope(predicted.data[row][j], expected.data[row][j])
      {
        var p := pd[row, col];
        var y := ed[row, col];
        p := Clamp(p);
        gradient[row, col] := -(y / p) + ((1.0 - y) / (1.0 - p));
      }
    }
  }

  /** MAE `calculate`: copies both grids out with `toArray`, accumulates |p - e|,
      and divides by the entry count. */
  method MaeCalculate(predicted: Matrix, expected: Matrix) returns (r: Result<real>)
    requires predicted.Valid() && expected.Valid()
    ensures r == MaeCost(predicted, expected)
  {
    if predicted.rows != expected.rows || predicted.cols != expected.cols {
      return Failure(DimensionMismatch);
    }
    var predictedData := ToArray(predicted);
    if predictedData.Failure? {
      return Failure(predictedData.error);
    }
    var expectedData := ToArray(expected);
    if expectedData.Failure? {
      return Failure(IndexOutOfBounds);
    }
    var cost := MaeLoop(predictedData.value, expectedData.value, predicted, expected);
    if predicted.cols == 0 {
      // rows * cols is zero: the quotient is 0.0 / 0.
      return Failure(NotANumber);
    }
    r := Success(cost / (predicted.rows * predicted.cols) as real);
  }

  /** The double loop of MAE `calculate`, over the copied grids. */
  method MaeLoop(pd: array2<real>, ed: array2<real>, ghost predicted: Matrix, ghost expected: Matrix)
    returns (cost: real)
    requires predicted.Valid() && expected.Valid() && SameShape(predicted, expected)
    requires Mirrors(pd, predicted) && Mirrors(ed, expected)
    ensures cost == Total(AbsoluteErrors(predicted, expected))
  {
    cost := 0.0;
    ghost var terms := AbsoluteErrors(predicted, expected);
    for row := 0 to pd.Length0
      invariant cost == PartialTotal(terms, row)
    {
      for col := 0 to pd.Length1
        invariant cost == PartialTotal(terms, row) + RowTotal(terms, row, col)
      {
        cost := cost + Abs(pd[row, col] - ed[row, col]);
      }
    }
  }

  /** MAE `derivative`: factor * (difference > 0 ? 1 : -1) with factor 1 / (rows * cols),
      written into a fresh grid and wrapped with `new Matrix(gradient)`. */
  method MaeDerivative(predicted: Matrix, expected: Matrix) returns (r: Result<Matrix>)
    requires predicted.Valid() && expected.Valid()
    ensures r == MaeGradient(predicted, expected)
    ensures r.Success? ==> r.value.Valid() && SameShape(r.value, predicted)
  {
    if predicted.rows != expected.rows || predicted.cols != expected.cols {
      return Failure(DimensionMismatch);
    }
    var gradient := new real[predicted.rows, predicted.cols]((_, _) => 0.0);
    var predictedData := ToArray(predicted);
    if predictedData.Failure? {
      return Failure(predictedData.error);
    }
    var expectedData := ToArray(expected);
    if expectedData.Failure? {
      return Failure(IndexOutOfBounds);
    }
    if predicted.cols == 0 {
      // No column: the loops store nothing, and the (infinite) factor is never used.
      r := OfArray(gradient);
      Extensionality(r.value, predicted);
      return;
    }
    var factor := MaeFactor(predicted);
    MaeFill(gradient, predictedData.value, expectedData.value, predicted, expected, factor);
    r := OfArray(gradient);
    Extensionality(r.value, MaeSlopes(predicted, expected));
  }

  /** The double loop of MAE `derivative`, over the copied grids. */
  method MaeFill(gradient: array2<real>, pd: array2<real>, ed: array2<real>,
                 ghost predicted: Matrix, ghost expected: Matrix, factor: real)
    requires predicted.Valid() && expected.Valid() && SameShape(predicted, expected)
    requires Mirrors(pd, predicted) && Mirrors(ed, expected)
    requires gradient.Length0 == predicted.rows && gradient.Length1 == predicted.cols
    requires gradient != pd && gradient != ed
    modifies gradient
    ensures forall i, j :: 0 <= i < predicted.rows && 0 <= j < predicted.cols ==>
              gradient[i, j] == MaeSlope(predicted.data[i][j], expected.data[i][j], factor)
  {
    for row := 0 to gradient.Length0
      invariant forall i, j :: 0 <= i < row && 0 <= j < predicted.cols ==>
                  gradient[i, j] == MaeSlope(predicted.data[i][j], expected.data[i][j], factor)
    {
      for col := 0 to gradient.Length1
        invariant forall i, j :: 0 <= i < row && 0 <= j < predicted.cols ==>
                    gradient[i, j] == MaeSlope(predicted.data[i][j], expected.data[i][j], factor)
        invariant forall j :: 0 <= j < col ==>
                    gradient[row, j] == MaeSlope(predicted.data[row][j], expected.data[row][j], factor)
      {
        var difference := pd[row, col] - ed[row, col];
        gradient[row, col] := factor * (if difference > 0.0 then 1.0 else -1.0);
      }
    }
  }

  // ---------------------------------------------------------------------
  // Properties
  // ---------------------------------------------------------------------

  lemma {:induction false} RowTotalNonNegative(a: Matrix, i: nat, k: nat)
    requires a.Valid() && i < a.rows && k <= a.cols
    requires forall j :: 0 <= j < a.cols ==> a.data[i][j] >= 0.0
    ensures RowTotal(a, i, k) >= 0.0
  {
    if k > 0 {
      RowTotalNonNegative(a, i, k - 1);
    }
  }

  lemma {:induction false} PartialTotalNonNegative(a: Matrix, r: nat)
    requires a.Valid() && r <= a.rows
    requires forall i, j :: 0 <= i < a.rows && 0 <= j < a.cols ==> a.data[i][j] >= 0.0
    ensures PartialTotal(a, r) >= 0.0
  {
    if r > 0 {
      PartialTotalNonNegative(a, r - 1);
      RowTotalNonNegative(a, r - 1, a.cols);
    }
  }

  /** Every cost function rejects predictions and expectations of different shapes. */
  lemma ShapeGuard(f: CostFunction, p: Matrix, e: Matrix, ln: Positive -> real)
    requires p.Valid() && e.Valid() && !SameShape(p, e)
    ensures Cost(f, p, e, ln) == Failure(DimensionMismatch)
    ensures Gradient(f, p, e) == Failure(DimensionMismatch)
  {
  }

  /** The MSE cost is never negative. */
  lemma MseNonNegative(p: Matrix, e: Matrix)
    requires p.Valid() && e.Valid() && MseCost(p, e).Success?
    ensures MseCost(p, e).value >= 0.0
  {
    var d := Minus(p, e);
    PartialTotalNonNegative(Hadamard(d, d), p.rows);
  }

  /** The MAE cost is never negative. */
  lemma MaeNonNegative(p: Matrix, e: Matrix)
    requires p.Valid() && e.Valid() && MaeCost(p, e).Success?
    ensures MaeCost(p, e).value >= 0.0
  {
    PartialTotalNonNegative(AbsoluteErrors(p, e), p.rows);
  }

  /** Every MAE gradient entry is +1/N or -1/N (N = rows * cols), and it is
      positive exactly when p - e is; a zero difference gives -1/N. */
  lemma MaeGradientSigns(p: Matrix, e: Matrix, i: nat, j: nat)
    requires p.Valid() && e.Valid() && SameShape(p, e) && i < p.rows && j < p.cols
    ensures MaeGradient(p, e).Success?
    ensures var g := MaeGradient(p, e).value.data[i][j]; var n := (p.rows * p.cols) as real;
              n > 0.0 && (g == 1.0 / n || g == -1.0 / n) && (g > 0.0 <==> p.data[i][j] - e.data[i][j] > 0.0)
  {
    assert p.rows * p.cols > 0 by {
      assert p.rows * p.cols >= p.rows;
    }
  }

  /** Every CROSS_ENTROPY gradient entry is -(y/q) + (1-y)/(1-q) for the clamped q,
      and q and 1 - q are both at least 1e-9. */
  lemma CrossEntropyGradientEntries(p: Matrix, e: Matrix, i: nat, j: nat)
    requires p.Valid() && e.Valid() && SameShape(p, e) && 0 < p.rows && i < p.rows && j < p.cols
    ensures CrossEntropyGradient(p, e).Success?
    ensures var q := Clamp(p.data[i][j]); var y := e.data[i][j];
              Epsilon <= q && Epsilon <= 1.0 - q &&
              CrossEntropyGradient(p, e).value.data[i][j] == -(y / q) + (1.0 - y) / (1.0 - q)
  {
  }
}
