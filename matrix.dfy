/** `Matrix`: a dense rows x cols grid of reals.  The Java class keeps its
    grid private and copies it on the way in and on the way out, so a matrix
    is modelled as a value.  Each operation allocates a fresh buffer (the
    `double[rows][cols]` of `new Matrix(rows, cols)`), fills it in nested
    loops exactly as the Java code does, and freezes it into a value. */
module Matrices {
  import opened Outcomes
  import opened Activations

  datatype Matrix = Matrix(rows: nat, cols: nat, data: seq<seq<real>>)
  {
    /** The grid is rectangular: `rows` rows of `cols` entries each. */
    ghost predicate Valid()
    {
      |data| == rows && forall i :: 0 <= i < rows ==> |data[i]| == cols
    }
  }

  ghost predicate SameShape(a: Matrix, b: Matrix)
  {
    a.rows == b.rows && a.cols == b.cols
  }

  /** The contents of a buffer, frozen into a matrix value. */
  function Snapshot(buf: array2<real>): (m: Matrix)
    reads buf
    ensures m.Valid() && m.rows == buf.Length0 && m.cols == buf.Length1
    ensures forall i, j :: 0 <= i < buf.Length0 && 0 <= j < buf.Length1 ==> m.data[i][j] == buf[i, j]
  {
    Matrix(buf.Length0, buf.Length1,
      seq(buf.Length0, i requires 0 <= i < buf.Length0 reads buf =>
        seq(buf.Length1, j requires 0 <= j < buf.Length1 reads buf => buf[i, j])))
  }

  /** The buffer holds exactly the entries of m. */
  ghost predicate Mirrors(buf: array2<real>, m: Matrix)
    reads buf
  {
    m.Valid() && buf.Length0 == m.rows && buf.Length1 == m.cols &&
    forall i, j :: 0 <= i < m.rows && 0 <= j < m.cols ==> buf[i, j] == m.data[i][j]
  }

  /** Two rectangular matrices of one shape with the same entries are the same value. */
  lemma Extensionality(m: Matrix, n: Matrix)
    requires m.Valid() && n.Valid() && SameShape(m, n)
    requires forall i, j :: 0 <= i < m.rows && 0 <= j < m.cols ==> m.data[i][j] == n.data[i][j]
    ensures m == n
  {
    assert forall i :: 0 <= i < m.rows ==> m.data[i] == n.data[i];
  }

  // ---------------------------------------------------------------------
  // Specification functions: what each operation computes.
  // ---------------------------------------------------------------------

  ghost function Zero(rows: nat, cols: nat): (m: Matrix)
    ensures m.Valid() && m.rows == rows && m.cols == cols
  {
    Matrix(rows, cols, seq(rows, _ => seq(cols, _ => 0.0)))
  }

  ghost function Plus(a: Matrix, b: Matrix): (m: Matrix)
    requires a.Valid() && b.Valid() && SameShape(a, b)
    ensures m.Valid() && SameShape(m, a)
  {
    Matrix(a.rows, a.cols,
      seq(a.rows, i requires 0 <= i < a.rows =>
        seq(a.cols, j requires 0 <= j < a.cols => a.data[i][j] + b.data[i][j])))
  }

  ghost function Minus(a: Matrix, b: Matrix): (m: Matrix)
    requires a.Valid() && b.Valid() && SameShape(a, b)
    ensures m.Valid() && SameShape(m, a)
  {
    Matrix(a.rows, a.cols,
      seq(a.rows, i requires 0 <= i < a.rows =>
        seq(a.cols, j requires 0 <= j < a.cols => a.data[i][j] - b.data[i][j])))
  }

  ghost function Hadamard(a: Matrix, b: Matrix): (m: Matrix)
    requires a.Valid() && b.Valid() && SameShape(a, b)
    ensures m.Valid() && SameShape(m, a)
  {
    Matrix(a.rows, a.cols,
      seq(a.rows, i requires 0 <= i < a.rows =>
        seq(a.cols, j requires 0 <= j < a.cols => a.data[i][j] * b.data[i][j])))
  }

  ghost function Times(a: Matrix, k: real): (m: Matrix)
    requires a.Valid()
    ensures m.Valid() && SameShape(m, a)
  {
    Matrix(a.rows, a.cols,
      seq(a.rows, i requires 0 <= i < a.rows =>
        seq(a.cols, j requires 0 <= j < a.cols => a.data[i][j] * k)))
  }

  ghost function Transposed(a: Matrix): (m: Matrix)
    requires a.Valid()
    ensures m.Valid() && m.rows == a.cols && m.cols == a.rows
  {
    Matrix(a.cols, a.rows,
      seq(a.cols, i requires 0 <= i < a.cols =>
        seq(a.rows, j requires 0 <= j < a.rows => a.data[j][i])))
  }

  /** The k-term prefix of row i of a times column j of b. */
  ghost function Dot(a: Matrix, b: Matrix, i: nat, j: nat, k: nat): real
    requires a.Valid() && b.Valid() && i < a.rows && j < b.cols && k <= a.cols && a.cols == b.rows
  {
    if k == 0 then 0.0 else Dot(a, b, i, j, k - 1) + a.data[i][k - 1] * b.data[k - 1][j]
  }

  ghost function Product(a: Matrix, b: Matrix): (m: Matrix)
    requires a.Valid() && b.Valid() && a.cols == b.rows
    ensures m.Valid() && m.rows == a.rows && m.cols == b.cols
  {
    Matrix(a.rows, b.cols,
      seq(a.rows, i requires 0 <= i < a.rows =>
        seq(b.cols, j requires 0 <= j < b.cols => Dot(a, b, i, j, a.cols))))
  }

  /** The first k entries of row i, added left to right. */
  ghost function RowTotal(a: Matrix, i: nat, k: nat): real
    requires a.Valid() && i < a.rows && k <= a.cols
  {
    if k == 0 then 0.0 else RowTotal(a, i, k - 1) + a.data[i][k - 1]
  }

  /** The first r rows, added row by row. */
  ghost function PartialTotal(a: Matrix, r: nat): real
    requires a.Valid() && r <= a.rows
  {
    if r == 0 then 0.0 else PartialTotal(a, r - 1) + RowTotal(a, r - 1, a.cols)
  }

  /** All entries, added row by row, left to right. */
  ghost function Total(a: Matrix): real
    requires a.Valid()
  {
    PartialTotal(a, a.rows)
  }

  /** The element-wise `apply` of `f`; it fails as soon as one entry does. */
  ghost function Activated(a: Matrix, f: ActivationFunction, exp: real -> Positive): (r: Result<Matrix>)
    requires a.Valid()
    ensures r.Success? ==> r.value.Valid() && SameShape(r.value, a)
  {
    if f == Softmax && a.rows > 0 && a.cols > 0 then Failure(UnsupportedOperation)
    else Success(Matrix(a.rows, a.cols,
      seq(a.rows, i requires 0 <= i < a.rows =>
        seq(a.cols, j requires 0 <= j < a.cols => Apply(f, a.data[i][j], exp).value))))
  }

  /** The element-wise `derivative` of `f`; it fails as soon as one entry does. */
  ghost function Derived(a: Matrix, f: ActivationFunction, exp: real -> Positive): (r: Result<Matrix>)
    requires a.Valid()
    ensures r.Success? ==> r.value.Valid() && SameShape(r.value, a)
  {
    if f == Softmax && a.rows > 0 && a.cols > 0 then Failure(UnsupportedOperation)
    else Success(Matrix(a.rows, a.cols,
      seq(a.rows, i requires 0 <= i < a.rows =>
        seq(a.cols, j requires 0 <= j < a.cols => Derivative(f, a.data[i][j], exp).value))))
  }

  /** The entries of a grid in row-major order. */
  ghost function RowMajor(g: seq<seq<real>>): seq<real>
  {
    if |g| == 0 then [] else RowMajor(g[..|g| - 1]) + g[|g| - 1]
  }

  lemma {:induction false} RowMajorLength(g: seq<seq<real>>, cols: nat)
    requires forall i :: 0 <= i < |g| ==> |g[i]| == cols
    ensures |RowMajor(g)| == |g| * cols
  {
    if |g| > 0 {
      RowMajorLength(g[..|g| - 1], cols);
    }
  }

  lemma RowsBound(r: nat, rows: nat, cols: nat)
    requires r <= rows
    ensures r * cols <= rows * cols
  {
  }

  lemma NextRow(row: nat, cols: nat)
    ensures (row + 1) * cols == row * cols + cols
  {
  }

  /** Row i, column j of the grid sits at position i * cols + j of its row-major order. */
  lemma {:induction false} RowMajorAt(g: seq<seq<real>>, cols: nat, i: nat, j: nat)
    requires forall r :: 0 <= r < |g| ==> |g[r]| == cols
    requires i < |g| && j < cols
    ensures i * cols + j < |RowMajor(g)| && RowMajor(g)[i * cols + j] == g[i][j]
  {
    var n := |g| - 1;
    var prefix := RowMajor(g[..n]);
    assert RowMajor(g) == prefix + g[n];
    RowMajorLength(g[..n], cols);
    if i < n {
      RowMajorAt(g[..n], cols, i, j);
      assert g[..n][i] == g[i];
    } else {
      assert i * cols == |prefix|;
    }
  }

  // ---------------------------------------------------------------------
  // Construction and copying
  // ---------------------------------------------------------------------

  /** `new Matrix(rows, cols)`: Java zero-initialises the new grid. */
  method New(rows: nat, cols: nat) returns (m: Matrix)
    ensures m.Valid() && m.rows == rows && m.cols == cols
    ensures forall i, j :: 0 <= i < rows && 0 <= j < cols ==> m.data[i][j] == 0.0
    ensures m == Zero(rows, cols)
  {
    var data := new real[rows, cols]((_, _) => 0.0);
    m := Snapshot(data);
    Extensionality(m, Zero(rows, cols));
  }

  /** `Matrix.copy(source)`: a fresh grid with the same entries, filled row by row.
      `source[0].length` throws when there is no row. */
  method CopyArray(source: array2<real>) returns (r: Result<array2<real>>)
    ensures r.Failure? <==> source.Length0 == 0
    ensures r.Failure? ==> r.error == IndexOutOfBounds
    ensures r.Success? ==> fresh(r.value) && Snapshot(r.value) == Snapshot(source)
  {
    if source.Length0 == 0 {
      return Failure(IndexOutOfBounds);
    }
    var copy := new real[source.Length0, source.Length1]((_, _) => 0.0);
    for row := 0 to source.Length0
      invariant forall i, j :: 0 <= i < row && 0 <= j < source.Length1 ==> copy[i, j] == source[i, j]
    {
      for col := 0 to source.Length1
        invariant forall i, j :: 0 <= i < row && 0 <= j < source.Length1 ==> copy[i, j] == source[i, j]
        invariant forall j :: 0 <= j < col ==> copy[row, j] == source[row, j]
      {
        copy[row, col] := source[row, col];
      }
    }
    Extensionality(Snapshot(copy), Snapshot(source));
    r := Success(copy);
  }

  /** `new Matrix(double[][] data)`: shape from the array, contents copied.  The
      result is a value, so later writes to `source` cannot reach it. */
  method OfArray(source: array2<real>) returns (r: Result<Matrix>)
    ensures r.Failure? <==> source.Length0 == 0
    ensures r.Failure? ==> r.error == IndexOutOfBounds
    ensures r.Success? ==> r.value == Snapshot(source)
  {
    var copy := CopyArray(source);
    if copy.Failure? {
      return Failure(copy.error);
    }
    r := Success(Snapshot(copy.value));
  }

  /** `toArray()`: a fresh copy of the grid, which the caller may change freely.
      Like `Matrix.copy`, it throws on a matrix without rows. */
  method ToArray(m: Matrix) returns (r: Result<array2<real>>)
    requires m.Valid()
    ensures r.Failure? <==> m.rows == 0
    ensures r.Failure? ==> r.error == IndexOutOfBounds
    ensures r.Success? ==> fresh(r.value) && Snapshot(r.value) == m
    ensures r.Success? ==> Mirrors(r.value, m)
  {
    if m.rows == 0 {
      return Failure(IndexOutOfBounds);
    }
    var copy := new real[m.rows, m.cols]((_, _) => 0.0);
    for row := 0 to m.rows
      invariant forall i, j :: 0 <= i < row && 0 <= j < m.cols ==> copy[i, j] == m.data[i][j]
    {
      for col := 0 to m.cols
        invariant forall i, j :: 0 <= i < row && 0 <= j < m.cols ==> copy[i, j] == m.data[i][j]
        invariant forall j :: 0 <= j < col ==> copy[row, j] == m.data[row][j]
      {
        copy[row, col] := m.data[row][col];
      }
    }
    Extensionality(Snapshot(copy), m);
    r := Success(copy);
  }

  /** `new Matrix(Matrix other)`: the same shape and entries, copied through `Matrix.copy`. */
  method CopyOf(other: Matrix) returns (r: Result<Matrix>)
    requires other.Valid()
    ensures r.Failure? <==> other.rows == 0
    ensures r.Failure? ==> r.error == IndexOutOfBounds
    ensures r.Success? ==> r.value == other
  {
    var copy := ToArray(other);
    if copy.Failure? {
      return Failure(copy.error);
    }
    r := Success(Snapshot(copy.value));
  }

  /** `Matrix.randomized(rows, cols)`.  `Math.random()` is replaced by an oracle:
      `draws[i][j]` is the value it returns for entry (i, j); each lies in [0, 1). */
  method Randomized(rows: nat, cols: nat, draws: seq<seq<real>>) returns (m: Matrix)
    requires |draws| == rows && forall i :: 0 <= i < rows ==> |draws[i]| == cols
    requires forall i, j :: 0 <= i < rows && 0 <= j < cols ==> 0.0 <= draws[i][j] < 1.0
    ensures m.Valid() && m.rows == rows && m.cols == cols
    ensures forall i, j :: 0 <= i < rows && 0 <= j < cols ==> m.data[i][j] == draws[i][j] * 2.0 - 1.0
    ensures forall i, j :: 0 <= i < rows && 0 <= j < cols ==> -1.0 <= m.data[i][j] < 1.0
  {
    var data := new real[rows, cols]((_, _) => 0.0);
    for row := 0 to rows
      invariant forall i, j :: 0 <= i < row && 0 <= j < cols ==> data[i, j] == draws[i][j] * 2.0 - 1.0
    {
      for col := 0 to cols
        invariant forall i, j :: 0 <= i < row && 0 <= j < cols ==> data[i, j] == draws[i][j] * 2.0 - 1.0
        invariant forall j :: 0 <= j < col ==> data[row, j] == draws[row][j] * 2.0 - 1.0
      {
        data[row, col] := draws[row][col] * 2.0 - 1.0;
      }
    }
    m := Snapshot(data);
  }

  // ---------------------------------------------------------------------
  // Arithmetic (Matrix.java) and the element-wise helpers its callers use
  // ---------------------------------------------------------------------

  /** `add`: shape check, then the entry-wise sum. */
  method Add(a: Matrix, b: Matrix) returns (r: Result<Matrix>)
    requires a.Valid() && b.Valid()
    ensures r.Failure? <==> !SameShape(a, b)
    ensures r.Failure? ==> r.error == DimensionMismatch
    ensures r.Success? ==> r.value == Plus(a, b)
    ensures r.Success? ==> forall i, j :: 0 <= i < a.rows && 0 <= j < a.cols ==>
              r.value.data[i][j] == a.data[i][j] + b.data[i][j]
  {
    if a.rows != b.rows || a.cols != b.cols {
      return Failure(DimensionMismatch);
    }
    var result := new real[a.rows, a.cols]((_, _) => 0.0);
    for row := 0 to a.rows
      invariant forall i, j :: 0 <= i < row && 0 <= j < a.cols ==> result[i, j] == a.data[i][j] + b.data[i][j]
    {
      for col := 0 to a.cols
        invariant forall i, j :: 0 <= i < row && 0 <= j < a.cols ==> result[i, j] == a.data[i][j] + b.data[i][j]
        invariant forall j :: 0 <= j < col ==> result[row, j] == a.data[row][j] + b.data[row][j]
      {
        result[row, col] := a.data[row][col] + b.data[row][col];
      }
    }
    Extensionality(Snapshot(result), Plus(a, b));
    r := Success(Snapshot(result));
  }

  /** `subtract` (called at FullyConnectedLayer.java:74 and CostFunction.java:10):
      shape check, then the entry-wise difference. */
  method Subtract(a: Matrix, b: Matrix) returns (r: Result<Matrix>)
    requires a.Valid() && b.Valid()
    ensures r.Failure? <==> !SameShape(a, b)
    ensures r.Failure? ==> r.error == DimensionMismatch
    ensures r.Success? ==> r.value == Minus(a, b)
    ensures r.Success? ==> forall i, j :: 0 <= i < a.rows && 0 <= j < a.cols ==>
              r.value.data[i][j] == a.data[i][j] - b.data[i][j]
  {
    if a.rows != b.rows || a.cols != b.cols {
      return Failure(DimensionMismatch);
    }
    var result := new real[a.rows, a.cols]((_, _) => 0.0);
    for row := 0 to a.rows
      invariant forall i, j :: 0 <= i < row && 0 <= j < a.cols ==> result[i, j] == a.data[i][j] - b.data[i][j]
    {
      for col := 0 to a.cols
        invariant forall i, j :: 0 <= i < row && 0 <= j < a.cols ==> result[i, j] == a.data[i][j] - b.data[i][j]
        invariant forall j :: 0 <= j < col ==> result[row, j] == a.data[row][j] - b.data[row][j]
      {
        result[row, col] := a.data[row][col] - b.data[row][col];
      }
    }
    Extensionality(Snapshot(result), Minus(a, b));
    r := Success(Snapshot(result));
  }

  /** `elementWiseMultiply` (called at FullyConnectedLayer.java:56 and CostFunction.java:11):
      shape check, then the entry-wise (Hadamard) product. */
  method ElementWiseMultiply(a: Matrix, b: Matrix) returns (r: Result<Matrix>)
    requires a.Valid() && b.Valid()
    ensures r.Failure? <==> !SameShape(a, b)
    ensures r.Failure? ==> r.error == DimensionMismatch
    ensures r.Success? ==> r.value == Hadamard(a, b)
    ensures r.Success? ==> forall i, j :: 0 <= i < a.rows && 0 <= j < a.cols ==>
              r.value.data[i][j] == a.data[i][j] * b.data[i][j]
  {
    if a.rows != b.rows || a.cols != b.cols {
      return Failure(DimensionMismatch);
    }
    var result := new real[a.rows, a.cols]((_, _) => 0.0);
    for row := 0 to a.rows
      invariant forall i, j :: 0 <= i < row && 0 <= j < a.cols ==> result[i, j] == a.data[i][j] * b.data[i][j]
    {
      for col := 0 to a.cols
        invariant forall i, j :: 0 <= i < row && 0 <= j < a.cols ==> result[i, j] == a.data[i][j] * b.data[i][j]
        invariant forall j :: 0 <= j < col ==> result[row, j] == a.data[row][j] * b.data[row][j]
      {
        result[row, col] := a.data[row][col] * b.data[row][col];
      }
    }
    Extensionality(Snapshot(result), Hadamard(a, b));
    r := Success(Snapshot(result));
  }

  /** `scale`: every entry times `scalar`; the shape is kept. */
  method Scale(a: Matrix, scalar: real) returns (m: Matrix)
    requires a.Valid()
    ensures m == Times(a, scalar)
    ensures m.Valid() && SameShape(m, a)
    ensures forall i, j :: 0 <= i < a.rows && 0 <= j < a.cols ==> m.data[i][j] == a.data[i][j] * scalar
  {
    var result := new real[a.rows, a.cols]((_, _) => 0.0);
    for row := 0 to a.rows
      invariant forall i, j :: 0 <= i < row && 0 <= j < a.cols ==> result[i, j] == a.data[i][j] * scalar
    {
      for col := 0 to a.cols
        invariant forall i, j :: 0 <= i < row && 0 <= j < a.cols ==> result[i, j] == a.data[i][j] * scalar
        invariant forall j :: 0 <= j < col ==> result[row, j] == a.data[row][j] * scalar
      {
        result[row, col] := a.data[row][col] * scalar;
      }
    }
    m := Snapshot(result);
    Extensionality(m, Times(a, scalar));
  }

  /** `multiply`: requires this.cols == other.rows; entry (i, j) is the running sum
      of a[i][k] * b[k][j] over k, accumulated in increasing k. */
  method Multiply(a: Matrix, b: Matrix) returns (r: Result<Matrix>)
    requires a.Valid() && b.Valid()
    ensures r.Failure? <==> a.cols != b.rows
    ensures r.Failure? ==> r.error == DimensionMismatch
    ensures r.Success? ==> r.value == Product(a, b)
    ensures r.Success? ==> (r.value.rows == a.rows && r.value.cols == b.cols &&
              forall i, j :: 0 <= i < a.rows && 0 <= j < b.cols ==> r.value.data[i][j] == Dot(a, b, i, j, a.cols))
  {
    if a.cols != b.rows {
      return Failure(DimensionMismatch);
    }
    var result := new real[a.rows, b.cols]((_, _) => 0.0);
    for row := 0 to a.rows
      invariant forall i, j :: 0 <= i < row && 0 <= j < b.cols ==> result[i, j] == Dot(a, b, i, j, a.cols)
    {
      for col := 0 to b.cols
        invariant forall i, j :: 0 <= i < row && 0 <= j < b.cols ==> result[i, j] == Dot(a, b, i, j, a.cols)
        invariant forall j :: 0 <= j < col ==> result[row, j] == Dot(a, b, row, j, a.cols)
      {
        var sum := 0.0;
        for k := 0 to a.cols
          invariant sum == Dot(a, b, row, col, k)
        {
          sum := sum + a.data[row][k] * b.data[k][col];
        }
        result[row, col] := sum;
      }
    }
    Extensionality(Snapshot(result), Product(a, b));
    r := Success(Snapshot(result));
  }

  /** `transpose` (called at FullyConnectedLayer.java:59 and 69): entry (i, j) is a[j][i]. */
  method Transpose(a: Matrix) returns (m: Matrix)
    requires a.Valid()
    ensures m == Transposed(a)
    ensures m.Valid() && m.rows == a.cols && m.cols == a.rows
    ensures forall i, j :: 0 <= i < a.cols && 0 <= j < a.rows ==> m.data[i][j] == a.data[j][i]
  {
    var result := new real[a.cols, a.rows]((_, _) => 0.0);
    for row := 0 to a.cols
      invariant forall i, j :: 0 <= i < row && 0 <= j < a.rows ==> result[i, j] == a.data[j][i]
    {
      for col := 0 to a.rows
        invariant forall i, j :: 0 <= i < row && 0 <= j < a.rows ==> result[i, j] == a.data[j][i]
        invariant forall j :: 0 <= j < col ==> result[row, j] == a.data[j][row]
      {
        result[row, col] := a.data[col][row];
      }
    }
    m := Snapshot(result);
    Extensionality(m, Transposed(a));
  }

  /** `sum` (called at CostFunction.java:13): all entries, added row by row, left to right. */
  method Sum(a: Matrix) returns (s: real)
    requires a.Valid()
    ensures s == Total(a)
  {
    s := 0.0;
    for row := 0 to a.rows
      invariant s == PartialTotal(a, row)
    {
      for col := 0 to a.cols
        invariant s == PartialTotal(a, row) + RowTotal(a, row, col)
      {
        s := s + a.data[row][col];
      }
    }
  }

  /** `flatten`: a (rows * cols) x 1 column holding the entries in row-major order. */
  method Flatten(a: Matrix) returns (m: Matrix)
    requires a.Valid()
    ensures m.Valid() && m.rows == a.rows * a.cols && m.cols == 1
    ensures |RowMajor(a.data)| == m.rows
    ensures forall k :: 0 <= k < m.rows ==> m.data[k][0] == RowMajor(a.data)[k]
  {
    ghost var flat := RowMajor(a.data);
    RowMajorLength(a.data, a.cols);
    var result := new real[a.rows * a.cols, 1]((_, _) => 0.0);
    var index := 0;
    for row := 0 to a.rows
      invariant index == row * a.cols && index <= result.Length0
      invariant forall k :: 0 <= k < index ==> result[k, 0] == flat[k]
    {
      for col := 0 to a.cols
        invariant index == row * a.cols + col && index <= result.Length0
        invariant forall k :: 0 <= k < index ==> result[k, 0] == flat[k]
      {
        assert index < result.Length0 && flat[index] == a.data[row][col] by {
          RowMajorAt(a.data, a.cols, row, col);
        }
        result[index, 0] := a.data[row][col];
        index := index + 1;
      }
      assert index == (row + 1) * a.cols by {
        NextRow(row, a.cols);
      }
      assert row + 1 <= a.rows;
      assert index <= result.Length0 by { RowsBound(row + 1, a.rows, a.cols); }
    }
    m := Snapshot(result);
  }

  /** `activate(fn)` (called at FullyConnectedLayer.java:45): `fn.apply` on every entry,
      row by row; the first entry that throws ends the operation. */
  method Activate(a: Matrix, f: ActivationFunction, exp: real -> Positive) returns (r: Result<Matrix>)
    requires a.Valid()
    ensures r == Activated(a, f, exp)
    ensures r.Failure? <==> f == Softmax && a.rows > 0 && a.cols > 0
  {
    var result := new real[a.rows, a.cols]((_, _) => 0.0);
    for row := 0 to a.rows
      invariant forall i, j :: 0 <= i < row && 0 <= j < a.cols ==>
                  Apply(f, a.data[i][j], exp).Success? && result[i, j] == Apply(f, a.data[i][j], exp).value
    {
      for col := 0 to a.cols
        invariant forall i, j :: 0 <= i < row && 0 <= j < a.cols ==>
                    Apply(f, a.data[i][j], exp).Success? && result[i, j] == Apply(f, a.data[i][j], exp).value
        invariant forall j :: 0 <= j < col ==>
                    Apply(f, a.data[row][j], exp).Success? && result[row, j] == Apply(f, a.data[row][j], exp).value
      {
        var v := Apply(f, a.data[row][col], exp);
        if v.Failure? {
          return Failure(v.error);
        }
        result[row, col] := v.value;
      }
    }
    assert a.rows > 0 && a.cols > 0 ==> Apply(f, a.data[0][0], exp).Success?;
    Extensionality(Snapshot(result), Activated(a, f, exp).value);
    r := Success(Snapshot(result));
  }

  /** `activationDerivative(fn)` (called at FullyConnectedLayer.java:53): `fn.derivative`
      on every entry, row by row; the first entry that throws ends the operation. */
  method ActivationDerivative(a: Matrix, f: ActivationFunction, exp: real -> Positive) returns (r: Result<Matrix>)
    requires a.Valid()
    ensures r == Derived(a, f, exp)
    ensures r.Failure? <==> f == Softmax && a.rows > 0 && a.cols > 0
  {
    var result := new real[a.rows, a.cols]((_, _) => 0.0);
    for row := 0 to a.rows
      invariant forall i, j :: 0 <= i < row && 0 <= j < a.cols ==>
                  Derivative(f, a.data[i][j], exp).Success? && result[i, j] == Derivative(f, a.data[i][j], exp).value
    {
      for col := 0 to a.cols
        invariant forall i, j :: 0 <= i < row && 0 <= j < a.cols ==>
                    Derivative(f, a.data[i][j], exp).Success? && result[i, j] == Derivative(f, a.data[i][j], exp).value
        invariant forall j :: 0 <= j < col ==>
                    Derivative(f, a.data[row][j], exp).Success? && result[row, j] == Derivative(f, a.data[row][j], exp).value
      {
        var v := Derivative(f, a.data[row][col], exp);
        if v.Failure? {
          return Failure(v.error);
        }
        result[row, col] := v.value;
      }
    }
    assert a.rows > 0 && a.cols > 0 ==> Derivative(f, a.data[0][0], exp).Success?;
    Extensionality(Snapshot(result), Derived(a, f, exp).value);
    r := Success(Snapshot(result));
  }

  // ---------------------------------------------------------------------
  // Algebraic facts about the specification
  // ---------------------------------------------------------------------

  /** (A + B) - B == A. */
  lemma PlusMinusCancel(a: Matrix, b: Matrix)
    requires a.Valid() && b.Valid() && SameShape(a, b)
    ensures Minus(Plus(a, b), b) == a
  {
    Extensionality(Minus(Plus(a, b), b), a);
  }

  /** Transposing twice gives the matrix back. */
  lemma TransposeInvolution(a: Matrix)
    requires a.Valid()
    ensures Transposed(Transposed(a)) == a
  {
    Extensionality(Transposed(Transposed(a)), a);
  }

  /** Subtracting a scaled zero matrix changes nothing. */
  lemma MinusScaledZero(a: Matrix, k: real)
    requires a.Valid()
    ensures Minus(a, Times(Zero(a.rows, a.cols), k)) == a
  {
    Extensionality(Minus(a, Times(Zero(a.rows, a.cols), k)), a);
  }

  /** Adding onto a zero matrix gives the addend. */
  lemma ZeroPlus(a: Matrix)
    requires a.Valid()
    ensures Plus(Zero(a.rows, a.cols), a) == a
  {
    Extensionality(Plus(Zero(a.rows, a.cols), a), a);
  }
}
