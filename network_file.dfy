/** Saving and loading a network.  The file is modelled as the sequence of
    values `DataOutputStream` writes and `DataInputStream` reads (ints,
    booleans, doubles), not as bytes.  The layout is: magic 0x434E4E, layer
    count, cost-function ordinal, augmentation flag; then per layer its type
    ordinal and, for a fully connected layer, inputs, outputs, activation
    ordinal, the weights row by row and the biases. */
module NetworkFiles {
  import opened Outcomes
  import opened Matrices
  import Activations
  import Costs

  /** One value of the stream. */
  datatype Token = IntTok(i: int) | BoolTok(b: bool) | DoubleTok(d: real)

  /** "CNN" in ASCII. */
  const MagicNumber: int := 0x434E4E
  /** The ordinal of `FULLY_CONNECTED` among the layer types. */
  const FullyConnectedType: int := 0

  /** What the handler sees of a layer: a fully connected layer's accessors
      (inputs, outputs, activation, weights, biases), or a layer of another
      type, of which only the type ordinal is saved. */
  datatype LayerRecord =
    | FullyConnected(numInputs: int, numOutputs: int, activation: Activations.ActivationFunction,
                     weights: Matrix, biases: Matrix)
    | OtherLayer(typeOrdinal: int)

  /** What the handler sees of a network. */
  datatype Network = Network(layers: seq<LayerRecord>, cost: Costs.CostFunction, allowAugmenting: bool)

  // ---------------------------------------------------------------------
  // Writing
  // ---------------------------------------------------------------------

  function Doubles(xs: seq<real>): (t: seq<Token>)
    ensures |t| == |xs|
  {
    seq(|xs|, k requires 0 <= k < |xs| => DoubleTok(xs[k]))
  }

  lemma DoublesAppend(a: seq<real>, b: seq<real>)
    ensures Doubles(a + b) == Doubles(a) + Doubles(b)
  {
  }

  /** The values a matrix contributes: `toArray` (which fails on a matrix
      with no row), then every entry row by row. */
  ghost function MatrixTokens(m: Matrix): Result<seq<Token>>
  {
    if m.rows == 0 then Failure(IndexOutOfBounds) else Success(Doubles(RowMajor(m.data)))
  }

  /** What `writeFCLayer` appends. */
  ghost function FcPayload(l: LayerRecord): Result<seq<Token>>
    requires l.FullyConnected?
  {
    var w := MatrixTokens(l.weights);
    var b := MatrixTokens(l.biases);
    if w.Failure? then Failure(w.error)
    else if b.Failure? then Failure(b.error)
    else Success([IntTok(l.numInputs), IntTok(l.numOutputs), IntTok(Activations.Ordinal(l.activation))] + w.value + b.value)
  }

  /** What one iteration of the layer loop of `saveNetwork` appends: the type
      ordinal, then the payload of a fully connected layer. */
  ghost function LayerTokens(l: LayerRecord): Result<seq<Token>>
  {
    match l
    case OtherLayer(t) => Success([IntTok(t)])
    case FullyConnected(_, _, _, _, _) =>
      var p := FcPayload(l);
      if p.Failure? then Failure(p.error) else Success([IntTok(FullyConnectedType)] + p.value)
  }

  ghost function LayersTokens(ls: seq<LayerRecord>): Result<seq<Token>>
  {
    if |ls| == 0 then Success([])
    else
      var head := LayerTokens(ls[0]);
      var rest := LayersTokens(ls[1..]);
      if head.Failure? then Failure(head.error)
      else if rest.Failure? then Failure(rest.error)
      else Success(head.value + rest.value)
  }

  function Header(n: Network): seq<Token>
  {
    [IntTok(MagicNumber), IntTok(|n.layers|), IntTok(Costs.Ordinal(n.cost)), BoolTok(n.allowAugmenting)]
  }

  /** Everything `saveNetwork` writes, or the exception it ends with. */
  ghost function Encoded(n: Network): Result<seq<Token>>
  {
    var body := LayersTokens(n.layers);
    if body.Failure? then Failure(body.error) else Success(Header(n) + body.value)
  }

  /** `saveNetwork`: the header, then each layer in order. */
  method SaveNetwork(n: Network) returns (r: Result<seq<Token>>)
    requires forall l <- n.layers :: l.FullyConnected? ==> l.weights.Valid() && l.biases.Valid()
    ensures r == Encoded(n)
  {
    var out := Header(n);
    var i := 0;
    while i < |n.layers|
      invariant 0 <= i <= |n.layers|
      invariant LayersTokens(n.layers[..i]).Success?
      invariant out == Header(n) + LayersTokens(n.layers[..i]).value
    {
      var layer := n.layers[i];
      var written := WriteLayer(layer, out);
      if written.Failure? {
        LayersTokensFail(n.layers, i);
        return Failure(written.error);
      }
      assert n.layers[..i + 1] == n.layers[..i] + [layer];
      LayersTokensSnoc(n.layers[..i], layer);
      out := written.value;
      i := i + 1;
    }
    assert n.layers[..i] == n.layers;
    return Success(out);
  }

  /** One iteration of the layer loop of `saveNetwork`: the type ordinal,
      then `writeFCLayer` for a fully connected layer. */
  method WriteLayer(layer: LayerRecord, out: seq<Token>) returns (r: Result<seq<Token>>)
    requires layer.FullyConnected? ==> layer.weights.Valid() && layer.biases.Valid()
    ensures r.Failure? <==> LayerTokens(layer).Failure?
    ensures r.Failure? ==> r.error == LayerTokens(layer).error
    ensures r.Success? ==> r.value == out + LayerTokens(layer).value
  {
    match layer {
      case OtherLayer(t) =>
        return Success(out + [IntTok(t)]);
      case FullyConnected(_, _, _, _, _) =>
        r := WriteFCLayer(layer, out + [IntTok(FullyConnectedType)]);
    }
  }

  /** `writeFCLayer`: appends the payload of a fully connected layer to out. */
  method WriteFCLayer(l: LayerRecord, out: seq<Token>) returns (r: Result<seq<Token>>)
    requires l.FullyConnected? && l.weights.Valid() && l.biases.Valid()
    ensures r.Failure? <==> FcPayload(l).Failure?
    ensures r.Failure? ==> r.error == FcPayload(l).error
    ensures r.Success? ==> r.value == out + FcPayload(l).value
  {
    var written := out + [IntTok(l.numInputs), IntTok(l.numOutputs), IntTok(Activations.Ordinal(l.activation))];
    var afterWeights := WriteMatrix(l.weights, written);
    if afterWeights.Failure? {
      return Failure(afterWeights.error);
    }
    var afterBiases := WriteMatrix(l.biases, afterWeights.value);
    if afterBiases.Failure? {
      return Failure(afterBiases.error);
    }
    return Success(afterBiases.value);
  }

  /** The `for (double[] row : m.toArray()) for (double x : row) writeDouble(x)`
      loops of `writeFCLayer`. */
  method WriteMatrix(m: Matrix, out: seq<Token>) returns (r: Result<seq<Token>>)
    requires m.Valid()
    ensures r.Failure? <==> MatrixTokens(m).Failure?
    ensures r.Failure? ==> r.error == MatrixTokens(m).error
    ensures r.Success? ==> r.value == out + MatrixTokens(m).value
  {
    var copy := ToArray(m);
    if copy.Failure? {
      return Failure(copy.error);
    }
    var a := copy.value;
    var written := out;
    for row := 0 to a.Length0
      modifies {}
      invariant written == out + Doubles(RowMajor(m.data[..row]))
    {
      written := WriteRow(a, m, row, written);
      assert m.data[..row + 1][..row] == m.data[..row];
      DoublesAppend(RowMajor(m.data[..row]), m.data[row]);
    }
    assert m.data[..a.Length0] == m.data;
    return Success(written);
  }

  /** The inner loop of the weights and biases: `writeDouble(x)` for every x
      of one row, appended to out. */
  method WriteRow(a: array2<real>, ghost m: Matrix, row: nat, out: seq<Token>) returns (written: seq<Token>)
    requires m.Valid() && Mirrors(a, m) && row < a.Length0
    ensures written == out + Doubles(m.data[row])
  {
    written := out;
    for col := 0 to a.Length1
      invariant written == out + Doubles(m.data[row][..col])
    {
      DoublesAppend(m.data[row][..col], [a[row, col]]);
      assert m.data[row][..col + 1] == m.data[row][..col] + [a[row, col]];
      written := written + [DoubleTok(a[row, col])];
    }
    assert m.data[row][..a.Length1] == m.data[row];
  }

  // ---------------------------------------------------------------------
  // Reading
  // ---------------------------------------------------------------------

  /** `readInt`, `readBoolean` and `readDouble` at position pos: the end of
      the stream is an `EOFException`; a value of another kind stands for
      bytes that do not decode as the value expected. */
  function IntAt(tokens: seq<Token>, pos: nat): Result<int>
  {
    if pos >= |tokens| then Failure(EndOfStream)
    else if tokens[pos].IntTok? then Success(tokens[pos].i)
    else Failure(TokenMismatch)
  }

  function BoolAt(tokens: seq<Token>, pos: nat): Result<bool>
  {
    if pos >= |tokens| then Failure(EndOfStream)
    else if tokens[pos].BoolTok? then Success(tokens[pos].b)
    else Failure(TokenMismatch)
  }

  function DoubleAt(tokens: seq<Token>, pos: nat): Result<real>
  {
    if pos >= |tokens| then Failure(EndOfStream)
    else if tokens[pos].DoubleTok? then Success(tokens[pos].d)
    else Failure(TokenMismatch)
  }

  /** count doubles read one after another from position from: the first
      value that is no double stops the reading, and so does the end. */
  ghost function ReadDoubles(tokens: seq<Token>, from: nat, count: nat): (r: Result<seq<real>>)
    ensures r.Success? ==> |r.value| == count
  {
    if exists k :: from <= k < from + count && k < |tokens| && !tokens[k].DoubleTok? then Failure(TokenMismatch)
    else if count > 0 && from + count > |tokens| then Failure(EndOfStream)
    else Success(seq(count, k requires 0 <= k < count => tokens[from + k].d))
  }

  lemma CellIndex(i: nat, j: nat, rows: nat, cols: nat)
    requires i < rows && j < cols
    ensures i * cols + j < rows * cols
  {
    RowsBound(i + 1, rows, cols);
    NextRow(i, cols);
  }

  /** The rows x cols matrix whose entries, row by row, are xs. */
  ghost function Unflatten(xs: seq<real>, rows: nat, cols: nat): (m: Matrix)
    requires |xs| == rows * cols
    ensures m.Valid() && m.rows == rows && m.cols == cols
  {
    Matrix(rows, cols,
      seq(rows, i requires 0 <= i < rows =>
        seq(cols, j requires 0 <= j < cols => CellIndex(i, j, rows, cols); xs[i * cols + j])))
  }

  /** What `readFCLayer` reads from position pos, and the position after it.
      Negative sizes fail when the arrays are created, a layer without outputs
      when `new Matrix(weightData)` looks at its first row. */
  ghost function FcLayerAt(tokens: seq<Token>, pos: nat): Result<(LayerRecord, nat)>
  {
    var numInputs := IntAt(tokens, pos);
    var numOutputs := IntAt(tokens, pos + 1);
    var ordinal := IntAt(tokens, pos + 2);
    if numInputs.Failure? then Failure(numInputs.error)
    else if numOutputs.Failure? then Failure(numOutputs.error)
    else if ordinal.Failure? then Failure(ordinal.error)
    else
      var activation := Activations.FromOrdinal(ordinal.value);
      if activation.Failure? then Failure(activation.error)
      else if numOutputs.value < 0 || numInputs.value < 0 then Failure(NegativeArraySize)
      else
        var rows: nat := numOutputs.value;
        var cols: nat := numInputs.value;
        var weightStart := pos + 3;
        var weightData := ReadDoubles(tokens, weightStart, rows * cols);
        if weightData.Failure? then Failure(weightData.error)
        else if rows == 0 then Failure(IndexOutOfBounds)
        else
          var biasStart := weightStart + rows * cols;
          var biasData := ReadDoubles(tokens, biasStart, rows);
          if biasData.Failure? then Failure(biasData.error)
          else
            Success((FullyConnected(cols, rows, activation.value,
                                    Unflatten(weightData.value, rows, cols), Unflatten(biasData.value, rows, 1)),
                     biasStart + rows))
  }

  /** The layer loop of `loadNetwork` from position pos with remaining
      iterations to go: each reads a type ordinal (out of range fails in
      `values()`); only a fully connected layer is read and kept. */
  ghost function LayersAt(tokens: seq<Token>, pos: nat, remaining: int, typeCount: nat): Result<(seq<LayerRecord>, nat)>
    decreases if remaining > 0 then remaining else 0
  {
    if remaining <= 0 then Success(([], pos))
    else
      var tag := IntAt(tokens, pos);
      if tag.Failure? then Failure(tag.error)
      else if !(0 <= tag.value < typeCount) then Failure(IndexOutOfBounds)
      else if tag.value == FullyConnectedType then
        var layer := FcLayerAt(tokens, pos + 1);
        if layer.Failure? then Failure(layer.error)
        else
          var rest := LayersAt(tokens, layer.value.1, remaining - 1, typeCount);
          if rest.Failure? then Failure(rest.error)
          else Success(([layer.value.0] + rest.value.0, rest.value.1))
      else LayersAt(tokens, pos + 1, remaining - 1, typeCount)
  }

  /** What `loadNetwork` returns for a stream, with typeCount layer types. */
  ghost function Decoded(tokens: seq<Token>, typeCount: nat): Result<Network>
  {
    var magic := IntAt(tokens, 0);
    if magic.Failure? then Failure(magic.error)
    else if magic.value != MagicNumber then Failure(InvalidFormat)
    else
      var numLayers := IntAt(tokens, 1);
      var costOrdinal := IntAt(tokens, 2);
      var allowAugmenting := BoolAt(tokens, 3);
      if numLayers.Failure? then Failure(numLayers.error)
      else if costOrdinal.Failure? then Failure(costOrdinal.error)
      else
        var cost := Costs.FromOrdinal(costOrdinal.value);
        if cost.Failure? then Failure(cost.error)
        else if allowAugmenting.Failure? then Failure(allowAugmenting.error)
        else
          var layers := LayersAt(tokens, 4, numLayers.value, typeCount);
          if layers.Failure? then Failure(layers.error)
          else Success(Network(layers.value.0, cost.value, allowAugmenting.value))
  }

  /** The layers read so far in front of the outcome of the rest of the loop. */
  ghost function Prepend(prefix: seq<LayerRecord>, r: Result<(seq<LayerRecord>, nat)>): Result<(seq<LayerRecord>, nat)>
  {
    if r.Failure? then r else Success((prefix + r.value.0, r.value.1))
  }

  lemma PrependEmpty(r: Result<(seq<LayerRecord>, nat)>)
    ensures Prepend([], r) == r
  {
    if r.Success? {
      assert [] + r.value.0 == r.value.0;
    }
  }

  lemma PrependTwice(a: seq<LayerRecord>, b: seq<LayerRecord>, r: Result<(seq<LayerRecord>, nat)>)
    ensures Prepend(a, Prepend(b, r)) == Prepend(a + b, r)
  {
    if r.Success? {
      assert a + (b + r.value.0) == (a + b) + r.value.0;
    }
  }

  /** `loadNetwork`. */
  method LoadNetwork(tokens: seq<Token>, typeCount: nat) returns (r: Result<Network>)
    ensures r == Decoded(tokens, typeCount)
  {
    var magic := IntAt(tokens, 0);
    if magic.Failure? {
      return Failure(magic.error);
    }
    if magic.value != MagicNumber {
      return Failure(InvalidFormat);
    }
    var numLayers := IntAt(tokens, 1);
    if numLayers.Failure? {
      return Failure(numLayers.error);
    }
    var costOrdinal := IntAt(tokens, 2);
    if costOrdinal.Failure? {
      return Failure(costOrdinal.error);
    }
    var costFunction := Costs.FromOrdinal(costOrdinal.value);
    if costFunction.Failure? {
      return Failure(costFunction.error);
    }
    var allowAugmenting := BoolAt(tokens, 3);
    if allowAugmenting.Failure? {
      return Failure(allowAugmenting.error);
    }
    var layers: seq<LayerRecord> := [];
    var pos := 4;
    var i := 0;
    PrependEmpty(LayersAt(tokens, pos, numLayers.value, typeCount));
    while i < numLayers.value
      invariant 0 <= i && (numLayers.value >= 0 ==> i <= numLayers.value)
      invariant LayersAt(tokens, 4, numLayers.value, typeCount) ==
                Prepend(layers, LayersAt(tokens, pos, numLayers.value - i, typeCount))
      decreases numLayers.value - i
    {
      var layerType := IntAt(tokens, pos);
      if layerType.Failure? {
        return Failure(layerType.error);
      }
      if !(0 <= layerType.value < typeCount) {
        return Failure(IndexOutOfBounds);
      }
      if layerType.value == FullyConnectedType {
        var layer := ReadFCLayer(tokens, pos + 1);
        if layer.Failure? {
          return Failure(layer.error);
        }
        assert Prepend([layer.value.0], LayersAt(tokens, layer.value.1, numLayers.value - i - 1, typeCount)) ==
               LayersAt(tokens, pos, numLayers.value - i, typeCount);
        PrependTwice(layers, [layer.value.0], LayersAt(tokens, layer.value.1, numLayers.value - i - 1, typeCount));
        layers := layers + [layer.value.0];
        pos := layer.value.1;
      } else {
        pos := pos + 1;
      }
      i := i + 1;
    }
    assert LayersAt(tokens, pos, numLayers.value - i, typeCount) == Success(([], pos));
    assert layers + [] == layers;
    return Success(Network(layers, costFunction.value, allowAugmenting.value));
  }

  /** `readFCLayer`. */
  method ReadFCLayer(tokens: seq<Token>, pos: nat) returns (r: Result<(LayerRecord, nat)>)
    ensures r == FcLayerAt(tokens, pos)
  {
    var numInputs := IntAt(tokens, pos);
    if numInputs.Failure? {
      return Failure(numInputs.error);
    }
    var numOutputs := IntAt(tokens, pos + 1);
    if numOutputs.Failure? {
      return Failure(numOutputs.error);
    }
    var ordinal := IntAt(tokens, pos + 2);
    if ordinal.Failure? {
      return Failure(ordinal.error);
    }
    var activationFunction := Activations.FromOrdinal(ordinal.value);
    if activationFunction.Failure? {
      return Failure(activationFunction.error);
    }
    if numOutputs.value < 0 || numInputs.value < 0 {
      return Failure(NegativeArraySize);
    }
    var rows: nat := numOutputs.value;
    var cols: nat := numInputs.value;
    var weightData := ReadWeights(tokens, pos + 3, rows, cols);
    if weightData.Failure? {
      return Failure(weightData.error);
    }
    var weights := OfArray(weightData.value);
    if weights.Failure? {
      return Failure(weights.error);
    }
    var biasStart := pos + 3 + rows * cols;
    var biasData := ReadBiases(tokens, biasStart, rows);
    if biasData.Failure? {
      return Failure(biasData.error);
    }
    var biases := OfArray(biasData.value);
    if biases.Failure? {
      return Failure(IndexOutOfBounds);
    }
    return Success((FullyConnected(cols, rows, activationFunction.value, weights.value, biases.value), biasStart + rows));
  }

  /** Every position in [from, to) holds a double. */
  ghost predicate AllDoubles(tokens: seq<Token>, from: nat, to: nat)
  {
    (from < to ==> to <= |tokens|) && forall k :: from <= k < to ==> tokens[k].DoubleTok?
  }

  /** A read of n doubles at cursor that fails makes a longer read from an
      earlier start fail the same way, when everything before cursor was read. */
  lemma ReadDoublesExtend(tokens: seq<Token>, start: nat, cursor: nat, n: nat, total: nat)
    requires start <= cursor && cursor + n <= start + total
    requires AllDoubles(tokens, start, cursor) && ReadDoubles(tokens, cursor, n).Failure?
    ensures ReadDoubles(tokens, start, total) == Failure(ReadDoubles(tokens, cursor, n).error)
  {
    if exists k :: cursor <= k < cursor + n && k < |tokens| && !tokens[k].DoubleTok? {
      var k :| cursor <= k < cursor + n && k < |tokens| && !tokens[k].DoubleTok?;
      assert start <= k < start + total;
    }
  }

  lemma ReadAllDoubles(tokens: seq<Token>, from: nat, count: nat)
    requires AllDoubles(tokens, from, from + count)
    ensures ReadDoubles(tokens, from, count).Success?
    ensures forall k :: 0 <= k < count ==> ReadDoubles(tokens, from, count).value[k] == tokens[from + k].d
  {
  }

  /** The nested loops of `readFCLayer` filling `weightData[row][col]`. */
  method ReadWeights(tokens: seq<Token>, start: nat, rows: nat, cols: nat) returns (r: Result<array2<real>>)
    ensures r.Failure? <==> ReadDoubles(tokens, start, rows * cols).Failure?
    ensures r.Failure? ==> r.error == ReadDoubles(tokens, start, rows * cols).error
    ensures r.Success? ==> fresh(r.value) && r.value.Length0 == rows && r.value.Length1 == cols &&
                           Snapshot(r.value) == Unflatten(ReadDoubles(tokens, start, rows * cols).value, rows, cols)
  {
    var weightData := new real[rows, cols]((_, _) => 0.0);
    var cursor := start;
    for row := 0 to rows
      invariant start <= cursor == RowStart(start, cols, row)
      invariant AllDoubles(tokens, start, cursor)
      invariant RowsRead(tokens, start, weightData, row, cols)
    {
      RowStartBound(start, cols, row + 1, rows);
      assert RowStart(start, cols, row + 1) == cursor + cols;
      label before:
      var next := ReadRow(tokens, cursor, weightData, row);
      if next.Failure? {
        ReadDoublesExtend(tokens, start, cursor, cols, rows * cols);
        return Failure(next.error);
      }
      assert old@before(RowsRead(tokens, start, weightData, row, cols));
      forall i, j | 0 <= i < row && 0 <= j < cols
        ensures Holds(tokens, RowStart(start, cols, i) + j, weightData[i, j])
      {
        assert weightData[i, j] == old@before(weightData[i, j]);
      }
      RowsReadExtend(tokens, start, weightData, row, cols, cursor);
      cursor := next.value;
    }
    RowStartIs(start, cols, rows);
    WeightsRead(tokens, start, weightData, rows, cols);
    return Success(weightData);
  }

  /** Where row i of a grid of cols columns starts when the grid is read from
      position start on: start + i * cols, built up one row at a time. */
  ghost function RowStart(start: nat, cols: nat, i: nat): nat
  {
    if i == 0 then start else RowStart(start, cols, i - 1) + cols
  }

  lemma {:induction false} RowStartIs(start: nat, cols: nat, i: nat)
    ensures RowStart(start, cols, i) == start + i * cols
  {
    if i > 0 {
      RowStartIs(start, cols, i - 1);
      NextRow(i - 1, cols);
    }
  }

  lemma RowStartBound(start: nat, cols: nat, i: nat, rows: nat)
    requires i <= rows
    ensures RowStart(start, cols, i) <= start + rows * cols
  {
    RowStartIs(start, cols, i);
    RowsBound(i, rows, cols);
  }

  /** The first rows rows of weightData hold the doubles read from start on. */
  ghost predicate RowsRead(tokens: seq<Token>, start: nat, weightData: array2<real>, rows: nat, cols: nat)
    reads weightData
  {
    rows <= weightData.Length0 && cols == weightData.Length1 &&
    forall i, j :: 0 <= i < rows && 0 <= j < cols ==>
      Holds(tokens, RowStart(start, cols, i) + j, weightData[i, j])
  }

  /** Position k of the stream holds the double v. */
  ghost predicate Holds(tokens: seq<Token>, k: nat, v: real)
  {
    k < |tokens| && tokens[k] == DoubleTok(v)
  }

  lemma WeightsRead(tokens: seq<Token>, start: nat, weightData: array2<real>, rows: nat, cols: nat)
    requires weightData.Length0 == rows && weightData.Length1 == cols
    requires AllDoubles(tokens, start, start + rows * cols)
    requires RowsRead(tokens, start, weightData, rows, cols)
    ensures ReadDoubles(tokens, start, rows * cols).Success?
    ensures Snapshot(weightData) == Unflatten(ReadDoubles(tokens, start, rows * cols).value, rows, cols)
  {
    ReadAllDoubles(tokens, start, rows * cols);
    var xs := ReadDoubles(tokens, start, rows * cols).value;
    forall i, j | 0 <= i < rows && 0 <= j < cols
      ensures Snapshot(weightData).data[i][j] == Unflatten(xs, rows, cols).data[i][j]
    {
      CellIndex(i, j, rows, cols);
      RowStartIs(start, cols, i);
    }
    Extensionality(Snapshot(weightData), Unflatten(xs, rows, cols));
  }

  lemma RowsReadExtend(tokens: seq<Token>, start: nat, weightData: array2<real>, row: nat, cols: nat, cursor: nat)
    requires row < weightData.Length0 && cursor == RowStart(start, cols, row)
    requires RowsRead(tokens, start, weightData, row, cols)
    requires forall j :: 0 <= j < cols ==> Holds(tokens, cursor + j, weightData[row, j])
    ensures RowsRead(tokens, start, weightData, row + 1, cols)
  {
    forall i, j | 0 <= i < row + 1 && 0 <= j < cols
      ensures Holds(tokens, RowStart(start, cols, i) + j, weightData[i, j])
    {
      if i < row {
        assert RowsRead(tokens, start, weightData, row, cols);
      }
    }
  }

  /** The inner loop of the weights: `weightData[row][col] = readDouble()` for
      every column; the position after the row on success.  The rows before
      row are left as they were. */
  method ReadRow(tokens: seq<Token>, cursor: nat, weightData: array2<real>, row: nat) returns (r: Result<nat>)
    requires row < weightData.Length0
    modifies weightData
    ensures r.Failure? <==> ReadDoubles(tokens, cursor, weightData.Length1).Failure?
    ensures r.Failure? ==> r.error == ReadDoubles(tokens, cursor, weightData.Length1).error
    ensures r.Success? ==> r.value == cursor + weightData.Length1 && AllDoubles(tokens, cursor, r.value)
    ensures r.Success? ==> forall j :: 0 <= j < weightData.Length1 ==> Holds(tokens, cursor + j, weightData[row, j])
    ensures forall i, j :: 0 <= i < row && 0 <= j < weightData.Length1 ==> weightData[i, j] == old(weightData[i, j])
  {
    var pos := cursor;
    for col := 0 to weightData.Length1
      invariant pos == cursor + col
      invariant AllDoubles(tokens, cursor, pos)
      invariant forall i, j :: 0 <= i < row && 0 <= j < weightData.Length1 ==> weightData[i, j] == old(weightData[i, j])
      invariant forall j :: 0 <= j < col ==> Holds(tokens, cursor + j, weightData[row, j])
    {
      var value := DoubleAt(tokens, pos);
      if value.Failure? {
        if pos < |tokens| {
          assert !tokens[pos].DoubleTok?;
        }
        return Failure(value.error);
      }
      weightData[row, col] := value.value;
      pos := pos + 1;
    }
    ReadAllDoubles(tokens, cursor, weightData.Length1);
    return Success(pos);
  }

  /** The loop of `readFCLayer` filling `biasData[row][0]`. */
  method ReadBiases(tokens: seq<Token>, start: nat, rows: nat) returns (r: Result<array2<real>>)
    ensures r.Failure? <==> ReadDoubles(tokens, start, rows).Failure?
    ensures r.Failure? ==> r.error == ReadDoubles(tokens, start, rows).error
    ensures r.Success? ==> fresh(r.value) && r.value.Length0 == rows && r.value.Length1 == 1 &&
                           Snapshot(r.value) == Unflatten(ReadDoubles(tokens, start, rows).value, rows, 1)
  {
    var biasData := new real[rows, 1]((_, _) => 0.0);
    for row := 0 to rows
      invariant AllDoubles(tokens, start, start + row)
      invariant forall i :: 0 <= i < row ==> Holds(tokens, start + i, biasData[i, 0])
    {
      var value := DoubleAt(tokens, start + row);
      if value.Failure? {
        if start + row < |tokens| {
          assert !tokens[start + row].DoubleTok?;
        }
        return Failure(value.error);
      }
      biasData[row, 0] := value.value;
    }
    ReadAllDoubles(tokens, start, rows);
    ghost var xs := ReadDoubles(tokens, start, rows).value;
    Extensionality(Snapshot(biasData), Unflatten(xs, rows, 1));
    return Success(biasData);
  }

  // ---------------------------------------------------------------------
  // Properties
  // ---------------------------------------------------------------------

  lemma {:induction false} LayersTokensSnoc(ls: seq<LayerRecord>, l: LayerRecord)
    requires LayersTokens(ls).Success? && LayerTokens(l).Success?
    ensures LayersTokens(ls + [l]) == Success(LayersTokens(ls).value + LayerTokens(l).value)
  {
    if |ls| == 0 {
      assert (ls + [l])[1..] == [];
      assert LayersTokens(ls + [l]) == Success(LayerTokens(l).value + []);
      assert LayerTokens(l).value + [] == [] + LayerTokens(l).value;
    } else {
      assert (ls + [l])[0] == ls[0];
      assert (ls + [l])[1..] == ls[1..] + [l];
      var rest := LayersTokens(ls[1..]);
      assert LayersTokens(ls) == Success(LayerTokens(ls[0]).value + rest.value);
      LayersTokensSnoc(ls[1..], l);
      assert LayersTokens(ls + [l]) == Success(LayerTokens(ls[0]).value + (rest.value + LayerTokens(l).value));
      assert (LayerTokens(ls[0]).value + rest.value) + LayerTokens(l).value ==
             LayerTokens(ls[0]).value + (rest.value + LayerTokens(l).value);
    }
  }

  lemma {:induction false} LayersTokensFail(ls: seq<LayerRecord>, k: nat)
    requires k < |ls| && LayerTokens(ls[k]).Failure?
    ensures LayersTokens(ls).Failure? && LayersTokens(ls).error == LayerTokens(ls[k]).error
  {
    if k > 0 {
      LayersTokensFail(ls[1..], k - 1);
    }
  }

  /** Saving fails only on a fully connected layer whose weights or biases
      have no row, where `toArray` fails. */
  lemma {:induction false} SaveFailsOnEmptyMatrix(ls: seq<LayerRecord>)
    ensures LayersTokens(ls).Failure? <==>
            exists k :: 0 <= k < |ls| && ls[k].FullyConnected? && (ls[k].weights.rows == 0 || ls[k].biases.rows == 0)
    ensures LayersTokens(ls).Failure? ==> LayersTokens(ls).error == IndexOutOfBounds
  {
    if |ls| > 0 {
      SaveFailsOnEmptyMatrix(ls[1..]);
      if LayersTokens(ls[1..]).Failure? {
        var k :| 0 <= k < |ls[1..]| && ls[1..][k].FullyConnected? && (ls[1..][k].weights.rows == 0 || ls[1..][k].biases.rows == 0);
        assert ls[k + 1] == ls[1..][k];
      }
      forall k | 0 < k < |ls|
        ensures ls[k] == ls[1..][k - 1]
      {
      }
    }
  }

  /** The first value written is the magic number, and a stream that starts
      with anything else is rejected. */
  lemma MagicChecked(n: Network, tokens: seq<Token>, typeCount: nat)
    ensures Encoded(n).Success? ==> Encoded(n).value[..4] == Header(n) && Encoded(n).value[0] == IntTok(MagicNumber)
    ensures |tokens| > 0 && tokens[0].IntTok? && tokens[0].i != MagicNumber ==> Decoded(tokens, typeCount) == Failure(InvalidFormat)
  {
  }

  /** An ordinal outside its enum's `values()` fails the load: the cost
      function in the header, a layer type, or a layer's activation function. */
  lemma OrdinalsChecked(tokens: seq<Token>, pos: nat, remaining: int, typeCount: nat)
    ensures (|tokens| >= 4 && tokens[0] == IntTok(MagicNumber) && tokens[1].IntTok? &&
             tokens[2].IntTok? && !(0 <= tokens[2].i < 3)) ==>
            Decoded(tokens, typeCount) == Failure(IndexOutOfBounds)
    ensures remaining > 0 && pos < |tokens| && tokens[pos].IntTok? && !(0 <= tokens[pos].i < typeCount) ==>
            LayersAt(tokens, pos, remaining, typeCount) == Failure(IndexOutOfBounds)
    ensures (pos + 3 <= |tokens| && tokens[pos].IntTok? && tokens[pos + 1].IntTok? &&
             tokens[pos + 2].IntTok? && !(0 <= tokens[pos + 2].i < 4)) ==>
            FcLayerAt(tokens, pos) == Failure(IndexOutOfBounds)
  {
  }

  /** A layer the loader can rebuild: a fully connected layer whose weights
      are outputs x inputs with at least one output and whose biases are a
      column of the same height, or another type with a valid ordinal. */
  ghost predicate Saveable(l: LayerRecord, typeCount: nat)
  {
    match l
    case FullyConnected(numInputs, numOutputs, _, weights, biases) =>
      weights.Valid() && biases.Valid() && weights.rows == numOutputs && weights.cols == numInputs &&
      numOutputs > 0 && biases.rows == numOutputs && biases.cols == 1
    case OtherLayer(t) => 0 < t < typeCount
  }

  /** The layers a load keeps: the fully connected ones, in order. */
  ghost function FullyConnectedOnly(ls: seq<LayerRecord>): (r: seq<LayerRecord>)
    ensures |r| <= |ls|
  {
    if |ls| == 0 then []
    else (if ls[0].FullyConnected? then [ls[0]] else []) + FullyConnectedOnly(ls[1..])
  }

  /** Reading back the entries of a matrix written row by row gives the matrix. */
  lemma UnflattenRowMajor(m: Matrix)
    requires m.Valid()
    ensures |RowMajor(m.data)| == m.rows * m.cols
    ensures Unflatten(RowMajor(m.data), m.rows, m.cols) == m
  {
    RowMajorLength(m.data, m.cols);
    var back := Unflatten(RowMajor(m.data), m.rows, m.cols);
    forall i, j | 0 <= i < m.rows && 0 <= j < m.cols
      ensures back.data[i][j] == m.data[i][j]
    {
      RowMajorAt(m.data, m.cols, i, j);
    }
    Extensionality(back, m);
  }

  /** e sits in tokens at position pos. */
  ghost predicate Occurs(tokens: seq<Token>, pos: nat, e: seq<Token>)
  {
    pos + |e| <= |tokens| && forall k :: 0 <= k < |e| ==> tokens[pos + k] == e[k]
  }

  lemma OccursSplit(tokens: seq<Token>, pos: nat, a: seq<Token>, b: seq<Token>)
    requires Occurs(tokens, pos, a + b)
    ensures Occurs(tokens, pos, a) && Occurs(tokens, pos + |a|, b)
  {
    forall k | 0 <= k < |a|
      ensures tokens[pos + k] == a[k]
    {
      assert (a + b)[k] == a[k];
    }
    forall k | 0 <= k < |b|
      ensures tokens[pos + |a| + k] == b[k]
    {
      assert (a + b)[|a| + k] == b[k];
    }
  }

  lemma OccursAfter(a: seq<Token>, b: seq<Token>)
    ensures Occurs(a + b, |a|, b)
  {
  }

  /** Reading count doubles where count doubles were written gives them back. */
  lemma ReadWrittenDoubles(tokens: seq<Token>, from: nat, xs: seq<real>)
    requires Occurs(tokens, from, Doubles(xs))
    ensures ReadDoubles(tokens, from, |xs|) == Success(xs)
  {
    forall k | from <= k < from + |xs|
      ensures k < |tokens| && tokens[k] == DoubleTok(xs[k - from])
    {
      assert tokens[from + (k - from)] == Doubles(xs)[k - from];
    }
    ReadAllDoubles(tokens, from, |xs|);
    assert ReadDoubles(tokens, from, |xs|).value == xs;
  }

  /** Reading a saved layer back at the position it was written. */
  lemma LayerRoundTrip(tokens: seq<Token>, pos: nat, l: LayerRecord, typeCount: nat)
    requires Saveable(l, typeCount) && l.FullyConnected?
    requires FcPayload(l).Success? && Occurs(tokens, pos, FcPayload(l).value)
    ensures FcLayerAt(tokens, pos) == Success((l, pos + |FcPayload(l).value|))
  {
    var ws := RowMajor(l.weights.data);
    var bs := RowMajor(l.biases.data);
    var ints := [IntTok(l.numInputs), IntTok(l.numOutputs), IntTok(Activations.Ordinal(l.activation))];
    assert FcPayload(l).value == (ints + Doubles(ws)) + Doubles(bs);
    OccursSplit(tokens, pos, ints + Doubles(ws), Doubles(bs));
    OccursSplit(tokens, pos, ints, Doubles(ws));
    assert tokens[pos + 0] == ints[0] && tokens[pos + 1] == ints[1] && tokens[pos + 2] == ints[2];
    UnflattenRowMajor(l.weights);
    UnflattenRowMajor(l.biases);
    ReadWrittenDoubles(tokens, pos + 3, ws);
    ReadWrittenDoubles(tokens, pos + 3 + |ws|, bs);
  }

  /** Loading what was saved for ls from position pos reads every layer back,
      keeping the fully connected ones. */
  lemma {:induction false} LayersRoundTrip(tokens: seq<Token>, pos: nat, ls: seq<LayerRecord>, typeCount: nat)
    requires forall l <- ls :: Saveable(l, typeCount)
    requires typeCount > 0
    requires LayersTokens(ls).Success? && Occurs(tokens, pos, LayersTokens(ls).value)
    ensures LayersAt(tokens, pos, |ls|, typeCount) == Success((FullyConnectedOnly(ls), pos + |LayersTokens(ls).value|))
    decreases ls
  {
    if |ls| > 0 {
      var head := LayerTokens(ls[0]).value;
      var rest := LayersTokens(ls[1..]).value;
      assert LayersTokens(ls).value == head + rest;
      OccursSplit(tokens, pos, head, rest);
      assert ls[0] in ls;
      assert forall l <- ls[1..] :: l in ls;
      LayersRoundTrip(tokens, pos + |head|, ls[1..], typeCount);
      var tail := LayersAt(tokens, pos + |head|, |ls| - 1, typeCount);
      LayerStep(tokens, pos, ls[0], |ls|, typeCount);
      assert FullyConnectedOnly(ls) == (if ls[0].FullyConnected? then [ls[0]] else []) + FullyConnectedOnly(ls[1..]);
    }
  }

  /** One iteration of the layer loop of `loadNetwork` over a saved layer. */
  lemma LayerStep(tokens: seq<Token>, pos: nat, l: LayerRecord, remaining: int, typeCount: nat)
    requires Saveable(l, typeCount) && remaining > 0 && typeCount > 0
    requires LayerTokens(l).Success? && Occurs(tokens, pos, LayerTokens(l).value)
    requires LayersAt(tokens, pos + |LayerTokens(l).value|, remaining - 1, typeCount).Success?
    ensures LayersAt(tokens, pos, remaining, typeCount) ==
            Prepend(if l.FullyConnected? then [l] else [],
                    LayersAt(tokens, pos + |LayerTokens(l).value|, remaining - 1, typeCount))
  {
    var head := LayerTokens(l).value;
    assert tokens[pos + 0] == head[0];
    if l.FullyConnected? {
      var payload := FcPayload(l).value;
      assert head == [IntTok(FullyConnectedType)] + payload;
      OccursSplit(tokens, pos, [IntTok(FullyConnectedType)], payload);
      LayerRoundTrip(tokens, pos + 1, l, typeCount);
      assert pos + 1 + |payload| == pos + |head|;
    } else {
      var tail := LayersAt(tokens, pos + 1, remaining - 1, typeCount);
      assert [] + tail.value.0 == tail.value.0;
    }
  }

  /** Round trip: loading a saved network gives back its cost function, its
      augmentation flag and its fully connected layers (dimensions,
      activation, weights and biases); layers of other types are dropped. */
  lemma RoundTrip(n: Network, typeCount: nat)
    requires typeCount > 0 && forall l <- n.layers :: Saveable(l, typeCount)
    ensures Encoded(n).Success?
    ensures Decoded(Encoded(n).value, typeCount) ==
            Success(Network(FullyConnectedOnly(n.layers), n.cost, n.allowAugmenting))
  {
    SaveFailsOnEmptyMatrix(n.layers);
    forall k | 0 <= k < |n.layers|
      ensures Saveable(n.layers[k], typeCount)
    {
      assert n.layers[k] in n.layers;
    }
    var body := LayersTokens(n.layers).value;
    var tokens := Header(n) + body;
    OccursAfter(Header(n), body);
    LayersRoundTrip(tokens, 4, n.layers, typeCount);
  }

  /** With fully connected layers only, the round trip is the identity. */
  lemma RoundTripIdentity(n: Network, typeCount: nat)
    requires typeCount > 0 && forall l <- n.layers :: Saveable(l, typeCount) && l.FullyConnected?
    ensures Encoded(n).Success? && Decoded(Encoded(n).value, typeCount) == Success(n)
  {
    RoundTrip(n, typeCount);
    FullyConnectedOnlyKeeps(n.layers);
  }

  lemma {:induction false} FullyConnectedOnlyKeeps(ls: seq<LayerRecord>)
    requires forall l <- ls :: l.FullyConnected?
    ensures FullyConnectedOnly(ls) == ls
  {
    if |ls| > 0 {
      assert forall l <- ls[1..] :: l in ls;
      FullyConnectedOnlyKeeps(ls[1..]);
    }
  }
}
