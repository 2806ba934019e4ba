# A verified model of the ConvNN training core

This project models, in Dafny, the training core of a small Java neural-network
library (the `cnn` and `utilities` packages). Its parts:

- `Matrix`: a dense matrix of doubles with element-wise arithmetic, matrix
  product, transpose, flattening and activation;
- `ActivationFunction` (LEAKY_RELU, RELU, SIGMOID, SOFTMAX) and `CostFunction`
  (MSE, CROSS_ENTROPY, MAE), each with a value and a derivative;
- `FullyConnectedLayer`, which holds weights, biases, two gradient accumulators
  and the values cached by the last forward pass, all updated in place;
- `Dataset`, which shuffles its sample indices and serves them in mini-batches;
- `MNISTDataset`, which decodes the MNIST image and label files;
- `NetworkFileHandler`, which saves and loads a network's parameters.

Files and modules:

| file | module | what it holds |
|---|---|---|
| `outcomes.dfy` | `Outcomes` | `Result`/`Option`, and one `Error` per Java exception the core can raise |
| `activation.dfy` | `Activations` | the activation enum with `Apply` and `Derivative` |
| `matrix.dfy` | `Matrices` | the `Matrix` value type, its operations and their specification functions |
| `cost.dfy` | `Costs` | the cost enum, `Calculate` and `Derivative`, and their loops |
| `layer.dfy` | `Layers` | the `FullyConnectedLayer` class |
| `dataset.dfy` | `Datasets` | the `Dataset` class, with the shuffle and the batch cursor |
| `mnist.dfy` | `Mnist` | the MNIST decoders, over byte sequences |
| `network_file.dfy` | `NetworkFiles` | the save and load routines, over the stream of values written |

How the Java is modelled:

- A Java `Matrix` is never changed after construction, so it is a value:
  `Matrix(rows, cols, data)` with `Valid()` saying every row has `cols` entries.
  Every operation works as the Java does. It allocates an `array2<real>`, fills
  it in nested loops carrying invariants, and freezes it. Each method is proved
  equal to a specification function (`Plus`, `Product`, `Transposed`, …).
  The layer and cost contracts are stated with those functions.
- `FullyConnectedLayer` is a class whose `var` fields are reassigned exactly
  as the Java fields are. `Dataset` is a class whose shuffled index table is an
  `array<int>` permuted in place.
- Each Java exception becomes a `Failure` carrying its own error:
  - `IllegalArgumentException` from a shape check: `DimensionMismatch`;
  - `UnsupportedOperationException`: `UnsupportedOperation`;
  - array or list index errors, `source[0]` of an empty array included: `IndexOutOfBounds`;
  - `NegativeArraySizeException`: `NegativeArraySize`;
  - `EOFException`: `EndOfStream`;
  - a wrong magic number: `InvalidFormat`.

  A `0.0 / 0` that yields NaN in Java is `NotANumber`.
- `Math.exp` and `Math.log` are parameters, `exp: real -> Positive` and
  `ln: Positive -> real`. `Math.random()` and `Random.nextInt` are oracle
  sequences of draws.
- MNIST files are byte sequences. `readInt` is big-endian two's complement, as
  `DataInputStream` reads it. A missing file is `None`.
- A network file is the sequence of `writeInt`/`writeBoolean`/`writeDouble`
  values, one `Token` each. The `Layer.LayerType` enum is not part of this model.
  Its size is the parameter `typeCount`, and `FULLY_CONNECTED` has ordinal 0.

The model follows the code as written, including these easily misread details:

- LEAKY_RELU `apply` is `max(0, x)`, which is the same as RELU, and its
  derivative is `x` for positive `x` and `0.01 * x` otherwise
  (`ActivationFunction.java:7`, `:12`).
- The MSE gradient is scaled by `2.0 / rows * cols`, which is `(2 / rows) * cols`
  (`CostFunction.java:21`).
- The CROSS_ENTROPY cost divides by the number of rows only (`CostFunction.java:43`).
- `backward` takes the activation derivative at the cached activated output,
  not at the pre-activation value (`FullyConnectedLayer.java:53`).
- `applyGradient` neither averages by `batchSize` nor clears the accumulators.
  Clearing is a separate `clearGradient` call (`FullyConnectedLayer.java:73-82`).
- The MNIST loaders catch `IOException`: a bad magic number, unexpected image
  dimensions or a truncated file give the images or labels read so far. A bad
  or truncated file is not reported as an error. The number of labels is never compared with the
  number of images. Only a label of 10 or more (an uncaught index error) makes
  the constructor fail.
- `DataOutputStream` and `DataInputStream` are big-endian, although the class
  comment of `NetworkFileHandler` says little-endian. The model works on values,
  not bytes, so it makes no claim about byte order for network files.

## Model

| member | source | states |
|---|---|---|
| Activations.Ordinal | src/cnn/ActivationFunction.java:3-51 | an activation's ordinal is below 4 and `values()[ordinal]` gives the activation back |
| Activations.FromOrdinal | src/cnn/ActivationFunction.java:3-51 | `values()[k]` fails with an index error exactly when k is outside 0..3 |
| Activations.Apply | src/cnn/ActivationFunction.java:4-50 | fails exactly for SOFTMAX (unsupported); RELU and LEAKY_RELU give a value that is ≥ 0, ≥ x, and either 0 or x |
| Activations.Derivative | src/cnn/ActivationFunction.java:10-50 | fails exactly for SOFTMAX; RELU's derivative is 0 or 1, and is 1 iff x > 0; LEAKY_RELU's is x above 0 and x/100 otherwise; SIGMOID's is s(1-s) |
| Activations.LeakyReluAppliesLikeRelu | src/cnn/ActivationFunction.java:7-19 | LEAKY_RELU and RELU apply to the same value for every input |
| Activations.SigmoidBounds | src/cnn/ActivationFunction.java:30-38 | the sigmoid lies strictly between 0 and 1, and its derivative in (0, 1/4] |
| Matrices.New | src/cnn/Matrix.java:34-38 | a new rows x cols matrix holds 0.0 in every entry |
| Matrices.CopyArray | src/cnn/Matrix.java:52-58 | the copy is a fresh array with the same shape and entries; an array without rows fails with an index error |
| Matrices.OfArray | src/cnn/Matrix.java:40-44 | the matrix has the array's shape and entries, and is independent of the array; fails exactly when the array has no rows |
| Matrices.CopyOf | src/cnn/Matrix.java:46-50 | the copy equals the original; a matrix without rows fails |
| Matrices.ToArray | src/cnn/Matrix.java:127-129 | a fresh array mirroring the matrix entry for entry; fails exactly on a matrix without rows |
| Matrices.Randomized | src/cnn/Matrix.java:60-68 | each entry is draw*2-1 for its draw in [0,1), so lies in [-1,1) |
| Matrices.Add | src/cnn/Matrix.java:71-82 | fails with a dimension mismatch exactly when the shapes differ; otherwise entry (i,j) is a(i,j) + b(i,j) |
| Matrices.Subtract | src/cnn/FullyConnectedLayer.java:74-75 | fails exactly on differing shapes; otherwise entry (i,j) is a(i,j) - b(i,j) |
| Matrices.ElementWiseMultiply | src/cnn/FullyConnectedLayer.java:56 | fails exactly on differing shapes; otherwise entry (i,j) is a(i,j) * b(i,j) |
| Matrices.Scale | src/cnn/Matrix.java:85-93 | every entry is multiplied by the scalar, shape kept |
| Matrices.Multiply | src/cnn/Matrix.java:96-112 | fails exactly when a.cols != b.rows; otherwise a.rows x b.cols, entry (i,j) the dot product of row i and column j |
| Matrices.Transpose | src/cnn/FullyConnectedLayer.java:59 | cols x rows, with entry (i,j) equal to a(j,i) |
| Matrices.Sum | src/cnn/CostFunction.java:13 | the total of all entries |
| Matrices.Flatten | src/cnn/Matrix.java:115-125 | a (rows*cols) x 1 column holding the entries in row-major order |
| Matrices.Activate | src/cnn/FullyConnectedLayer.java:45 | f applied to every entry; fails exactly for SOFTMAX on a nonempty matrix |
| Matrices.ActivationDerivative | src/cnn/FullyConnectedLayer.java:53 | f's derivative at every entry; fails exactly for SOFTMAX on a nonempty matrix |
| Matrices.PlusMinusCancel | src/cnn/Matrix.java:71-82 | (a + b) - b == a |
| Matrices.TransposeInvolution | src/cnn/FullyConnectedLayer.java:59 | transposing twice gives the matrix back |
| Matrices.MinusScaledZero | src/cnn/FullyConnectedLayer.java:74-81 | subtracting a scaled zero matrix leaves a matrix unchanged |
| Matrices.ZeroPlus | src/cnn/FullyConnectedLayer.java:64-65 | adding to a zero matrix gives the addend |
| Costs.Ordinal | src/cnn/CostFunction.java:3-102 | a cost function's ordinal is below 3 and maps back to it |
| Costs.FromOrdinal | src/cnn/CostFunction.java:3-102 | `values()[k]` fails with an index error exactly when k is outside 0..2 |
| Costs.Clamp | src/cnn/CostFunction.java:38 | the clamped probability lies in [1e-9, 1-1e-9], so log and division are defined, is unchanged inside that band, and is 1e-9 below it and 1-1e-9 above it |
| Costs.Calculate | src/cnn/CostFunction.java:6-82 | the cost of the chosen function; differing shapes fail with a dimension mismatch for every cost function |
| Costs.Derivative | src/cnn/CostFunction.java:17-101 | the gradient of the chosen function, with the predicted matrix's shape; differing shapes fail |
| Costs.MseCalculate | src/cnn/CostFunction.java:6-14 | the sum of squared differences over rows*cols; NaN for an empty matrix |
| Costs.MseDerivative | src/cnn/CostFunction.java:17-22 | (p - e) scaled by (2/rows)*cols |
| Costs.CrossEntropyCalculate | src/cnn/CostFunction.java:27-44 | minus the sum of y ln q + (1-y) ln(1-q) over clamped q, divided by rows; no rows fails with an index error |
| Costs.CrossEntropyLoop | src/cnn/CostFunction.java:34-41 | the loop accumulates the total of the cross-entropy terms |
| Costs.CrossEntropyRow | src/cnn/CostFunction.java:35-40 | one pass of the inner loop adds that row's terms |
| Costs.CrossEntropyDerivative | src/cnn/CostFunction.java:47-63 | entry (i,j) is -(y/q) + (1-y)/(1-q) for the clamped q; no rows fails |
| Costs.CrossEntropyFill | src/cnn/CostFunction.java:54-61 | every gradient cell holds the cross-entropy slope of its entry |
| Costs.MaeCalculate | src/cnn/CostFunction.java:68-82 | the sum of absolute differences over rows*cols; no rows fails, no columns gives NaN |
| Costs.MaeLoop | src/cnn/CostFunction.java:75-80 | the loop accumulates the total of the absolute differences |
| Costs.MaeDerivative | src/cnn/CostFunction.java:85-101 | entry (i,j) is ±1/(rows*cols) by the sign of p - e; no rows fails |
| Costs.MaeFill | src/cnn/CostFunction.java:94-99 | every gradient cell holds factor * (±1) |
| Costs.RowTotalNonNegative | src/cnn/CostFunction.java:75-80 | a row of non-negative entries has a non-negative total |
| Costs.PartialTotalNonNegative | src/cnn/CostFunction.java:75-80 | the running total of non-negative entries stays non-negative |
| Costs.ShapeGuard | src/cnn/CostFunction.java:8-87 | every cost function's value and gradient fail with a dimension mismatch on differing shapes |
| Costs.MseNonNegative | src/cnn/CostFunction.java:10-13 | an MSE cost is never negative |
| Costs.MaeNonNegative | src/cnn/CostFunction.java:75-81 | an MAE cost is never negative |
| Costs.MaeGradientSigns | src/cnn/CostFunction.java:90-97 | every MAE gradient entry is 1/N or -1/N with N = rows*cols, and is positive iff p - e > 0 |
| Costs.CrossEntropyGradientEntries | src/cnn/CostFunction.java:56-59 | every cross-entropy gradient entry is the slope at a q with q and 1 - q both at least 1e-9 |
| Layers.FullyConnectedLayer.constructor | src/cnn/FullyConnectedLayer.java:31-37 | weights numOutputs x numInputs and biases numOutputs x 1 from the draws, in [-1,1); zero accumulators; nothing cached |
| Layers.FullyConnectedLayer.Forward | src/cnn/FullyConnectedLayer.java:41-47 | returns f(W x + b); fails exactly on an input that is not a numInputs column, or on a softmax layer; caches the input always and the output on success; parameters and accumulators unchanged |
| Layers.FullyConnectedLayer.Backward | src/cnn/FullyConnectedLayer.java:51-70 | the accumulators grow by delta xᵀ and delta, where delta = g ∘ f'(cached output); returns Wᵀ delta; on failure nothing changes, and the error is the delta's own (an unsupported SOFTMAX derivative or an incoming gradient of the wrong shape) or else a dimension mismatch |
| Layers.FullyConnectedLayer.ApplyGradient | src/cnn/FullyConnectedLayer.java:73-76 | W := W - lr * gW and b := b - lr * gb; the accumulators are kept |
| Layers.FullyConnectedLayer.ClearGradient | src/cnn/FullyConnectedLayer.java:79-82 | both accumulators become zero matrices of the weights' and biases' shapes |
| Layers.OutputEntries | src/cnn/FullyConnectedLayer.java:41-47 | output i is f(Σk w[i][k] x[k] + b[i]); failure exactly on a wrong input shape or softmax |
| Layers.OuterProduct | src/cnn/FullyConnectedLayer.java:59-60 | the weight gradient's entry (i,j) is delta[i] * x[j] |
| Layers.ClearedStepIsIdentity | src/cnn/FullyConnectedLayer.java:73-82 | a gradient step right after clearing leaves weights and biases unchanged |
| Layers.FirstAccumulation | src/cnn/FullyConnectedLayer.java:64-65 | after clearing, the first backward leaves exactly its own gradients in the accumulators |
| Datasets.Range | src/utilities/Dataset.java:50 | the sequence 0, 1, …, n-1 |
| Datasets.Swap | src/utilities/Dataset.java:53-55 | exchanges two positions and keeps the others |
| Datasets.Gather | src/utilities/Dataset.java:77-79 | the items at the given positions, in order |
| Datasets.Reach | src/utilities/Dataset.java:70-81 | how far the batch loop gets before an index with no output stops it: every index before that has an output |
| Datasets.Dataset.constructor | src/utilities/Dataset.java:42-46 | keeps both lists, shuffles all indices and starts the cursor at 0 |
| Datasets.Dataset.ShuffleDataset | src/utilities/Dataset.java:49-58 | the table is the Fisher-Yates shuffle of 0..n-1 driven by the draws, a permutation of it, and the cursor is reset |
| Datasets.Dataset.HasNextBatch | src/utilities/Dataset.java:61-63 | true exactly when the cursor is before the end, that is, when fewer indices have been served than the dataset holds |
| Datasets.Dataset.GetNextBatch | src/utilities/Dataset.java:66-84 | serves the next min(batchSize, remaining) shuffled samples with their outputs; null exactly when nothing is left and batchSize > 0; an index with no output fails, after the cursor has passed the indices before it; the cursor advances over every index it passed |
| Datasets.Dataset.Collect | src/utilities/Dataset.java:70-81 | the loop gathers the samples and outputs at the next shuffled indices and reports where it stopped and why |
| Datasets.Dataset.DataAtIndex | src/utilities/Dataset.java:86-88 | the sample at the index; outside the list fails with an index error |
| Datasets.Dataset.OutputAtIndex | src/utilities/Dataset.java:90-92 | the output at the index; outside the list fails with an index error |
| Datasets.Dataset.Size | src/utilities/Dataset.java:94 | the number of inputs, which is also the length of the shuffled index table, a permutation of 0..size-1 |
| Datasets.Dataset.ServedExactlyOnce | src/utilities/Dataset.java:49-84 | once no batch is left, every sample index has been passed by the cursor exactly once since the shuffle; a batch that failed on a missing output still counts the indices the cursor passed before the failure |
| Datasets.SwapPermutes | src/utilities/Dataset.java:53-55 | a swap keeps the multiset of indices |
| Datasets.ShuffleDownPermutes | src/utilities/Dataset.java:51-56 | the whole shuffle is a permutation of its input |
| Datasets.RangeCount | src/utilities/Dataset.java:50 | 0..n-1 holds each index exactly once and nothing else |
| Datasets.InRange | src/utilities/Dataset.java:77 | every entry of a permutation of 0..n-1 is a valid index |
| Datasets.ReachStep | src/utilities/Dataset.java:77-80 | an index with an output lets the loop go one step further |
| Datasets.ReachStops | src/utilities/Dataset.java:79 | an index without an output stops the loop at that step |
| Datasets.ReachAll | src/utilities/Dataset.java:70-83 | a loop that never stopped early reached every step |
| Mnist.ReadInt | src/utilities/mnist/MNISTDataset.java:51-55 | a 4-byte big-endian int32 is there exactly when 4 bytes remain, and lies in the int32 range |
| Mnist.ReadIntBytes | src/utilities/mnist/MNISTDataset.java:51-55 | reading the four bytes of an int32 gives it back |
| Mnist.OneHot | src/utilities/mnist/MNISTDataset.java:87-89 | a 10 x 1 column with 1.0 at the label and 0.0 elsewhere |
| Mnist.LoadImages | src/utilities/mnist/MNISTDataset.java:47-74 | nothing for a missing file or a bad header; otherwise the first count images (fewer when the file ends first), each 28 x 28 with pixel bytes divided by 255 |
| Mnist.ReadImage | src/utilities/mnist/MNISTDataset.java:60-66 | one image at the offset; none exactly when fewer than 784 bytes remain |
| Mnist.NewOneHot | src/utilities/mnist/MNISTDataset.java:87-89 | the one-hot column of a digit |
| Mnist.LoadLabels | src/utilities/mnist/MNISTDataset.java:76-97 | the one-hot labels decoded from the file; a label of 10 or more fails with an index error |
| Mnist.OpenDataset | src/utilities/mnist/MNISTDataset.java:43-45 | a fresh shuffled dataset of the decoded images and labels; fails exactly when a label does |
| Mnist.PixelsNormalised | src/utilities/mnist/MNISTDataset.java:63 | every pixel lies in [0, 1] |
| Mnist.BadImageHeader | src/utilities/mnist/MNISTDataset.java:52-56 | a wrong magic number or image size gives no images |
| Mnist.TruncatedImages | src/utilities/mnist/MNISTDataset.java:59-70 | a file cut after k whole images gives exactly those k |
| Mnist.BadLabelHeader | src/utilities/mnist/MNISTDataset.java:80-81 | a wrong label magic number gives no labels |
| Mnist.LabelsOneHot | src/utilities/mnist/MNISTDataset.java:85-90 | label t is the one-hot column of byte 8 + t, which is below 10 |
| NetworkFiles.SaveNetwork | src/utilities/NetworkFileHandler.java:98-115 | writes the header, then each layer's type ordinal and payload; fails as soon as a layer's matrix has no rows |
| NetworkFiles.WriteLayer | src/utilities/NetworkFileHandler.java:105-111 | one iteration appends the layer's type ordinal and, for a fully connected layer, its payload |
| NetworkFiles.WriteFCLayer | src/utilities/NetworkFileHandler.java:144-162 | appends inputs, outputs, activation ordinal, the weights row by row, then the biases |
| NetworkFiles.WriteMatrix | src/utilities/NetworkFileHandler.java:150-154 | appends the entries in row-major order; a matrix without rows fails in `toArray` |
| NetworkFiles.WriteRow | src/utilities/NetworkFileHandler.java:151-153 | appends one row's entries in order |
| NetworkFiles.DoublesAppend | src/utilities/NetworkFileHandler.java:150-161 | writing two runs of doubles writes their concatenation |
| NetworkFiles.LoadNetwork | src/utilities/NetworkFileHandler.java:117-142 | checks the magic number, reads the header, then each layer by its type ordinal, keeping only fully connected layers |
| NetworkFiles.ReadFCLayer | src/utilities/NetworkFileHandler.java:164-186 | reads inputs, outputs, activation ordinal, weights and biases; a bad ordinal, a negative size, a layer without outputs or a short stream fail |
| NetworkFiles.ReadWeights | src/utilities/NetworkFileHandler.java:170-176 | a fresh rows x cols array holding the next rows*cols doubles in row-major order, or the first read error |
| NetworkFiles.ReadRow | src/utilities/NetworkFileHandler.java:172-174 | one row holds the next cols doubles; the rows above are untouched |
| NetworkFiles.ReadBiases | src/utilities/NetworkFileHandler.java:179-183 | a fresh rows x 1 array holding the next rows doubles, or the first read error |
| NetworkFiles.ReadDoublesExtend | src/utilities/NetworkFileHandler.java:171-175 | a read failing part-way through the weights fails the whole read with the same error |
| NetworkFiles.ReadAllDoubles | src/utilities/NetworkFileHandler.java:173 | a run of double values reads back as those values |
| NetworkFiles.WeightsRead | src/utilities/NetworkFileHandler.java:170-176 | an array filled row by row equals the row-major unflattening of the doubles read |
| NetworkFiles.RowsReadExtend | src/utilities/NetworkFileHandler.java:171-175 | a finished row extends the rows read so far |
| NetworkFiles.LayersTokensSnoc | src/utilities/NetworkFileHandler.java:105-113 | one more layer appends its tokens to what the loop wrote |
| NetworkFiles.LayersTokensFail | src/utilities/NetworkFileHandler.java:105-113 | a layer that cannot be written fails the whole save |
| NetworkFiles.SaveFailsOnEmptyMatrix | src/utilities/NetworkFileHandler.java:150-161 | a save fails exactly when some fully connected layer has weights or biases without rows, and then with an index error |
| NetworkFiles.MagicChecked | src/utilities/NetworkFileHandler.java:100-121 | a saved stream starts with the header and the magic number; a stream with a different first int fails with an invalid-format error |
| NetworkFiles.OrdinalsChecked | src/utilities/NetworkFileHandler.java:125-167 | an out-of-range cost, layer type or activation ordinal fails with an index error |
| NetworkFiles.UnflattenRowMajor | src/utilities/NetworkFileHandler.java:150-176 | reshaping a matrix's row-major entries gives the matrix back |
| NetworkFiles.OccursSplit | src/utilities/NetworkFileHandler.java:98-115 | a written concatenation holds each part at its offset |
| NetworkFiles.ReadWrittenDoubles | src/utilities/NetworkFileHandler.java:150-183 | reading at the place a run of doubles was written gives that run |
| NetworkFiles.LayerRoundTrip | src/utilities/NetworkFileHandler.java:144-186 | reading a written fully connected layer gives the same layer and the position after it |
| NetworkFiles.LayerStep | src/utilities/NetworkFileHandler.java:105-138 | one written layer is read back by one iteration of the load loop, ahead of the rest |
| NetworkFiles.LayersRoundTrip | src/utilities/NetworkFileHandler.java:105-138 | reading the written layers gives back the fully connected ones in order, and ends where they end |
| NetworkFiles.RoundTrip | src/utilities/NetworkFileHandler.java:98-142 | loading a saved network gives its fully connected layers, its cost function and its augmentation flag |
| NetworkFiles.RoundTripIdentity | src/utilities/NetworkFileHandler.java:98-142 | a network of fully connected layers loads back as itself |
| NetworkFiles.FullyConnectedOnlyKeeps | src/utilities/NetworkFileHandler.java:132-135 | keeping fully connected layers keeps all of a list made only of them |

## Left out

- Matrix.java as given has no `subtract`, `elementWiseMultiply`, `transpose`, `sum`, `activate`, `activationDerivative`, `getRows` or `getCols`. They are modelled element-wise from their call sites in `FullyConnectedLayer` and `CostFunction`. The getters are the `rows` and `cols` fields.
- `Dataset` holds its input and output lists by value. The Java keeps the caller's `List` references, so the caller's later changes to them would show in the dataset. The only caller, `MNISTDataset`, passes lists it has just built and never touches again.
- `Matrices.New`, `Matrices.Randomized` and the `FullyConnectedLayer` constructor take `nat` sizes, so the `NegativeArraySizeException` that `new double[rows][cols]` throws on a negative size is not modelled there. Every caller passes non-negative sizes. The error is modelled where a size comes from a file, in `NetworkFiles.ReadFCLayer`.
- Ragged `double[][]`: the Java copies row by row and accepts rows of differing lengths. The model's array and matrix are always rectangular.
- Floating point: doubles are mathematical reals. Rounding, infinities and NaN propagation are not modelled; a NaN result is the `NotANumber` error.
- 32-bit overflow: sizes such as `rows * cols` and `numOutputs * numInputs` are unbounded integers. Only MNIST's `readInt` models the int32 range.
- `Math.exp`, `Math.log`, `Math.random` and `Random.nextInt` are parameters or oracle draws, not computed.
- File I/O: streams, files and paths are not modelled. MNIST files are byte sequences; a missing one is `None`. Network files are token streams, so a value of the wrong kind is `TokenMismatch` rather than misread bytes.
- The file dialogs and the directory creation in `NetworkFileHandler.java:62-96` are user interface, not part of this model.
- `Matrix.toString` is not modelled (it formats text for display).
- `CNN`, `Layer`, `ImageAugmentor`, `MNISTDownloader` and the GUI are not part of this model. The network and its layers, as the file handler sees them, are the `Network` and `LayerRecord` values.
- `FullyConnectedLayer`'s five-argument constructor and its getters used at `NetworkFileHandler.java:145-147` and `:185` are not shown in the source. `LayerRecord` holds the values they would give.
- `Layer.LayerType` is not shown. It is the `typeCount` parameter, with ordinal 0 as `FULLY_CONNECTED`.
- The images-versus-labels count check promised in `MNISTDataset`'s class comment (`MNISTDataset.java:29`): the code does not perform it, so the model does not either.
- `Layers.FullyConnectedLayer.Backward`: requires that a forward pass has cached its values. The Java would throw a `NullPointerException` on that path instead.
