/** Decoding of the MNIST IDX files: an image file (magic 0x00000803, count,
    rows, columns, then one unsigned byte per pixel) and a label file (magic
    0x00000801, count, then one unsigned byte per label).  A file is the
    sequence of its bytes, None when it cannot be opened; every `IOException`
    (a missing file, a bad header, the end of the stream) is caught and ends
    decoding with what was read so far. */
module Mnist {
  import opened Outcomes
  import opened Matrices
  import opened Datasets

  type Byte = b: int | 0 <= b < 256

  const ImageMagicNumber: int := 0x00000803
  const LabelMagicNumber: int := 0x00000801
  const ImageRows: int := 28
  const ImageCols: int := 28
  /** Bytes per image. */
  const ImageSize: nat := 784
  /** Header lengths of the two files. */
  const ImageHeader: nat := 16
  const LabelHeader: nat := 8

  const Two31: int := 0x8000_0000
  const Two32: int := 0x1_0000_0000

  /** `DataInputStream.readInt` at position pos: four bytes, most significant
      first, read as a two's-complement 32-bit value; None at the end of the stream. */
  function ReadInt(bytes: seq<Byte>, pos: nat): (r: Option<int>)
    ensures r.Some? <==> pos + 4 <= |bytes|
    ensures r.Some? ==> -Two31 <= r.value < Two31
  {
    if pos + 4 > |bytes| then None
    else
      var u := bytes[pos] as int * 0x100_0000 + bytes[pos + 1] as int * 0x1_0000 + bytes[pos + 2] as int * 0x100 + bytes[pos + 3] as int;
      Some(if u >= Two31 then u - Two32 else u)
  }

  /** The four bytes `DataOutputStream.writeInt` emits for v. */
  function IntBytes(v: int): (b: seq<Byte>)
    requires -Two31 <= v < Two31
    ensures |b| == 4
  {
    var u := if v < 0 then v + Two32 else v;
    var q1 := u / 0x100;
    var q2 := q1 / 0x100;
    var q3 := q2 / 0x100;
    [q3 % 0x100, q2 % 0x100, q1 % 0x100, u % 0x100]
  }

  /** Image t of a well-formed image file: 28 x 28, pixel (r, c) is byte
      16 + 784 t + 28 r + c divided by 255. */
  ghost function Image(bytes: seq<Byte>, t: nat): (m: Matrix)
    requires ImageHeader + ImageSize * (t + 1) <= |bytes|
    ensures m.Valid() && m.rows == ImageRows && m.cols == ImageCols
  {
    Matrix(28, 28,
      seq(28, r requires 0 <= r < 28 =>
        seq(28, c requires 0 <= c < 28 => bytes[ImageHeader + ImageSize * t + 28 * r + c] as real / 255.0)))
  }

  /** What `loadImages` returns: nothing unless the header reads as magic
      0x803, some count, 28, 28; then the first count images, or all the
      complete images the stream holds when it ends first. */
  ghost function DecodedImages(file: Option<seq<Byte>>): seq<Matrix>
  {
    if file.None? then []
    else
      var bytes := file.value;
      if |bytes| < ImageHeader || ReadInt(bytes, 0) != Some(ImageMagicNumber) ||
         ReadInt(bytes, 8) != Some(ImageRows) || ReadInt(bytes, 12) != Some(ImageCols) then []
      else
        var count := ReadInt(bytes, 4).value;
        var available := (|bytes| - ImageHeader) / ImageSize;
        var n := if count <= 0 then 0 else if count < available then count else available;
        seq(n, t requires 0 <= t < n => Image(bytes, t))
  }

  /** The one-hot column of label l: 10 x 1, 1.0 at row l, 0.0 elsewhere. */
  function OneHot(l: nat): (m: Matrix)
    requires l < 10
    ensures m.Valid() && m.rows == 10 && m.cols == 1
    ensures forall r :: 0 <= r < 10 ==> m.data[r][0] == if r == l then 1.0 else 0.0
  {
    Matrix(10, 1, seq(10, r requires 0 <= r < 10 => [if r == l then 1.0 else 0.0]))
  }

  /** Every byte in [from, to) is a digit 0..9. */
  ghost predicate Digits(bytes: seq<Byte>, from: nat, to: nat)
    requires from <= to <= |bytes|
  {
    forall k :: from <= k < to ==> bytes[k] < 10
  }

  /** What `loadLabels` returns: nothing unless the magic is 0x801; then the first
      count labels (fewer if the stream ends first) as one-hot columns.  A label
      of 10 or more indexes past the one-hot array, and that exception is not caught. */
  ghost function DecodedLabels(file: Option<seq<Byte>>): Result<seq<Matrix>>
  {
    if file.None? then Success([])
    else
      var bytes := file.value;
      if |bytes| < LabelHeader || ReadInt(bytes, 0) != Some(LabelMagicNumber) then Success([])
      else
        var count := ReadInt(bytes, 4).value;
        var available := |bytes| - LabelHeader;
        var n := if count <= 0 then 0 else if count < available then count else available;
        if !Digits(bytes, LabelHeader, LabelHeader + n) then Failure(IndexOutOfBounds)
        else Success(seq(n, t requires 0 <= t < n => OneHot(bytes[LabelHeader + t])))
  }

  /** `loadImages`. */
  method LoadImages(file: Option<seq<Byte>>) returns (images: seq<Matrix>)
    ensures images == DecodedImages(file)
  {
    images := [];
    if file.None? {
      return;  // FileNotFoundException, caught
    }
    var bytes := file.value;
    var magicNumber := ReadInt(bytes, 0);
    if magicNumber.None? || magicNumber.value != ImageMagicNumber {
      return;
    }
    var numImages := ReadInt(bytes, 4);
    var rows := ReadInt(bytes, 8);
    var cols := ReadInt(bytes, 12);
    if numImages.None? || rows.None? || cols.None? {
      return;  // EOFException, caught
    }
    if rows.value != ImageRows || cols.value != ImageCols {
      return;
    }
    ghost var available := (|bytes| - ImageHeader) / ImageSize;
    ghost var n := if numImages.value <= 0 then 0 else if numImages.value < available then numImages.value else available;
    var i := 0;
    while i < numImages.value
      invariant 0 <= i <= n
      invariant images == seq(i, t requires 0 <= t < i => Image(bytes, t))
      decreases numImages.value - i
    {
      var image := ReadImage(bytes, ImageHeader + ImageSize * i);
      if image.None? {
        // The stream ended inside image i: EOFException, caught.
        assert i == available;
        return;
      }
      assert i < available;
      images := images + [image.value];
      i := i + 1;
    }
  }

  /** The pixel loops of `loadImages` for one image starting at byte `start`:
      28 rows of 28 unsigned bytes, each divided by 255, then `new Matrix(pixelData)`.
      None when the stream ends first. */
  method ReadImage(bytes: seq<Byte>, start: nat) returns (r: Option<Matrix>)
    requires ImageHeader <= start && (start - ImageHeader) % ImageSize == 0
    ensures r.None? <==> |bytes| < start + ImageSize
    ensures r.Some? ==> r.value == Image(bytes, (start - ImageHeader) / ImageSize)
  {
    var pixelData := new real[28, 28]((_, _) => 0.0);
    var pos := start;
    for row := 0 to 28
      invariant pos == start + 28 * row && (row > 0 ==> pos <= |bytes|)
      invariant forall i, j :: 0 <= i < row && 0 <= j < 28 ==> pixelData[i, j] == bytes[start + 28 * i + j] as real / 255.0
    {
      for col := 0 to 28
        invariant pos == start + 28 * row + col && (row > 0 || col > 0 ==> pos <= |bytes|)
        invariant forall i, j :: 0 <= i < row && 0 <= j < 28 ==> pixelData[i, j] == bytes[start + 28 * i + j] as real / 255.0
        invariant forall j :: 0 <= j < col ==> pixelData[row, j] == bytes[start + 28 * row + j] as real / 255.0
      {
        if pos >= |bytes| {
          return None;
        }
        pixelData[row, col] := bytes[pos] as real / 255.0;
        pos := pos + 1;
      }
    }
    var m := OfArray(pixelData);
    ghost var t := (start - ImageHeader) / ImageSize;
    assert start == ImageHeader + ImageSize * t;
    Extensionality(m.value, Image(bytes, t));
    r := Some(m.value);
  }

  /** `new double[10][1]` with 1.0 written at row digit, as a matrix. */
  method NewOneHot(digit: nat) returns (m: Matrix)
    requires digit < 10
    ensures m == OneHot(digit)
  {
    var oneHot := new real[10, 1]((_, _) => 0.0);
    oneHot[digit, 0] := 1.0;
    var copy := OfArray(oneHot);
    Extensionality(copy.value, OneHot(digit));
    m := copy.value;
  }

  /** `loadLabels`. */
  method LoadLabels(file: Option<seq<Byte>>) returns (r: Result<seq<Matrix>>)
    ensures r == DecodedLabels(file)
  {
    var labels: seq<Matrix> := [];
    if file.None? {
      return Success(labels);  // FileNotFoundException, caught
    }
    var bytes := file.value;
    var magicNumber := ReadInt(bytes, 0);
    if magicNumber.None? || magicNumber.value != LabelMagicNumber {
      return Success(labels);
    }
    var numLabels := ReadInt(bytes, 4);
    if numLabels.None? {
      return Success(labels);  // EOFException, caught
    }
    ghost var available := |bytes| - LabelHeader;
    ghost var n := if numLabels.value <= 0 then 0 else if numLabels.value < available then numLabels.value else available;
    var pos := LabelHeader;
    var i := 0;
    while i < numLabels.value
      invariant 0 <= i <= n && pos == LabelHeader + i
      invariant Digits(bytes, LabelHeader, pos)
      invariant labels == seq(i, t requires 0 <= t < i => OneHot(bytes[LabelHeader + t]))
      decreases numLabels.value - i
    {
      if pos >= |bytes| {
        return Success(labels);  // EOFException, caught
      }
      var digit := bytes[pos];
      pos := pos + 1;
      if digit >= 10 {
        // oneHot[label] is out of bounds; nothing catches it.
        return Failure(IndexOutOfBounds);
      }
      var oneHot := NewOneHot(digit);
      labels := labels + [oneHot];
      i := i + 1;
    }
    return Success(labels);
  }

  /** The `MNISTDataset` constructor: both files decoded, then the `Dataset`
      constructor (and its shuffle, driven by choices).  An uncaught label
      index error ends construction. */
  method OpenDataset(imageFile: Option<seq<Byte>>, labelFile: Option<seq<Byte>>, choices: seq<int>)
    returns (r: Result<Dataset>)
    requires ValidChoices(choices, |DecodedImages(imageFile)|)
    ensures r.Failure? <==> DecodedLabels(labelFile).Failure?
    ensures r.Success? ==> (fresh(r.value) && r.value.Valid() && r.value.currentIndex == 0 &&
                            r.value.data == DecodedImages(imageFile) &&
                            r.value.outputs == DecodedLabels(labelFile).value)
  {
    var images := LoadImages(imageFile);
    var labels := LoadLabels(labelFile);
    if labels.Failure? {
      return Failure(labels.error);
    }
    var dataset := new Dataset(images, labels.value, choices);
    return Success(dataset);
  }

  // ---------------------------------------------------------------------
  // Properties
  // ---------------------------------------------------------------------

  /** `readInt` inverts `writeInt` on every 32-bit value. */
  lemma ReadIntBytes(v: int)
    requires -Two31 <= v < Two31
    ensures ReadInt(IntBytes(v), 0) == Some(v)
  {
    var u := if v < 0 then v + Two32 else v;
    var q1 := u / 0x100;
    var q2 := q1 / 0x100;
    var q3 := q2 / 0x100;
    assert u == q1 * 0x100 + u % 0x100;
    assert q1 == q2 * 0x100 + q1 % 0x100;
    assert q2 == q3 * 0x100 + q2 % 0x100;
    assert q1 < 0x100_0000 && q2 < 0x1_0000 && q3 < 0x100;
    var r0, r1, r2 := u % 0x100, q1 % 0x100, q2 % 0x100;
    assert q3 % 0x100 == q3;
    var b := IntBytes(v);
    assert b[0] as int == q3 && b[1] as int == r2 && b[2] as int == r1 && b[3] as int == r0;
    assert ((q3 * 0x100 + r2) * 0x100 + r1) * 0x100 + r0 == u;
    Positional(q3, r2, r1, r0);
  }

  /** Four base-256 digits, most significant first. */
  lemma Positional(d3: int, d2: int, d1: int, d0: int)
    ensures ((d3 * 0x100 + d2) * 0x100 + d1) * 0x100 + d0 == d3 * 0x100_0000 + d2 * 0x1_0000 + d1 * 0x100 + d0
  {
  }

  /** Every decoded pixel lies in [0, 1]. */
  lemma PixelsNormalised(file: Option<seq<Byte>>)
    ensures forall t, r, c :: 0 <= t < |DecodedImages(file)| && 0 <= r < 28 && 0 <= c < 28 ==>
              0.0 <= DecodedImages(file)[t].data[r][c] <= 1.0
  {
  }

  /** A wrong magic number or a header that is not 28 x 28 yields no image. */
  lemma BadImageHeader(bytes: seq<Byte>)
    requires ReadInt(bytes, 0) != Some(ImageMagicNumber) || ReadInt(bytes, 8) != Some(ImageRows) ||
             ReadInt(bytes, 12) != Some(ImageCols)
    ensures DecodedImages(Some(bytes)) == []
  {
  }

  /** On a stream cut inside an image, only the complete images are decoded. */
  lemma TruncatedImages(bytes: seq<Byte>, k: nat)
    requires ImageHeader <= |bytes| && ReadInt(bytes, 0) == Some(ImageMagicNumber)
    requires ReadInt(bytes, 8) == Some(ImageRows) && ReadInt(bytes, 12) == Some(ImageCols)
    requires ReadInt(bytes, 4).value > k
    requires ImageHeader + ImageSize * k <= |bytes| < ImageHeader + ImageSize * (k + 1)
    ensures |DecodedImages(Some(bytes))| == k
  {
  }

  /** A wrong magic number yields no label. */
  lemma BadLabelHeader(bytes: seq<Byte>)
    requires ReadInt(bytes, 0) != Some(LabelMagicNumber)
    ensures DecodedLabels(Some(bytes)) == Success([])
  {
  }

  /** Each decoded label is the one-hot column of its label byte, which is a digit. */
  lemma LabelsOneHot(bytes: seq<Byte>, t: nat)
    requires DecodedLabels(Some(bytes)).Success? && t < |DecodedLabels(Some(bytes)).value|
    ensures LabelHeader + t < |bytes| && bytes[LabelHeader + t] < 10
    ensures DecodedLabels(Some(bytes)).value[t] == OneHot(bytes[LabelHeader + t])
  {
  }
}
