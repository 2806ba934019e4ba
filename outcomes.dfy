/** Failure values shared by every module: the exceptions the core throws,
    and the two "no value" outcomes it has (Java's null and NaN). */
module Outcomes {

  /** The exceptions (and NaN) the modelled code can produce. */
  datatype Error =
    | DimensionMismatch     // IllegalArgumentException from a shape check
    | UnsupportedOperation  // UnsupportedOperationException (SOFTMAX applied per element)
    | IndexOutOfBounds      // ArrayIndexOutOfBoundsException / IndexOutOfBoundsException
    | NegativeArraySize     // NegativeArraySizeException from `new double[n][m]` with n or m < 0
    | NotANumber            // a 0.0 / 0 quotient, which Java returns as NaN
    | EndOfStream           // EOFException: a read past the end of the stream
    | InvalidFormat         // IOException raised on a wrong magic number or header
    | TokenMismatch         // the next token of a stream is not of the kind being read

  datatype Result<+T> = Success(value: T) | Failure(error: Error)

  datatype Option<+T> = None | Some(value: T)

  /** A positive real: the range of `Math.exp` and the domain on which `Math.log` is finite. */
  type Positive = x: real | x > 0.0 witness 1.0
}
