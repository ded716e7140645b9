/** Shared vocabulary of the model: optional values, Go's int64 arithmetic,
    the float64 values a metric can take, and the errors a run can report. */
module Common {

  datatype Option<+T> = None | Some(value: T)

  datatype Result<+T> = Success(value: T) | Failure(error: Error)

  /** The errors FetchMetrics can return or log. The file-system and JSON
      failures of the snapshot file are grouped by the step that failed. */
  datatype Error =
    | CreateFailed         // os.Create of the snapshot file failed
    | WriteFailed          // the file was created (truncated) but writing the JSON failed
    | ReadFailed           // reading or decoding the snapshot file failed
    | NoPreviousTime       // "failed to get previous time"
    | TooLongDuration      // "too long duration"

  const TwoTo64: int := 0x1_0000_0000_0000_0000
  const Int64Min: int := -0x8000_0000_0000_0000
  const Int64Max: int := 0x7FFF_FFFF_FFFF_FFFF

  type Int64 = x: int | Int64Min <= x <= Int64Max

  /** Two's-complement wrap-around of an unbounded integer into int64: the
      unique int64 congruent to x modulo 2^64. */
  function Wrap64(x: int): (r: Int64)
    ensures (x - r) % TwoTo64 == 0
    ensures Int64Min <= x <= Int64Max ==> r == x
  {
    var q := (x - Int64Min) / TwoTo64;
    var m := (x - Int64Min) % TwoTo64;
    assert x - Int64Min == q * TwoTo64 + m;
    assert x - (m + Int64Min) == q * TwoTo64;
    m + Int64Min
  }

  /** A float64 as far as this model needs one: an exact real number, or one
      of the non-finite values that a division by zero yields. */
  datatype Float = Finite(value: real) | PosInf | NegInf | NaN

  /** IEEE-754 division by a divisor that is either non-zero or +0. */
  function Div(x: real, y: real): (r: Float)
    ensures y != 0.0 ==> r == Finite(x / y)
    ensures r == NaN <==> y == 0.0 && x == 0.0
    ensures r == PosInf <==> y == 0.0 && x > 0.0
    ensures r == NegInf <==> y == 0.0 && x < 0.0
  {
    if y != 0.0 then Finite(x / y)
    else if x > 0.0 then PosInf
    else if x < 0.0 then NegInf
    else NaN
  }
}
