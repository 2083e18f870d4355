/** Values shared by the student record, the grade components and the class
    registry: the validated score range, the caller's raw input, and the
    errors the core raises. */
module Common {

  /** A percentage or a grade component: a number in the closed range [0, 100].
      Every stored attendance and grade field has this type, so the range
      invariant holds in every state by construction. */
  type Score = r: real | 0.0 <= r <= 100.0

  /** What a caller hands to a validating setter, after Python's `float(v)`:
      a finite number, a float that is NaN or infinite (it parses, but every
      comparison with it is false or out of range), or something that does
      not parse as a number at all. */
  datatype Input = Num(value: real) | NonFinite | NotNumber

  datatype Option<T> = None | Some(value: T)

  /** The two exception classes the core raises, with their messages. */
  datatype Error = ValueError(msg: string) | KeyError(msg: string)

  /** A computed value or the exception raised instead. */
  datatype Result<T> = Ok(value: T) | Err(error: Error)

  /** A mutation that either completed or raised. */
  datatype Outcome = Pass | Fail(error: Error)

  /** The validation rule shared by every setter: the input is a number and
      lies in [0, 100]. */
  predicate Accepts(v: Input)
  {
    v.Num? && 0.0 <= v.value <= 100.0
  }
}
