/** Failure-carrying results shared by the setup and stepping code.
    Python raises an exception where these return a failure value. */
module Outcomes {

  datatype Option<+T> = None | Some(value: T)

  /** The exception the source raises, named after its cause. */
  datatype Failure =
    | DivisionByZero        // ZeroDivisionError of a float or int division / modulo
    | GuardRegionTooSmall   // the ValueError of the exchange-period check
    | EmptyGrid             // `x.min()` of a zero-size array
    | GridIndexOutOfRange   // `x[1]` of a one-point array
    | UnknownFieldType      // the ValueError of `deposit`
    | NoComovingVelocity    // `None * 0.5` in the Galilean shift

  datatype Result<+T> = Ok(value: T) | Err(error: Failure)

  datatype Outcome = Pass | Fail(error: Failure)
}
