/** Failure-compatible result and option types shared by the conductance model.

    The Python source signals its hard failures with `assert` statements and
    with exceptions raised by the libraries it calls; here each of those becomes
    an `Err` value with a constructor naming the failed check.
 */
module Results {

  /** The ways a call can fail before producing any output. */
  datatype Error =
    | InvalidChannel   // channel selector outside the accepted tokens
    | InvalidKp        // Kp outside the integers 0..6
    | MalformedTerm    // a Fourier term label whose last character is neither a digit nor 't'
    | ShapeMismatch    // mlat and mlt arrays that numpy cannot broadcast together
    | TableLength      // production table whose length differs from the fixed sza grid
    | NoCoefficients   // no coefficient row carries the Kp label, so the Epstein formula divides 0 by 0

  datatype Option<+T> = None | Some(value: T)

  datatype Result<+T> = Ok(value: T) | Err(error: Error) {

    predicate IsFailure() {
      Err?
    }

    function PropagateFailure<U>(): Result<U>
      requires Err?
    {
      Err(error)
    }

    function Extract(): T
      requires Ok?
    {
      value
    }
  }
}
