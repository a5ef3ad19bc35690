/** The failures an evaluation can report instead of a crisp value. */
module Outcomes {

  /** Why a stage produced no crisp value. */
  datatype Error =
    /** The aggregated output set is zero at every sample point, so the centroid is undefined. */
    | NoRuleFired
    /** An antecedent of the stage was never given an input value. */
    | MissingInput(name: string)

  /** A crisp value, or the error that prevented computing it; usable with `:-`. */
  datatype Result<+T> = Success(value: T) | Failure(error: Error) {

    predicate IsFailure() {
      Failure?
    }

    function PropagateFailure<U>(): Result<U>
      requires Failure?
    {
      Failure(error)
    }

    function Extract(): T
      requires Success?
    {
      value
    }
  }
}
