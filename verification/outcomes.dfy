/** Failure-carrying results shared by the whole model.

    The Python program signals every failure by raising an exception that
    aborts the run; here each such exception becomes an `Err` value with a
    kind that names where it would have been raised. */
module Outcomes {

  /** A value that may be absent. */
  datatype Option<+T> = None | Some(value: T)

  /** Why a run aborts.
      - the three `Invalid…` kinds are the `ValueError`s of the name checks;
      - `MissingColumn` is pandas' `KeyError`/`AttributeError` for an absent column;
      - `InvalidSmiles` is RDKit refusing a structure cell that is not text;
      - `MultipleColumns` is pandas' `ValueError` for assigning a selection
        that holds several columns of that name to a single column;
      - `EmptyReference` is Python's built-in `max`, `statistics.mean` or
        `numpy.percentile` refusing an empty list of similarities. */
  datatype Error =
    | InvalidFingerprintType(fingerprint: string)
    | InvalidSimilarityFunction(similarity: string)
    | InvalidScoringMethod(scoring: string)
    | MissingColumn(column: string)
    | InvalidSmiles
    | MultipleColumns(column: string)
    | EmptyReference

  /** Success with a value, or the error that aborted the run; usable with `:-`. */
  datatype Result<+T> = Ok(value: T) | Err(error: Error) {

    predicate IsFailure() {
      Err?
    }

    function PropagateFailure<U>(): Result<U>
      requires Err?
    {
      Err(error)
    }

    function Extract(): T
      requires Ok?
    {
      value
    }
  }
}
