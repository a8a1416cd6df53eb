/** Small result types shared by the model: Python's `None`, raised exceptions and their causes. */
module Wrappers {

  /** A value that may be absent (Python's `Optional`, SQL's NULL). */
  datatype Option<+T> = None | Some(value: T)

  /** The exceptions the modelled code can raise. */
  datatype Error =
    | StatisticsError   // raised by `statistics.quantiles` / `statistics.mean` on an empty sample
    | StorageError      // any failure of a database statement or commit

  /** A computation that returns a value or raises. */
  datatype Result<+T> = Ok(value: T) | Err(error: Error)

  /** A statement that completes or raises. */
  datatype Outcome = Pass | Fail(error: Error)
}
