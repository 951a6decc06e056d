/** Optional values, and results that are either a value or the error the program raises. */
module Outcomes {
  datatype Option<T> = None | Some(value: T)

  /** The exceptions the report code can raise on its inputs. */
  datatype Error =
    | ZeroDivision    // `x / 0` on Python numbers
    | InvalidKind     // `ValueError("Invalid usage chart kind")`
    | EmptySequence   // `min()` / `max()` of an empty list
    | IllegalMonth    // `calendar.monthrange` with a month outside 1..12

  datatype Result<T> = Success(value: T) | Failure(error: Error)
}
