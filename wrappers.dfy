/** Optional values and error returns shared by every module.

    `Option` stands for a value that the source keeps as `None` or NaN;
    `Result` stands for a function that either returns or raises one of the
    Python exceptions the workflow uses. */
module Wrappers {

  datatype Option<+T> = None | Some(value: T) {
    function GetOr(default: T): T {
      match this
      case Some(v) => v
      case None => default
    }
  }

  /** The exception classes the workflow raises. The message only carries
      the offending key or column name; wording is not modelled. */
  datatype Error =
    | ValueError(what: string)
    | KeyError(what: string)
    | FileNotFoundError(what: string)
    | UnicodeDecodeError(what: string)
    | ZeroDivisionError(what: string)

  datatype Result<+T> = Ok(value: T) | Err(error: Error)

  /** A text cell of a table row: the column may be absent from the row,
      hold NaN, or hold a string. */
  datatype Cell = Absent | NaN | Str(text: string)
}
