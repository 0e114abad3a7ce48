/** Shared vocabulary: results, the errors the program can raise, and Python's
    `x is True` test on keyword flags. */
module Common {

  datatype Option<+T> = None | Some(value: T)

  /** The exceptions the modelled code can raise (or, for `sys.exit`, the
      aborted command). */
  datatype Error =
    | PathInvalid(path: string)       // normalize_path: empty path
    | PathMissing(path: string)       // normalize_path: path does not exist
    | DatabaseMissing(path: string)   // open_database: logs and exits
    | FileMissing(path: string)       // opening a file that is not there
    | ParseError                      // YAML loader rejects the text
    | KeyError(key: string)           // mapping lookup of a missing key
    | LevelKeyError(level: int)       // lookup of a log level missing from a table
    | TypeError                       // operation on a value of the wrong kind
    | AttributeError                  // method missing on a value of the wrong kind
    | ValueError                      // bad unpacking or number text
    | ZeroDivision                    // division by zero
    | AssertionFailed                 // a failing `assert` statement
    | BadParameter(path: string)      // click refuses an option value

  datatype Result<+T> = Ok(value: T) | Err(error: Error) {
    predicate IsFailure() { Err? }
    function PropagateFailure<U>(): Result<U> requires Err? { Err(error) }
    function Extract(): T requires Ok? { value }
  }

  /** A keyword argument compared with `is True`: only the `True` object
      passes, any other value (1, "yes", False, None) does not. */
  datatype Flag = ExactlyTrue | OtherValue {
    predicate IsTrue() { ExactlyTrue? }
  }
}
