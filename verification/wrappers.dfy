/** Option and Result types that stand in for nullable references and for
    the exceptions the modelled code throws. */
module Wrappers {

  /** A value that may be absent: `None` is C#'s `null`. */
  datatype Option<+T> = None | Some(value: T) {
    function GetOr(default: T): T {
      match this
      case Some(v) => v
      case None => default
    }
  }

  /** The exceptions the modelled code can raise, one constructor per kind. */
  datatype Fault =
    | DuplicateKey(key: string)          // Dictionary.Add with a key already present
    | ArgumentNull                       // a null argument (Guid.Parse(null))
    | BadFormat                          // FormatException from a parse
    | NoMatchingElement                  // Enumerable.First finding nothing
    | BadJson                            // a stored value that does not deserialise to the expected shape
    | ArgumentError(message: string)     // ArgumentException thrown by the code itself
    | ConstraintViolation                // the store refuses a row (primary key, unique index, length)

  /** Either a value or the fault that interrupted the computation. */
  datatype Result<+T> = Ok(value: T) | Err(fault: Fault) {
    predicate IsFailure() {
      Err?
    }

    function PropagateFailure<U>(): Result<U>
      requires Err?
    {
      Err(fault)
    }

    function Extract(): T
      requires Ok?
    {
      value
    }
  }
}
