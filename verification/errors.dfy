/** The error type of src/error.rs and the result and option types built on it. */
module GridErrors {
  datatype GridError =
    | Validation(message: string)
    | Backend(message: string)
    | Codec(message: string)
    | NotFound(message: string)
    | ContractDeleted
  {
    /** The text `{err}` prints. */
    function Display(): string {
      match this
      case Validation(m) => "invalid input: " + m
      case Backend(m) => "backend error: " + m
      case Codec(m) => "serde error: " + m
      case NotFound(m) => "not found: " + m
      case ContractDeleted => "contract is deleted"
    }

    /** `map_err` with a context prefix. */
    function Within(context: string): GridError {
      Backend(context + ": " + Display())
    }
  }

  datatype Option<+T> = None | Some(value: T) {
    function GetOr(default: T): T {
      match this
      case Some(v) => v
      case None => default
    }
  }

  datatype Result<+T> = Ok(value: T) | Err(error: GridError) {
    predicate IsFailure() {
      Err?
    }

    function PropagateFailure<U>(): Result<U>
      requires Err?
    {
      Err(error)
    }

    function Extract(): T
      requires Ok?
    {
      value
    }
  }
}
