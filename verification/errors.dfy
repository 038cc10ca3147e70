/** Error values and the failure-compatible Result type used by every layer.
    The three error kinds are the Python exceptions the library raises (or lets
    escape) on misuse. */
module Errors {

  /** Python exception classes that the modelled code can raise. */
  datatype Error =
    | ValueError      // bad boundaries token, bad operator arity, keywords mixed with children
    | TypeError       // non-numeric boost factor
    | AttributeError  // compiling a Q object that has neither children nor a field

  datatype Option<+T> = None | Some(value: T) {

    predicate IsFailure() {
      None?
    }

    function PropagateFailure<U>(): Option<U>
      requires None?
    {
      None
    }

    function Extract(): T
      requires Some?
    {
      value
    }
  }

  datatype Result<+T> = Ok(value: T) | Err(error: Error) {

    predicate IsFailure() {
      Err?
    }

    function PropagateFailure<U>(): Result<U>
      requires Err?
    {
      Err(error)
    }

    function Extract(): T
      requires Ok?
    {
      value
    }
  }
}
