/** Option and Result types, and the kinds of failure the Python code raises. */
module Wrappers {

  datatype Option<+T> = None | Some(value: T)

  /** The exception classes the modelled code raises or lets escape, plus the
      `sys.exit(1)` that every `parse_args` uses to refuse bad arguments. */
  datatype Error =
    | ValueError
    | AttributeError
    | NotImplementedError
    | RuntimeError
    | KeyError
    | IndexError
    | FileNotFoundError
    | ArgumentError

  datatype Result<+T> = Ok(value: T) | Err(error: Error) {
    predicate IsFailure() { Err? }

    function PropagateFailure<U>(): Result<U>
      requires Err?
    {
      Err(error)
    }

    function Extract(): T
      requires Ok?
    {
      value
    }
  }
}
