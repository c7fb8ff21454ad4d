// Optional values, results and the exceptions the modelled code raises.
module Errors {

  datatype Option<+T> = None | Some(value: T)
  {
    function GetOr(default: T): T
    {
      if Some? then value else default
    }
  }

  /** The Python exceptions that the modelled operations raise. */
  datatype Error =
    | LawElementNumberError(detail: string)
    | HieralchyError(detail: string)
    | TypeError(detail: string)
    | AssertionError(detail: string)
    | AttributeError(detail: string)
    | IndexError(detail: string)
    | ValueError(detail: string)
    | KeyError(detail: string)
    | NameError(detail: string)
    | GenericException(detail: string)

  datatype Result<+T> = Ok(value: T) | Err(error: Error)
  {
    predicate IsFailure()
    {
      Err?
    }

    function PropagateFailure<U>(): Result<U>
      requires Err?
    {
      Err(error)
    }

    function Extract(): T
      requires Ok?
    {
      value
    }
  }
}
