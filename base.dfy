/** Option and Result for the Python code's None values and raised exceptions. */
module Base {

  datatype Option<+T> = None | Some(value: T)

  /** The Python exceptions the modelled code raises, with the key or message they carry. */
  datatype PyError =
    | AttributeError(name: string)
    | KeyError(key: string)
    | IndexError
    | ValueError
    | TypeError
    | ZeroDivisionError
    | UserException(message: string)
    | UserError(message: string)

  /** The outcome of a call that either returns a value or raises. */
  datatype Result<+T> = Ok(value: T) | Err(error: PyError) {
    predicate IsFailure() {
      Err?
    }

    function PropagateFailure<U>(): Result<U>
      requires Err?
    {
      Err(error)
    }

    function Extract(): T
      requires Ok?
    {
      value
    }
  }

  /** `measurement_data`: channel name -> one optional reading per row. */
  type Channels = map<string, seq<Option<real>>>
}
