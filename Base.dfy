/** Option and Result values, and the Python exceptions the ingester can raise
    while it reads one decoded dump record. */
module Base {

  datatype Option<+T> = None | Some(value: T)

  datatype Result<+T, +E> = Success(value: T) | Failure(error: E)

  /** The exception classes that end `parse_data` for one entity. Each one
      reaches the generic handler of the driver loop and becomes an error record. */
  datatype Failure =
    | KeyError(key: string)        // a dictionary subscript with a missing key
    | IndexError                   // `entity[0]` on an empty identifier
    | TypeError                    // a subscript applied to a string or a number
    | AttributeError               // `.get` called on a string or a number
    | UnboundLocal(name: string)   // a local variable read before any assignment
}
