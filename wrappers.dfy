/** Failure-carrying results shared by every module of the model.
    The Python code signals failure by raising; each exception class it
    raises becomes one constructor of `Error`. */
module Wrappers {

  /** The exceptions the modelled code raises. */
  datatype Error =
    | KeyError(key: string)   // a missing dictionary key or registry entry
    | ValueError              // a malformed point, unit name or currency code
    | AttributeError          // a second write to a write-once attribute, or an unset attribute
    | IndexError              // an out-of-range list index
    | TypeError               // an unhashable (list) value used as a dictionary key
    | ZeroDivisionError       // a float division by zero
    | HeaderMismatch          // the bare Exception raised for a record of the wrong length

  datatype Option<T> = None | Some(value: T)

  datatype Result<T> = Ok(value: T) | Err(error: Error)

  /** The outcome of an operation that returns nothing on success. */
  datatype Outcome = Pass | Fail(error: Error)
}
