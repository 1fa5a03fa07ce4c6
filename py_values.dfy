/** The Python values the chamber client passes around: optional results,
    the exceptions it lets escape, and the decoded values of a reply. */
module PyValues {

  /** Python's `None` or a value. */
  datatype Option<+T> = None | Some(value: T)

  /** The exceptions that can escape from the client's operations. */
  datatype PyError =
    | ValueError       // int() or float() given text it cannot parse
    | AttributeError   // a string method called on an element without text
    | KeyError         // `del` of a key the dict does not hold
    | TransportError   // any HTTP failure that the client does not catch

  /** A value returned normally, or an exception raised. */
  datatype Result<+T> = Ok(value: T) | Err(error: PyError)

  /** A decoded value, or a value placed in a query string: Python's bool,
      int, float (modelled exactly, as a real) and str. */
  datatype Value = Bool(b: bool) | Int(i: int) | Float(x: real) | Str(s: string)
}
