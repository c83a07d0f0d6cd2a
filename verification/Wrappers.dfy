/** Option and Result, and the exceptions the codec raises. */
module Wrappers {

  datatype Option<+T> = None | Some(value: T)

  /** One constructor for each exception class that a read, a write or a
      conversion of the library can raise. */
  datatype Error =
    | ReadValueError          // exceptions.ReadValueError: wrong tag, type, length or padding
    | StructError             // struct.error: too few bytes, or a value that does not pack
    | ValueError              // not a member of an enumeration, or a missing field
    | TypeError
    | AttributeError          // a field of None
    | IndexError
    | UnicodeError            // a text byte outside ASCII
    | InvalidPrimitiveLength
    | InvalidPaddingBytes
    | StreamNotEmptyError
    | WriteOverflowError
    | InvalidKmipEncoding
    | InvalidField
    | AttributeNotSupported
    | NoValueType             // the bare Exception for an attribute name without a value class
    | VersionNotSupported
    | NotImplementedError
    | EofError
    | RequestLengthMismatch(expected: nat, received: nat)

  datatype Result<+T> = Ok(value: T) | Err(error: Error) {
    predicate IsFailure() {
      Err?
    }

    function PropagateFailure<U>(): Result<U>
      requires Err?
    {
      Err(error)
    }

    function Extract(): T
      requires Ok?
    {
      value
    }
  }
}
