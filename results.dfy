/** Option and Result values that stand for the null pointers and the
    exceptions of the modelled code. */
module Results {

  datatype Option<+T> = None | Some(value: T)

  /** The C++ exception classes the core throws, by name. */
  datatype Error =
    | InvalidAccess        // Poco::InvalidAccessException
    | NotFound             // Poco::NotFoundException
    | SessionPoolExhausted // Poco::Data::SessionPoolExhaustedException
    | ConnectionFailed     // whatever the session factory throws
    | SessionFailed        // whatever a SessionImpl's setFeature or setProperty throws
    | OutOfMemory          // Poco::OutOfMemoryException
    | InvalidArgument      // Poco::InvalidArgumentException
    | Exists               // Poco::ExistsException
    | NullPointer          // what poco_check_ptr throws
    | Syntax               // Poco::SyntaxException, from NumberParser
    | PropertyNotSupported // Poco::PropertyNotSupportedException
    | Bugcheck             // poco_bugcheck_msg: a fatal consistency violation

  datatype Result<+T> = Ok(value: T) | Err(error: Error)

  /** The outcome of an operation that returns nothing but may throw. */
  datatype Status = Done | Failed(error: Error)
}
