/** The outcome of the HTTP calls the uploader makes, and the exceptions it raises.
    Every request made with the `requests` library is replaced by a Reply supplied
    from outside: a response the caller goes on to read, or a RequestException. */
module Http {

  datatype Option<T> = None | Some(value: T)

  /** Why a call raised a RequestException. */
  datatype Failure =
    | Network(detail: string)   // connection error, timeout, ...
    | Status(code: int)         // HTTPError raised by raise_for_status

  /** The exceptions the core raises or lets through. */
  datatype Error =
    | RequestException(cause: Failure)
    | ValueError(message: string)

  /** What one network call gave back. For calls followed by raise_for_status,
      Answered means the status passed it, and an error status is Transient(Status(code)). */
  datatype Reply<T> = Answered(payload: T) | Transient(cause: Failure)

  datatype Result<T> = Ok(value: T) | Err(error: Error)

  /** raise_for_status raises for client (4xx) and server (5xx) error codes only. */
  predicate IsErrorStatus(code: int)
  {
    400 <= code < 600
  }

  function RaiseForStatus(code: int): Result<()>
  {
    if IsErrorStatus(code) then Err(RequestException(Status(code))) else Ok(())
  }
}
