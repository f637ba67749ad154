/** Value shapes shared by every module of the model. */
module Common {

  /** Go's nil-or-value, for optional results and nullable fields holding values. */
  datatype Option<+T> = None | Some(value: T)

  /** A Go `(value, error)` pair where exactly one side is meaningful. */
  datatype Result<+T> = Ok(value: T) | Err(error: Error)

  /** A Go `error` value; only its message is modelled. */
  datatype Error = Error(message: string)

  /** The distinguished error a backend returns for an operation it cannot perform
      (backends/structs.go). */
  const ErrUnsupportedOperation: Error := Error("unsupported operation")
}
