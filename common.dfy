/** Value wrappers shared by every module of the model: optional values,
    results, and the errors the Go code returns. */
module Common {

  /** Go's nil-or-value, and variadic parameters that are either absent or given. */
  datatype Option<+T> = None | Some(value: T)

  /** An `error` the Go code either builds itself from a fixed message
      (`errors.New("...")`, `format.Error("...")`), or receives from code
      outside the model (a handler, a worker's Init, the file system),
      in which case only its identity matters. */
  datatype Error = Msg(text: string) | External(id: nat)

  /** The `(value, error)` pair of a Go function, in which exactly one half is meaningful. */
  datatype Result<+T> = Ok(value: T) | Err(error: Error)

  /** Bytes, as Go's `[]byte` holds them. */
  newtype byte = x: int | 0 <= x < 256
}
