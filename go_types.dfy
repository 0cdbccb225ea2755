// Value shapes shared by the model of the Go package: nil-able values, Go's
// `error`, the `(T, error)` pair Go functions return, and bytes.

module GoTypes {

  /** A Go pointer or slice that may be nil: `None` is nil. */
  datatype Option<+T> = None | Some(value: T)

  /** A Go `error` value; only its message is observable. */
  datatype Error = Error(msg: string)

  /** The `(T, error)` pair a Go function returns; `err == None` is a nil error. */
  datatype Ret<+T> = Ret(value: T, err: Option<Error>)

  /** One byte of a Go string or byte slice. */
  type byte = x: int | 0 <= x < 256
}
