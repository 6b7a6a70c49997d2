/** Values shared by every module: Go's (value, error) pairs, the errors the
    host can report, and byte strings. */
module Base {

  datatype Option<T> = None | Some(value: T)

  /** An error value as the package sees it.  Errors reported by the operating
      system, the identity database or the service manager are inputs to the
      model; the only distinction the package draws between them is whether
      `os.IsNotExist` holds.  `Wrapped` is an error built with `fmt.Errorf`
      around another one. */
  datatype Error =
    | NotExist(detail: string)
    | Failure(detail: string)
    | Wrapped(message: string, cause: Error)

  /** os.IsNotExist: the error says that the path does not exist.  It does
      not look inside an error wrapped with `fmt.Errorf`. */
  predicate IsNotExist(e: Error): (b: bool)
    ensures e.NotExist? ==> b
    ensures e.Failure? || e.Wrapped? ==> !b
  {
    e.NotExist?
  }

  /** The outcome of a call into the host: a value, or an error and no value. */
  datatype Result<T> = Ok(value: T) | Err(error: Error)

  /** A Go return pair `(T, error)`: a value always comes back, and `err` is
      `None` for a nil error. */
  datatype Reply<T> = Reply(value: T, err: Option<Error>)

  newtype byte = x: int | 0 <= x < 256

  type Bytes = seq<byte>
}
