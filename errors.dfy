/** Bytes, error kinds and the optional-error type shared by every writer. */
module Errors {

  newtype byte = x: int | 0 <= x < 256

  /** The errors a writer can report. `AlreadyClosed` and `TooLargeWrite` are the
      package's two sentinel errors; `Wrapped` is an error decorated with context
      (what `fmt.Errorf("...%w", e)` builds); `Other` stands for any error that comes
      from outside the package (a file system, a network, a callback). */
  datatype Err =
    | AlreadyClosed
    | TooLargeWrite
    | Wrapped(inner: Err)
    | Other(code: nat)

  /** Go's `error` result: `None` is nil. */
  datatype Option<+T> = None | Some(value: T)
}
