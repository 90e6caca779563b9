/** The error kinds of pkg/ds/errors.go and the two shapes the source's
    results take: a value or nothing, a value or an error. The message text
    that ds.WrapErr and fmt.Errorf add around a kind is not kept. */
module Errors {

  /** ds.ErrProcess, ds.ErrInvalid and ds.ErrMissing. */
  datatype Error = ErrProcess | ErrInvalid | ErrMissing

  datatype Option<+T> = None | Some(value: T)
  {
    function GetOr(default: T): T
    {
      match this
      case Some(v) => v
      case None => default
    }
  }

  /** A Go `(T, error)` return: `Ok` when the error is nil. */
  datatype Result<+T> = Ok(value: T) | Err(error: Error)
}
