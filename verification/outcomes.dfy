/** Values that may be missing (a NaN close, an unset environment variable)
    and outcomes of a call that either returns a value or raises an error,
    shared by the monitor's modules. */
module Outcomes {

  datatype Option<+T> = None | Some(value: T)

  /** One attempt of a remote call: it returned `value`, or it raised `error`. */
  datatype Attempt<+T, +E> = Ok(value: T) | Err(error: E)
}
