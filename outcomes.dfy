/** Values shared by every component of the controller. */
module Outcomes {

  /** A Go `error` value: `Ok` stands for `nil`, `Fail` carries the text of `err.Error()`. */
  datatype Outcome = Ok | Fail(message: string)

  datatype Option<+T> = None | Some(value: T)
}
