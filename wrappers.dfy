/** Option for Go's nil-able pointers and maps, and Outcome for a Go `error` result. */
module Wrappers {

  datatype Option<+T> = None | Some(value: T)

  /** What a Go function returning `error` returns: nil (Pass) or an error carrying its message. */
  datatype Outcome = Pass | Fail(message: string)
}
