/** Small value wrappers shared by the other modules. */
module Wrappers {

  datatype Option<+T> = None | Some(value: T)

  /** The outcome of a computation that may abort the way a Go panic does. */
  datatype Outcome<+T> = Done(value: T) | Panic(reason: string)
}
