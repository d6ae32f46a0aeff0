/** Small value types shared by the executor and the HTTP adapter. */
module Outcomes {

  /** A slot that may be empty: an unset callback, no task in flight, a missing field. */
  datatype Option<+T> = None | Some(value: T)

  /** How a synchronous call into user code ends: it returns, or it throws an error. */
  datatype Completion = Returned | Threw(error: string)

  /** How an awaited promise settles: fulfilled with a value, or rejected with an error. */
  datatype Settlement<+V> = Fulfilled(value: V) | Rejected(error: string)
}
