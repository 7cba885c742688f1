/** Small value types shared by every component of the model. */
module Common {

  /** A JavaScript value that may be `null`/`undefined`. */
  datatype Option<+T> = None | Some(value: T)

  /** How a promise awaited by a handler or an effect settled: it resolved
      with a value, or it rejected (a thrown exception). */
  datatype Settled<+T> = Resolved(value: T) | Rejected
}
