/** Small value wrappers shared by every module of the model. */
module Common {

  /** A JavaScript value that may be `null`/`undefined` (None) or present (Some). */
  datatype Option<+T> = None | Some(value: T)

  /** How a promise settled: with a value, or by rejecting. */
  datatype Outcome<+T> = Fulfilled(value: T) | Rejected
}
