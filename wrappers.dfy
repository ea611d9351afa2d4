/** Option and the outcome of a JavaScript call: it returns a value or throws. */
module Wrappers {

  datatype Option<+T> = None | Some(value: T)

  /** What a call of the linter's code does: returns `value`, or lets a
      `TypeError` escape (reading a property of `undefined`). */
  datatype Outcome<+T> = Returned(value: T) | Threw
}
