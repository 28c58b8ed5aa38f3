/** Option and Result, with the exceptions the modelled code can raise. */
module Wrappers {

  datatype Option<+T> = None | Some(value: T)

  /** Why an operation stopped before producing its result. */
  datatype Error =
    | ValueError   // random.randint(a, b) called with b < a
    | IndexError   // random.choice on an empty list, popleft on an empty deque, s[i] past the end
    | Exhausted    // the recorded random draws ran out before the operation finished drawing

  /** A value, or the exception that replaced it. Usable with `:-`. */
  datatype Result<+T> = Ok(value: T) | Err(error: Error) {

    predicate IsFailure() {
      Err?
    }

    function PropagateFailure<U>(): Result<U>
      requires Err?
    {
      Err(error)
    }

    function Extract(): T
      requires Ok?
    {
      value
    }
  }
}
