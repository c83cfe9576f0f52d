/** Small value wrappers shared by the CodeDust model. */
module Wrappers {

  /** Python's `None` or a present value. */
  datatype Option<T> = None | Some(value: T)

  /** What a Python generator produced: either it ran to its end, or it raised an
      exception after yielding `items`. */
  datatype Outcome<T> = Completed(items: seq<T>) | Raised(items: seq<T>)
}
