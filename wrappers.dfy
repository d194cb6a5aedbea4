/** The Option type the model uses for Python code paths that may raise. */
module Wrappers {

  /** `None` stands for "an exception was raised here" (or "no value"), `Some(v)` for a result. */
  datatype Option<+T> = None | Some(value: T) {

    predicate IsFailure() {
      None?
    }

    function PropagateFailure<U>(): Option<U>
      requires None?
    {
      None
    }

    function Extract(): T
      requires Some?
    {
      value
    }
  }
}
