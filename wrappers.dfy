/** Failure-compatible result types shared by the other modules. */
module Wrappers {

  /** An optional value; `None` stands for "absent" or for a parse that did not succeed. */
  datatype Option<+T> = None | Some(value: T) {

    predicate IsFailure() { None? }

    function PropagateFailure<U>(): Option<U>
      requires None?
    {
      None
    }

    function Extract(): T
      requires Some?
    {
      value
    }
  }
}
