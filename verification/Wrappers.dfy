/** The one failure-compatible type shared by the models. */
module Wrappers {

  /** `None` stands for a read that leaves the buffer, a key that is absent or a document that is rejected. */
  datatype Option<+T> = None | Some(value: T) {

    predicate IsFailure() {
      None?
    }

    function PropagateFailure<U>(): Option<U>
      requires None?
    {
      None
    }

    function Extract(): T
      requires Some?
    {
      value
    }
  }
}
