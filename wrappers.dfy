/** Optional values: `None` stands for Java's `null` and for "not found". */
module Wrappers {

  datatype Option<+T> = None | Some(value: T) {

    /** Lets `:-` stop at the first `None`, the way a thrown exception
        abandons the rest of a `try` block. */
    predicate IsFailure() {
      None?
    }

    function PropagateFailure<U>(): Option<U>
      requires None?
    {
      None
    }

    function Extract(): T
      requires Some?
    {
      value
    }
  }
}
