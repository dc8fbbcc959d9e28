/** Option and Outcome: the model's stand-ins for Java's null returns and thrown exceptions. */
module Wrappers {

  /** A value or nothing, in place of a nullable reference. */
  datatype Option<+T> = None | Some(value: T) {
    predicate IsFailure()
    {
      None?
    }

    function PropagateFailure<U>(): Option<U>
      requires None?
    {
      None
    }

    function Extract(): T
      requires Some?
    {
      value
    }
  }

  /** Normal completion, or the exception a Java method would have thrown. */
  datatype Outcome<+E> = Pass | Fail(error: E)
}
