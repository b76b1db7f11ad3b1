module Options {
  datatype Option<+T> = None | Some(value: T)

  /** What an operation gives that stops where a reference count or a slot number would exceed its
      31 bits. */
  datatype Outcome<+T> = Done(value: T) | Overflow {

    predicate IsFailure() {
      Overflow?
    }

    function PropagateFailure<U>(): Outcome<U>
      requires Overflow?
    {
      Overflow
    }

    function Extract(): T
      requires Done?
    {
      value
    }
  }
}
