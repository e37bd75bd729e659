/**
  The two collaborator types the list consumes or uses to report failure:
  the Option type of fslash.core (a value or nothing), and a Result that takes
  the place of the exceptions the list operations raise.
 */
module Wrappers {

  /** fslash.core's `Option_`: `Some(value)` or `Nothing`. */
  datatype Option<+T> = Nothing | Some(value: T)

  /** The three ways a list operation raises. */
  datatype Error =
    | EmptyList          // IndexError("List is empty") from head and tail of Nil
    | NotEnoughElements  // ValueError from take, skip, take_last and skip_last
    | NegativeStep       // TypeError("Negative step not supported.") from slice

  /** An operation either returns its value or raises one of the errors above. */
  datatype Result<+T> = Ok(value: T) | Fail(error: Error) {

    predicate IsFailure() {
      Fail?
    }

    function PropagateFailure<U>(): Result<U>
      requires Fail?
    {
      Fail(error)
    }

    function Extract(): T
      requires Ok?
    {
      value
    }
  }
}
