/** Result types and the source of failures shared by every part of the model. */
module Common {

  datatype Option<+T> = None | Some(value: T)

  /** A value, or the error the script would have thrown. */
  datatype Result<+T, +E> = Success(value: T) | Failure(error: E) {

    predicate IsFailure() {
      Failure?
    }

    function PropagateFailure<U>(): Result<U, E>
      requires Failure?
    {
      Failure(error)
    }

    function Extract(): T
      requires Success?
    {
      value
    }
  }

  /** Like Result, for operations that return nothing. */
  datatype Outcome<+E> = Pass | Fail(error: E) {

    predicate IsFailure() {
      Fail?
    }

    function PropagateFailure<U>(): Result<U, E>
      requires Fail?
    {
      Failure(error)
    }
  }

  /** The elements of a list, without their order. */
  function Elements<T>(xs: seq<T>): set<T> {
    set x | x in xs
  }

  lemma EmptyOrInhabited<T>(xs: seq<T>)
    ensures xs == [] || exists x :: x in xs
  {
    if xs != [] {
      assert xs[0] in xs;
    }
  }

  /** Every call to the outside asks here whether it fails; `hit` records that one did. */
  class Faults {
    var hit: bool

    constructor ()
      ensures !hit
    {
      hit := false;
    }

    method Strike() returns (bad: bool)
      modifies this
      ensures hit == (old(hit) || bad)
    {
      bad := *;
      hit := hit || bad;
    }
  }
}
