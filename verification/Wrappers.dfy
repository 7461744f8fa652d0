/** The two result shapes the source uses: an optional value and a value-or-error. */
module Wrappers {

  datatype Option<+T> = None | Some(value: T)

  /** Failure-compatible: `:-` on a failure returns it, as `?` does in the source. */
  datatype Result<+T, +E> = Success(value: T) | Failure(error: E) {

    predicate IsFailure() {
      Failure?
    }

    function PropagateFailure<U>(): Result<U, E>
      requires Failure?
    {
      Failure(error)
    }

    function Extract(): T
      requires Success?
    {
      value
    }
  }

  /** A result without a value. */
  datatype Status<+E> = Pass | Fail(error: E) {
    predicate IsFailure() {
      Fail?
    }

    function PropagateFailure<U>(): Result<U, E>
      requires Fail?
    {
      Failure(error)
    }
  }

  /** A list made so far, put before what is still to be made. */
  function After<T, E>(done: seq<T>, rest: Result<seq<T>, E>): Result<seq<T>, E> {
    match rest
    case Failure(e) => Failure(e)
    case Success(items) => Success(done + items)
  }

  lemma AfterNothing<T, E>(rest: Result<seq<T>, E>)
    ensures After([], rest) == rest
  {
    if rest.Success? {
      assert [] + rest.value == rest.value;
    }
  }

  lemma AfterOne<T, E>(done: seq<T>, x: T, rest: Result<seq<T>, E>)
    ensures After(done, After([x], rest)) == After(done + [x], rest)
  {
    if rest.Success? {
      assert done + ([x] + rest.value) == done + [x] + rest.value;
    }
  }

  lemma AfterAll<T, E>(done: seq<T>)
    ensures After<T, E>(done, Success([])) == Success(done)
  {
    assert done + [] == done;
  }

  lemma AfterLast<T, E>(done: seq<T>, x: T, e: E)
    ensures After<T, E>(done, Success([x])) == Success(done + [x]) && After(done, Failure(e)) == Failure(e)
  {}
}
