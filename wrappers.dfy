/** Failure-carrying wrappers shared by every module of the model. */
module Wrappers {

  /** A value that may be absent: C# `null`, Python `None`, a missing dictionary key. */
  datatype Option<+T> = None | Some(value: T)

  /** The outcome of an operation that may raise: `Failure` is an exception the source does not catch. */
  datatype Result<+T> = Success(value: T) | Failure(error: string) {
    /** The members that let `:-` propagate a failure. */
    predicate IsFailure() {
      Failure?
    }

    function PropagateFailure<U>(): Result<U>
      requires Failure?
    {
      Failure(error)
    }

    function Extract(): T
      requires Success?
    {
      value
    }
  }

  /** `acc` in front of the list a successful result carries; a failure stays as it is. */
  function Prepend<T>(acc: seq<T>, r: Result<seq<T>>): Result<seq<T>> {
    if r.Failure? then r else Success(acc + r.value)
  }

  lemma PrependTwice<T>(a: seq<T>, b: seq<T>, r: Result<seq<T>>)
    ensures Prepend(a, Prepend(b, r)) == Prepend(a + b, r)
  {
    if r.Success? {
      assert a + (b + r.value) == (a + b) + r.value;
    }
  }
}
