/** Failure-compatible Option and Result types used throughout the model. */
module Wrappers {

  datatype Option<+T> = None | Some(value: T) {
    predicate IsFailure() {
      None?
    }

    function PropagateFailure<U>(): Option<U>
      requires None?
    {
      None
    }

    function Extract(): T
      requires Some?
    {
      value
    }
  }

  /** The outcome of a call that either returns a value or raises an error. */
  datatype Result<+T, +E> = Success(value: T) | Failure(error: E) {
    predicate IsFailure() {
      Failure?
    }

    function PropagateFailure<U>(): Result<U, E>
      requires Failure?
    {
      Failure(error)
    }

    function Extract(): T
      requires Success?
    {
      value
    }
  }

  /** The outcome of a call that returns nothing or raises an error. */
  datatype Outcome<+E> = Pass | Fail(error: E)

  /** Applies `f` to every element in order; the first failure is the result. */
  function MapAll<A, B, E>(xs: seq<A>, f: A --> Result<B, E>): Result<seq<B>, E>
    requires forall i :: 0 <= i < |xs| ==> f.requires(xs[i])
  {
    if |xs| == 0 then Success([])
    else
      match f(xs[0])
      case Failure(e) => Failure(e)
      case Success(y) =>
        match MapAll(xs[1..], f)
        case Failure(e) => Failure(e)
        case Success(ys) => Success([y] + ys)
  }

  /** `MapAll` succeeds exactly when `f` succeeds on every element, and then gives
      one result per element, in order. */
  lemma {:induction false} MapAllSuccess<A, B, E>(xs: seq<A>, f: A --> Result<B, E>)
    requires forall i :: 0 <= i < |xs| ==> f.requires(xs[i])
    ensures MapAll(xs, f).Success? <==> forall i :: 0 <= i < |xs| ==> f(xs[i]).Success?
    ensures MapAll(xs, f).Success? ==>
      |MapAll(xs, f).value| == |xs|
      && forall i :: 0 <= i < |xs| ==> MapAll(xs, f).value[i] == f(xs[i]).value
  {
    if |xs| > 0 {
      MapAllSuccess(xs[1..], f);
      assert forall i :: 1 <= i < |xs| ==> xs[1..][i - 1] == xs[i];
      if f(xs[0]).Success? && MapAll(xs[1..], f).Success? {
        var ys := MapAll(xs[1..], f).value;
        assert MapAll(xs, f).value == [f(xs[0]).value] + ys;
      }
    }
  }

  /** When `f` fails first on element `i`, `MapAll` fails with that error. */
  lemma {:induction false} MapAllFirstFailure<A, B, E>(xs: seq<A>, f: A --> Result<B, E>, i: nat)
    requires forall j :: 0 <= j < |xs| ==> f.requires(xs[j])
    requires i < |xs| && f(xs[i]).Failure?
    requires forall j :: 0 <= j < i ==> f(xs[j]).Success?
    ensures MapAll(xs, f) == Failure(f(xs[i]).error)
  {
    if i > 0 {
      assert forall j :: 0 <= j < i - 1 ==> xs[1..][j] == xs[j + 1];
      MapAllFirstFailure(xs[1..], f, i - 1);
    }
  }

  /** A failing `MapAll` failed on some element, and `f` succeeded on all before it. */
  lemma {:induction false} MapAllFailure<A, B, E>(xs: seq<A>, f: A --> Result<B, E>) returns (i: nat)
    requires forall j :: 0 <= j < |xs| ==> f.requires(xs[j])
    requires MapAll(xs, f).Failure?
    ensures i < |xs| && f(xs[i]) == Failure(MapAll(xs, f).error)
    ensures forall j :: 0 <= j < i ==> f(xs[j]).Success?
  {
    if f(xs[0]).Failure? {
      i := 0;
    } else {
      var k := MapAllFailure(xs[1..], f);
      i := k + 1;
      assert xs[1..][k] == xs[i];
      assert forall j :: 1 <= j < i ==> xs[1..][j - 1] == xs[j];
    }
  }
}
