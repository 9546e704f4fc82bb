/** The two result shapes used throughout: an optional value, and a value or an error. */
module Wrappers {
  datatype Option<+T> = None | Some(value: T)

  datatype Result<+T, +E> = Success(value: T) | Failure(error: E)

  function Min(a: int, b: int): int {
    if a <= b then a else b
  }

  /** Some element of a set. */
  method Pick<T>(s: set<T>) returns (x: T)
    requires s != {}
    ensures x in s
  {
    x :| x in s;
  }

  /** What comes of applying `f` to a list when the first failure ends it. */
  ghost predicate Collected<T, U, E>(items: seq<T>, f: T -> Result<U, E>, r: Result<seq<U>, E>) {
    match r
    case Success(values) => |values| == |items| && forall k | 0 <= k < |items| :: f(items[k]) == Success(values[k])
    case Failure(e) =>
      exists n: nat :: n < |items| && f(items[n]) == Failure(e) && forall k | 0 <= k < n :: f(items[k]).Success?
  }

  method Collect<T, U, E>(items: seq<T>, f: T -> Result<U, E>) returns (r: Result<seq<U>, E>)
    ensures Collected(items, f, r)
  {
    var values: seq<U> := [];
    for i := 0 to |items|
      invariant |values| == i && forall k | 0 <= k < i :: f(items[k]) == Success(values[k])
    {
      var next := f(items[i]);
      if next.Failure? {
        return Failure(next.error);
      }
      values := values + [next.value];
    }
    r := Success(values);
  }
}
