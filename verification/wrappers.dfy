/**
 Failure-compatible result types shared by every module of the model.

 The Python code signals failure by raising; each raise the model follows
 becomes a `Failure` carrying the kind of exception that would have escaped.
 */
module Wrappers {

  datatype Option<+T> = None | Some(value: T)

  /** The exception kinds the modelled code can raise. */
  datatype Error =
    | KeyError(key: string)   // subscript of a missing dictionary key
    | TypeError               // subscript, iteration or method call on a value of the wrong kind
    | ValueError              // int() of a non-number, unpacking the wrong number of fields, unknown enum value
    | ZeroDivisionError       // floor division by zero
    | RequestError            // the HTTP post itself failed

  datatype Result<+T> = Success(value: T) | Failure(error: Error) {

    predicate IsFailure() {
      Failure?
    }

    function PropagateFailure<U>(): Result<U>
      requires Failure?
    {
      Failure(error)
    }

    function Extract(): T
      requires Success?
    {
      value
    }
  }

  /** A loop that applies `f` to each element in order and lets the first
      exception escape: the results of every element, or the failure of the
      first element that fails. */
  function MapAll<A, B>(f: A -> Result<B>, xs: seq<A>): (r: Result<seq<B>>)
    ensures r.Success? <==> forall i :: 0 <= i < |xs| ==> f(xs[i]).Success?
    ensures r.Success? ==> |r.value| == |xs|
    ensures r.Success? ==> forall i :: 0 <= i < |xs| ==> f(xs[i]) == Success(r.value[i])
    ensures r.Failure? ==> exists i :: 0 <= i < |xs| && f(xs[i]) == Failure(r.error) && forall j :: 0 <= j < i ==> f(xs[j]).Success?
    decreases |xs|
  {
    if |xs| == 0 then Success([])
    else
      var first :- f(xs[0]);
      var rest := MapAll(f, xs[1..]);
      if rest.Failure? then
        var i :| 0 <= i < |xs| - 1 && f(xs[1..][i]) == Failure(rest.error) && forall j :: 0 <= j < i ==> f(xs[1..][j]).Success?;
        assert f(xs[i + 1]) == Failure(rest.error);
        assert forall j :: 0 <= j < i + 1 ==> f(xs[j]).Success? by {
          forall j | 0 <= j < i + 1 ensures f(xs[j]).Success? {
            if j > 0 {
              assert xs[j] == xs[1..][j - 1];
            }
          }
        }
        Failure(rest.error)
      else
        assert forall i :: 1 <= i < |xs| ==> xs[i] == xs[1..][i - 1];
        Success([first] + rest.value)
  }

  /** A loop that extends a list with the results of `f` on each element in
      order and lets the first exception escape: every element's results,
      the first element's first, or the failure of the first element that
      fails. */
  function ConcatAll<A, B>(f: A -> Result<seq<B>>, xs: seq<A>): (r: Result<seq<B>>)
    ensures r.Success? <==> forall i :: 0 <= i < |xs| ==> f(xs[i]).Success?
    ensures r.Success? ==> forall i, y :: 0 <= i < |xs| && y in f(xs[i]).value ==> y in r.value
    ensures r.Success? ==> forall y :: y in r.value ==> exists i :: 0 <= i < |xs| && y in f(xs[i]).value
    ensures r.Success? && |xs| > 0 ==> f(xs[0]).value <= r.value
    ensures r.Failure? ==> exists i :: 0 <= i < |xs| && f(xs[i]) == Failure(r.error) && forall j :: 0 <= j < i ==> f(xs[j]).Success?
    decreases |xs|
  {
    if |xs| == 0 then Success([])
    else
      var first :- f(xs[0]);
      var rest := ConcatAll(f, xs[1..]);
      assert forall i :: 1 <= i < |xs| ==> xs[i] == xs[1..][i - 1];
      if rest.Failure? then
        var i :| 0 <= i < |xs| - 1 && f(xs[1..][i]) == Failure(rest.error) && forall j :: 0 <= j < i ==> f(xs[1..][j]).Success?;
        assert f(xs[i + 1]) == Failure(rest.error);
        Failure(rest.error)
      else
        var r := first + rest.value;
        assert forall y :: y in rest.value ==> y in r;
        assert forall y :: y in r ==> y in first || y in rest.value;
        Success(r)
  }
}
