/** Failure-compatible result and option types used by the generator.
    `Result` carries the text of the `Error` the generator would throw. */
module Wrappers {

  datatype Option<+T> = None | Some(value: T) {

    predicate IsFailure() {
      None?
    }

    function PropagateFailure<U>(): Option<U>
      requires None?
    {
      None
    }

    function Extract(): T
      requires Some?
    {
      value
    }
  }

  datatype Result<+T> = Success(value: T) | Failure(error: string) {

    predicate IsFailure() {
      Failure?
    }

    function PropagateFailure<U>(): Result<U>
      requires Failure?
    {
      Failure(error)
    }

    function Extract(): T
      requires Success?
    {
      value
    }
  }

  /** Element `i` is the first failure of `rs`, and its error is `e`. */
  predicate FirstFailureAt<T>(rs: seq<Result<T>>, e: string, i: int) {
    0 <= i < |rs| && rs[i] == Failure(e) &&
    forall j :: 0 <= j < i ==> rs[j].Success?
  }

  /** All the values when every element succeeds, else the first element's error:
      what a JavaScript `map` whose callback may throw yields. */
  function Collect<T>(rs: seq<Result<T>>): (r: Result<seq<T>>)
    ensures r.Success? <==> forall i :: 0 <= i < |rs| ==> rs[i].Success?
    ensures r.Success? ==> (|r.value| == |rs| &&
      forall i :: 0 <= i < |rs| ==> r.value[i] == rs[i].value)
    ensures r.Failure? ==> exists i :: FirstFailureAt(rs, r.error, i)
  {
    if |rs| == 0 then Success([])
    else
      var rest := Collect(rs[1..]);
      if rs[0].Failure? then
        assert FirstFailureAt(rs, rs[0].error, 0);
        Failure(rs[0].error)
      else if rest.Failure? then
        var k :| FirstFailureAt(rs[1..], rest.error, k);
        assert FirstFailureAt(rs, rest.error, k + 1);
        Failure(rest.error)
      else
        var out := [rs[0].value] + rest.value;
        assert forall i :: 1 <= i < |rs| ==> out[i] == rest.value[i - 1];
        Success(out)
  }
}
