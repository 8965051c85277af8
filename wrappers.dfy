/** Option and Result values: the simulator's `undefined` and its thrown errors. */
module Wrappers {
  datatype Option<+T> = None | Some(value: T)

  /** A computation that either yields a value or throws an error with a message. */
  datatype Result<+T> = Ok(value: T) | Err(error: string) {
    predicate IsFailure() { Err? }

    function PropagateFailure<U>(): Result<U>
      requires Err?
    {
      Err(error)
    }

    function Extract(): T
      requires Ok?
    {
      value
    }
  }

  /** A computation that yields nothing, or throws. */
  datatype Outcome = Pass | Fail(error: string) {
    predicate IsFailure() { Fail? }

    function PropagateFailure(): Outcome
      requires Fail?
    {
      this
    }
  }

  /**
   * Mapping a throwing operation over a list: the values when every element
   * succeeds, else the first element's error.
   */
  function Collect<T>(rs: seq<Result<T>>): (r: Result<seq<T>>)
    ensures r.Ok? ==> |r.value| == |rs| && forall k :: 0 <= k < |rs| ==> rs[k] == Ok(r.value[k])
  {
    if rs == [] then Ok([])
    else
      var head :- rs[0];
      var tail :- Collect(rs[1..]);
      assert forall k :: 0 < k <= |tail| ==> ([head] + tail)[k] == tail[k - 1];
      Ok([head] + tail)
  }

  /** `Collect` fails exactly when some element fails, with the first failure's error. */
  lemma {:induction false} CollectFails<T>(rs: seq<Result<T>>)
    ensures Collect(rs).Err? <==> exists k :: 0 <= k < |rs| && rs[k].Err?
    ensures Collect(rs).Err? ==>
      exists k :: 0 <= k < |rs| && rs[k] == Err(Collect(rs).error) && forall j :: 0 <= j < k ==> rs[j].Ok?
  {
    if rs != [] {
      CollectFails(rs[1..]);
      if rs[0].Ok? && Collect(rs[1..]).Err? {
        var k :| 0 <= k < |rs[1..]| && rs[1..][k] == Err(Collect(rs[1..]).error)
          && forall j :: 0 <= j < k ==> rs[1..][j].Ok?;
        assert rs[k + 1] == Err(Collect(rs).error);
        assert forall j :: 0 < j < k + 1 ==> rs[j] == rs[1..][j - 1];
      }
      if rs[0].Ok? && Collect(rs[1..]).Ok? {
        assert forall k :: 0 < k < |rs| ==> rs[k] == rs[1..][k - 1];
      }
    }
  }
}
