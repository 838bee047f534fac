/** Option and Result, failure-compatible so that `:-` can be used with them, and collecting a run of results. */
module Wrappers {

  datatype Option<+T> = None | Some(value: T)

  datatype Result<+R, +E> = Success(value: R) | Failure(error: E) {

    predicate IsFailure() {
      Failure?
    }

    function PropagateFailure<U>(): Result<U, E>
      requires Failure?
    {
      Failure(error)
    }

    function Extract(): R
      requires Success?
    {
      value
    }
  }

  /**
   * The outcome of producing the results rs one after another, in order: all
   * their values if every one succeeds, otherwise the failure of the first one
   * that fails (nothing after it is produced).
   */
  function Collect<T, E>(rs: seq<Result<T, E>>): Result<seq<T>, E>
  {
    if rs == [] then Success([])
    else
      var done :- Collect(rs[..|rs| - 1]);
      var last :- rs[|rs| - 1];
      Success(done + [last])
  }

  /** f applied to every element together with its index, in order. */
  function MapIndexed<T, U>(xs: seq<T>, f: (T, nat) -> U): (ys: seq<U>)
    ensures |ys| == |xs|
  {
    if xs == [] then [] else MapIndexed(xs[..|xs| - 1], f) + [f(xs[|xs| - 1], |xs| - 1)]
  }

  lemma {:induction false} MapIndexedAt<T, U>(xs: seq<T>, f: (T, nat) -> U, i: nat)
    requires i < |xs|
    ensures MapIndexed(xs, f)[i] == f(xs[i], i)
  {
    if i < |xs| - 1 {
      MapIndexedAt(xs[..|xs| - 1], f, i);
    }
  }

  /** Producing a single result. */
  lemma CollectSingle<T, E>(r: Result<T, E>)
    ensures r.Success? ==> Collect([r]) == Success([r.value])
    ensures r.Failure? ==> Collect([r]) == Failure(r.error)
  {
    var rs := [r];
    assert rs[..|rs| - 1] == [] && rs[|rs| - 1] == r;
    assert Collect(rs[..|rs| - 1]) == Success([]);
    if r.Success? {
      assert [] + [r.value] == [r.value];
    }
  }

  /** Producing one more result: the values grow by its value, or its failure becomes the outcome. */
  lemma CollectStep<T, E>(rs: seq<Result<T, E>>, r: Result<T, E>)
    requires Collect(rs).Success?
    ensures r.Success? ==> Collect(rs + [r]) == Success(Collect(rs).value + [r.value])
    ensures r.Failure? ==> Collect(rs + [r]) == Failure(r.error)
  {
    assert (rs + [r])[..|rs|] == rs;
  }

  /** Collecting succeeds exactly when every result does, and then value i is the value of result i. */
  lemma {:induction false} CollectInOrder<T, E>(rs: seq<Result<T, E>>)
    ensures Collect(rs).Success? <==> forall i | 0 <= i < |rs| :: rs[i].Success?
    ensures Collect(rs).Success? ==>
      |Collect(rs).value| == |rs| && forall i | 0 <= i < |rs| :: Collect(rs).value[i] == rs[i].value
  {
    if rs != [] {
      var front := rs[..|rs| - 1];
      CollectInOrder(front);
      assert forall i | 0 <= i < |front| :: front[i] == rs[i];
    }
  }

  /** When result i is the first failure, it is the outcome, whatever follows it. */
  lemma {:induction false} CollectFirstFailure<T, E>(rs: seq<Result<T, E>>, i: nat)
    requires i < |rs| && rs[i].Failure?
    requires forall k | 0 <= k < i :: rs[k].Success?
    ensures Collect(rs) == Failure(rs[i].error)
  {
    var front := rs[..|rs| - 1];
    if i < |rs| - 1 {
      assert front[i] == rs[i];
      assert forall k | 0 <= k < i :: front[k] == rs[k];
      CollectFirstFailure(front, i);
    } else {
      CollectInOrder(front);
      assert forall k | 0 <= k < |front| :: front[k] == rs[k];
    }
  }

  /** One step of producing rs in order, from the outcome of its first i results. */
  lemma CollectNext<T, E>(rs: seq<Result<T, E>>, i: nat, done: seq<T>)
    requires i < |rs| && Collect(rs[..i]) == Success(done)
    ensures rs[i].Success? ==> Collect(rs[..i + 1]) == Success(done + [rs[i].value])
    ensures rs[i].Failure? ==> Collect(rs) == Failure(rs[i].error)
  {
    assert rs[..i + 1] == rs[..i] + [rs[i]];
    CollectStep(rs[..i], rs[i]);
    if rs[i].Failure? {
      CollectInOrder(rs[..i]);
      assert forall k | 0 <= k < i :: rs[..i][k] == rs[k];
      CollectFirstFailure(rs, i);
    }
  }
}
