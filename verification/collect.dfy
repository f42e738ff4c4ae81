/**
 * A loop that turns every element of a sequence into a result and stops at
 * the first failure: how each table of the page is read row by row.
 */
module Collect {
  import opened Wrappers

  /** The results of `f` on `xs` appended to `acc`, or the first failure. */
  function CollectFrom<A, B, E>(f: A -> Result<B, E>, acc: seq<B>, xs: seq<A>): Result<seq<B>, E>
    decreases |xs|
  {
    if xs == [] then Ok(acc)
    else
      match f(xs[0])
      case Err(e) => Err(e)
      case Ok(v) => CollectFrom(f, acc + [v], xs[1..])
  }

  /** Element `i` is the first on which `f` fails. */
  predicate FirstFailure<A, B, E>(f: A -> Result<B, E>, xs: seq<A>, i: int) {
    0 <= i < |xs| && f(xs[i]).Err? && forall j :: 0 <= j < i ==> f(xs[j]).Ok?
  }

  /** The collection succeeds exactly when `f` succeeds on every element. */
  lemma {:induction false} CollectOk<A, B, E>(f: A -> Result<B, E>, acc: seq<B>, xs: seq<A>)
    ensures CollectFrom(f, acc, xs).Ok? <==> forall i :: 0 <= i < |xs| ==> f(xs[i]).Ok?
    decreases |xs|
  {
    if xs != [] && f(xs[0]).Ok? {
      CollectOk(f, acc + [f(xs[0]).value], xs[1..]);
      assert forall i :: 0 <= i < |xs| - 1 ==> xs[1..][i] == xs[i + 1];
    }
  }

  /** On success the results follow `acc`, one per element, in order. */
  lemma {:induction false} CollectValues<A, B, E>(f: A -> Result<B, E>, acc: seq<B>, xs: seq<A>)
    requires CollectFrom(f, acc, xs).Ok?
    ensures var out := CollectFrom(f, acc, xs).value;
      |out| == |acc| + |xs| && out[..|acc|] == acc
      && forall i :: 0 <= i < |xs| ==> f(xs[i]) == Ok(out[|acc| + i])
    decreases |xs|
  {
    if xs != [] {
      var acc' := acc + [f(xs[0]).value];
      CollectValues(f, acc', xs[1..]);
      var out := CollectFrom(f, acc, xs).value;
      assert out[..|acc|] == acc'[..|acc|];
      forall i | 0 <= i < |xs| ensures f(xs[i]) == Ok(out[|acc| + i]) {
        if i == 0 {
          assert out[|acc|] == acc'[|acc|];
        } else {
          assert xs[1..][i - 1] == xs[i];
        }
      }
    }
  }

  /** On failure the error is that of the first element on which `f` fails. */
  lemma {:induction false} CollectError<A, B, E>(f: A -> Result<B, E>, acc: seq<B>, xs: seq<A>)
    requires CollectFrom(f, acc, xs).Err?
    ensures exists i :: FirstFailure(f, xs, i) && CollectFrom(f, acc, xs).error == f(xs[i]).error
    decreases |xs|
  {
    if f(xs[0]).Err? {
      assert FirstFailure(f, xs, 0);
    } else {
      CollectError(f, acc + [f(xs[0]).value], xs[1..]);
      var i :| FirstFailure(f, xs[1..], i) && CollectFrom(f, acc, xs).error == f(xs[1..][i]).error;
      assert xs[1..][i] == xs[i + 1];
      forall j | 0 <= j < i + 1 ensures f(xs[j]).Ok? {
        if j > 0 {
          assert xs[1..][j - 1] == xs[j];
        }
      }
      assert FirstFailure(f, xs, i + 1);
    }
  }

  /** The first element on which `f` fails, when the collection started empty fails. */
  lemma FirstError<A, B, E>(f: A -> Result<B, E>, xs: seq<A>) returns (i: nat)
    requires CollectFrom(f, [], xs).Err?
    ensures FirstFailure(f, xs, i) && CollectFrom(f, [], xs).error == f(xs[i]).error
  {
    CollectError(f, [], xs);
    i :| FirstFailure(f, xs, i) && CollectFrom(f, [], xs).error == f(xs[i]).error;
  }

  /** The usual shape of the three facts, for a collection started empty. */
  lemma CollectShape<A, B, E>(f: A -> Result<B, E>, xs: seq<A>)
    ensures CollectFrom(f, [], xs).Ok? <==> forall i :: 0 <= i < |xs| ==> f(xs[i]).Ok?
    ensures CollectFrom(f, [], xs).Ok? ==>
      |CollectFrom(f, [], xs).value| == |xs|
      && forall i :: 0 <= i < |xs| ==> f(xs[i]) == Ok(CollectFrom(f, [], xs).value[i])
    ensures CollectFrom(f, [], xs).Err? ==>
      exists i :: FirstFailure(f, xs, i) && CollectFrom(f, [], xs).error == f(xs[i]).error
  {
    CollectOk(f, [], xs);
    if CollectFrom(f, [], xs).Ok? {
      CollectValues(f, [], xs);
    } else {
      CollectError(f, [], xs);
    }
  }

  /** `step` applied to `acc` and each element in turn, stopping at the first failure. */
  function FoldFrom<S, A, E>(step: (S, A) -> Result<S, E>, acc: S, xs: seq<A>): Result<S, E>
    decreases |xs|
  {
    if xs == [] then Ok(acc)
    else
      match step(acc, xs[0])
      case Err(e) => Err(e)
      case Ok(acc') => FoldFrom(step, acc', xs[1..])
  }
}
