/** Small datatypes shared by every component model. */
module Common {

  datatype Option<+T> = None | Some(value: T)

  datatype Result<+T, +E> = Ok(value: T) | Err(error: E)

  /** One step per element, left to right. */
  function Fold<S, A>(step: (S, A) -> S, start: S, elements: seq<A>): S {
    if elements == [] then start
    else step(Fold(step, start, elements[..|elements| - 1]), elements[|elements| - 1])
  }

  lemma FoldLast<S, A>(step: (S, A) -> S, start: S, front: seq<A>, last: A)
    ensures Fold(step, start, front + [last]) == step(Fold(step, start, front), last)
  {
    assert (front + [last])[..|front|] == front;
  }

  lemma {:induction false} FoldConcat<S, A>(step: (S, A) -> S, start: S, a: seq<A>, b: seq<A>)
    ensures Fold(step, start, a + b) == Fold(step, Fold(step, start, a), b)
  {
    if b == [] {
      assert a + b == a;
    } else {
      FoldConcat(step, start, a, b[..|b| - 1]);
      assert (a + b)[..|a + b| - 1] == a + b[..|b| - 1];
    }
  }
}
