/** Small types shared by every module of the project. */
module Prelude {

  datatype Option<+T> = None | Some(value: T)

  /** A computation that may raise an exception. */
  datatype Outcome<+T, +E> = Ok(value: T) | Err(error: E) {
    predicate IsFailure() { Err? }

    function PropagateFailure<U>(): Outcome<U, E>
      requires Err?
    {
      Err(error)
    }

    function Extract(): T
      requires Ok?
    {
      value
    }
  }

  // --- Sequences replaced one place at a time ---

  /** The first `i` places already hold what they will, the others what they did. */
  function Halfway<T>(after: seq<T>, before: seq<T>, i: nat): seq<T>
    requires i <= |after| == |before|
  {
    after[..i] + before[i..]
  }

  lemma HalfwayEnds<T>(after: seq<T>, before: seq<T>)
    requires |after| == |before|
    ensures Halfway(after, before, 0) == before && Halfway(after, before, |after|) == after
  {
  }

  lemma HalfwayNext<T>(after: seq<T>, before: seq<T>, i: nat)
    requires i < |after| == |before|
    ensures |Halfway(after, before, i)| == |before| && Halfway(after, before, i)[i] == before[i]
    ensures Halfway(after, before, i)[i := after[i]] == Halfway(after, before, i + 1)
  {
  }
}
