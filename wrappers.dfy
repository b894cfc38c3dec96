// Option and Result values, and a map fact, shared by every module of the model.
module Wrappers {
  datatype Option<T> = None | Some(value: T)

  /** The outcome of an operation that either yields a value or fails the way the source throws. */
  datatype Result<T, E> = Ok(value: T) | Err(error: E)
  {
    predicate IsFailure() { this.Err? }
  }

  /** An entry added under a fresh key and removed again leaves the map as it was. */
  lemma {:induction false} AddThenRemove<K, V>(m: map<K, V>, k: K, v: V)
    requires k !in m
    ensures m[k := v] - {k} == m
  {
    assert forall x :: x in m[k := v] - {k} <==> x in m;
  }
}
