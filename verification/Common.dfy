/** Types shared by every component of the model. */
module Common {

  /** A UUID. Fresh ones are parameters, so the model never invents them. */
  type Id = nat

  /** An instant in UTC, or a length of time, in nanoseconds. */
  type Time = int

  const SECOND := 1_000_000_000

  datatype Option<+T> = None | Some(value: T)

  datatype Result<+T, +E> = Ok(value: T) | Err(error: E)

  lemma SubsetIsSmaller<T>(a: set<T>, b: set<T>)
    requires a <= b
    ensures |a| <= |b|
  {
    assert b == a + (b - a);
  }
}
