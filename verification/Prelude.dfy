/** What the modules of this project share. */
module Prelude {

  /** A value that may be absent: the source's `null` and `undefined`. */
  datatype Option<+T> = None | Some(value: T)

  /** A value, or the error that the source throws instead of returning it. */
  datatype Result<+T, +E> = Ok(value: T) | Err(error: E)

  lemma SubsetIsNoLarger<T>(a: set<T>, b: set<T>)
    requires a <= b
    ensures |a| <= |b| && (|a| == |b| ==> a == b)
  {
    assert |b - a| == |b| - |a|;
  }

  predicate IsDigit(c: char) {
    '0' <= c <= '9'
  }
}
