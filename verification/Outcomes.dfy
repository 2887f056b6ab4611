/** Optional values and the results of operations that may raise. */
module Outcomes {

  datatype Option<+T> = None | Some(value: T)

  datatype Result<+T, +E> = Ok(value: T) | Err(error: E)

  /** Every character of s is one of cs. */
  predicate Among(s: string, cs: string) {
    forall i | 0 <= i < |s| :: s[i] in cs
  }
}
