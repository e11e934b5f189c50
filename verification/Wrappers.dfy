/** What several parts use. */
module Wrappers {
  datatype Option<T> = None | Some(value: T)

  /** `n` times the character `c`. */
  function Times(c: char, n: nat): (r: string)
    ensures |r| == n && forall i :: 0 <= i < n ==> r[i] == c
  {
    if n == 0 then "" else [c] + Times(c, n - 1)
  }
}
