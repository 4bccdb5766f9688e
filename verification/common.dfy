/** Types that several modules share. */
module Common {
  datatype Option<T> = None | Some(value: T)

  /** panic() does not return; Panic stands for it. */
  datatype Result<T> = Ok(value: T) | Panic

  type byte = x: int | 0 <= x < 256

  predicate Distinct(s: seq<nat>) {
    forall i, j :: 0 <= i < j < |s| ==> s[i] != s[j]
  }
}
