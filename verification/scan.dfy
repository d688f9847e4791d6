/**
 * Unanchored regular-expression search: `line.match(re)` tries the pattern
 * at index 0, 1, 2, ... and reports the first index where it matches.
 */
module Scan {
  import opened Wrappers

  /** The first index in `[i, n)` at which `at` matches, with its groups. */
  function FirstFrom<T>(at: nat -> Option<T>, i: nat, n: nat): (r: Option<(nat, T)>)
    ensures r.Some? ==> i <= r.value.0 < n && at(r.value.0) == Some(r.value.1)
    ensures r.Some? ==> forall k | i <= k < r.value.0 :: at(k).None?
    ensures r.None? ==> forall k | i <= k < n :: at(k).None?
    decreases n - i
  {
    if i >= n then None
    else
      match at(i)
      case Some(t) => Some((i, t))
      case None => FirstFrom(at, i + 1, n)
  }

  /** Searching from 0 finds a match exactly when the pattern matches at some index. */
  lemma {:induction false} FirstFromFinds<T>(at: nat -> Option<T>, i: nat, n: nat, k: nat)
    requires i <= k < n && at(k).Some?
    ensures FirstFrom(at, i, n).Some?
    ensures FirstFrom(at, i, n).value.0 <= k
    decreases n - i
  {
    if at(i).None? {
      FirstFromFinds(at, i + 1, n, k);
    }
  }
}
