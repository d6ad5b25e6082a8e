/**
 * The retention rule both in-memory stores apply after appending:
 * `if (store.length > cap) store = store.slice(-cap)`.
 */
module Retention {
  import opened Js

  /**
   * The store after the retention rule: the newest `cap` entries, in order.
   * A positive cap is needed: `slice(-0)` is `slice(0)`, which keeps everything.
   */
  function Trim<T>(s: seq<T>, cap: nat): (r: seq<T>)
    requires 0 < cap
    ensures |r| == Min(|s|, cap)
    ensures r == s[|s| - |r|..]
    ensures |s| <= cap ==> r == s
  {
    if |s| > cap then SliceFrom(s, -(cap as int)) else s
  }

  /**
   * Appending a batch and trimming keeps the batch whole at the end of the
   * store, provided the batch itself fits.
   */
  lemma TrimKeepsNewestBatch<T>(s: seq<T>, batch: seq<T>, cap: nat)
    requires 0 < cap && |batch| <= cap
    ensures Trim(s + batch, cap)[|Trim(s + batch, cap)| - |batch|..] == batch
  {
  }
}
