/**
 * How the listings walk a table. Every id of a table lies below the table's
 * next insert id, so `ORDER BY id DESC` over the rows that pass a `WHERE`
 * clause is the scan of the ids below that counter, largest first.
 */
module Listing {

  /** Every key of `m` lies in `[0, n)`. */
  predicate KeysBelow<T>(m: map<int, T>, n: int) {
    forall k :: k in m ==> 0 <= k < n
  }

  /** The ids in `[0, n)` that satisfy `keep`, in strictly decreasing order. */
  function Select(n: int, keep: int -> bool): (ids: seq<int>)
    decreases n
    ensures forall i :: 0 <= i < |ids| ==> 0 <= ids[i] < n && keep(ids[i])
    ensures forall x :: 0 <= x < n && keep(x) ==> x in ids
    ensures forall i, j :: 0 <= i < j < |ids| ==> ids[i] > ids[j]
  {
    if n <= 0 then []
    else if keep(n - 1) then [n - 1] + Select(n - 1, keep)
    else Select(n - 1, keep)
  }
}
