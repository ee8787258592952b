/** Rows of a table that are saved in place. */
module Rows {
  /** repository.save of a loaded row: the row with its key is overwritten. */
  function Saved<T>(rows: seq<T>, row: T, key: T -> nat): (r: seq<T>)
    ensures |r| == |rows| && forall i :: 0 <= i < |r| ==> r[i] == if key(rows[i]) == key(row) then row else rows[i]
  {
    seq(|rows|, i requires 0 <= i < |rows| => if key(rows[i]) == key(row) then row else rows[i])
  }
}
