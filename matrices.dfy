/**
 * Dense time-separation x configuration matrices. Row index `s` is the relative
 * time separation (numpy's first axis), column index `c` the relative configuration.
 */
module Matrices {

  /** Python's `abs` on a correlator value. */
  function Abs(x: int): (r: int)
    ensures 0 <= r && (r == x || r == -x)
  {
    if x < 0 then -x else x
  }

  /** Every row of `M` has `cols` entries. */
  predicate IsMatrix(M: seq<seq<int>>, cols: nat)
  {
    forall s :: 0 <= s < |M| ==> |M[s]| == cols
  }

  /** The value currently held by a two-dimensional array, row by row. */
  function Snapshot(m: array2<int>): (M: seq<seq<int>>)
    reads m
    ensures |M| == m.Length0 && IsMatrix(M, m.Length1)
    ensures forall s, c :: 0 <= s < m.Length0 && 0 <= c < m.Length1 ==> M[s][c] == m[s, c]
  {
    seq(m.Length0, s requires 0 <= s < m.Length0 reads m =>
      seq(m.Length1, c requires 0 <= c < m.Length1 reads m => m[s, c]))
  }

  /** A snapshot is determined by its cells. */
  lemma SnapshotFromCells(m: array2<int>, M: seq<seq<int>>)
    requires |M| == m.Length0 && IsMatrix(M, m.Length1)
    requires forall s, c :: 0 <= s < m.Length0 && 0 <= c < m.Length1 ==> m[s, c] == M[s][c]
    ensures Snapshot(m) == M
  {
    var S := Snapshot(m);
    forall s | 0 <= s < |M|
      ensures S[s] == M[s]
    {
    }
  }
}
