/**
 * The magnitude check of correlator_analysis_boundary_cond.py (lines 167-174): for
 * every type, "ok" when every cell of the corrected matrix has the magnitude of the
 * matching cell before correction, "ERROR" when some cell does not, and a third
 * verdict, "ERROR number 2", that neither of the first two conditions leaves room for.
 */
module Validation {
  import opened Matrices
  import opened Boundary

  /** The three messages of lines 170, 172 and 174. */
  datatype Verdict = Ok | Error | ErrorNumber2

  predicate SameShape(A: seq<seq<int>>, B: seq<seq<int>>)
  {
    |A| == |B| && forall s :: 0 <= s < |A| ==> |A[s]| == |B[s]|
  }

  /**
   * Lines 169-174 for one type: `np.all(abs(sign) == abs(corr))`, else
   * `np.any(abs(sign) != abs(corr))`, else the third branch. The two tests are
   * complementary, so the third verdict is never given.
   */
  function Validate(sign: seq<seq<int>>, corr: seq<seq<int>>): (v: Verdict)
    requires SameShape(sign, corr)
    ensures v != ErrorNumber2
    ensures v == Error <==>
              exists s, c :: 0 <= s < |sign| && 0 <= c < |sign[s]| && Abs(sign[s][c]) != Abs(corr[s][c])
  {
    if forall s, c :: 0 <= s < |sign| && 0 <= c < |sign[s]| ==> Abs(sign[s][c]) == Abs(corr[s][c]) then Ok
    else if exists s, c :: 0 <= s < |sign| && 0 <= c < |sign[s]| && Abs(sign[s][c]) != Abs(corr[s][c]) then Error
    else ErrorNumber2
  }

  /**
   * The check as the script runs it: line 107 makes the corrected list and the
   * reshaped list the same objects, so each matrix is compared with itself and every
   * type passes, whatever the corrector did to it.
   */
  lemma AliasedCheckAlwaysPasses(M: seq<seq<int>>)
    ensures Validate(M, M) == Ok
  {
  }

  /**
   * A cell whose magnitude the corrector had changed (1 became 2) is caught when the
   * result is compared with the matrix from before correction, and passes when it is
   * compared with itself.
   */
  lemma AliasedCheckMissesMagnitudeChange()
    ensures Validate([[2]], [[1]]) == Error
    ensures Validate([[2]], [[2]]) == Ok
  {
    assert Abs([[2]][0][0]) != Abs([[1]][0][0]);
  }

  /**
   * The check against a copy taken before correction: the corrector's output always
   * passes, because the correction only changes signs.
   */
  lemma CorrectedTypePassesCheck(dir: Direction, M: seq<seq<int>>, tsrcs: seq<int>, mintsep: int, tott: int)
    requires IsMatrix(M, |tsrcs|)
    ensures SameShape(CorrectMatrix(dir, M, tsrcs, mintsep, tott), M)
    ensures Validate(CorrectMatrix(dir, M, tsrcs, mintsep, tott), M) == Ok
  {
    MagnitudePreserved(dir, M, tsrcs, mintsep, tott);
  }
}
