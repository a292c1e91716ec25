/**
 * The boundary corrector of correlator_analysis_boundary_cond.py (lines 107-161).
 * Every correlator type is classified by substrings of its file name; its matrix is
 * then corrected in place, column by column: the first separation whose physical
 * time lies past the antiperiodic temporal boundary is found by an upward scan, and
 * the column is negated from there on. Backward types are first negated as a whole.
 *
 * The script binds the "corrected" matrix list to the very same objects as the
 * reshaped one (line 107), so every negation happens in place and the tail negation of
 * a backward column reads values already negated by the whole-matrix flip. The model
 * keeps that: one array per type, read and written by the same assignments.
 */
module Boundary {
  import opened Wrappers
  import opened Matrices
  import opened SourceTimes

  datatype Direction = Forward | Backward

  /** The source operator: `t00` uses the first source-time column, `t01` the second. */
  datatype Component = T00 | T01

  datatype Kind = Kind(comp: Component, dir: Direction)

  datatype ClassifyError = UnknownDirection(name: string) | UnknownSource(name: string)

  // ---------------------------------------------------------------------------
  // Classification (lines 110-118, 138, 159-161)

  /** `sub` occurs in `s` starting at index `i`. */
  predicate OccursAt(s: string, sub: string, i: int)
  {
    0 <= i && i + |sub| <= |s| && s[i..i + |sub|] == sub
  }

  lemma OccursShift(s: string, sub: string, i: int)
    requires |s| > 0 && 0 <= i
    ensures OccursAt(s, sub, i + 1) <==> OccursAt(s[1..], sub, i)
  {
    if 0 <= i && i + 1 + |sub| <= |s| {
      assert s[1..][i..i + |sub|] == s[i + 1..i + 1 + |sub|];
    }
  }

  /** Python's `sub in s` on strings. */
  function Contains(s: string, sub: string): (r: bool)
    ensures r <==> exists i :: OccursAt(s, sub, i)
    decreases |s|
  {
    if |s| < |sub| then false
    else if s[..|sub|] == sub then
      assert OccursAt(s, sub, 0);
      true
    else
      var rest := Contains(s[1..], sub);
      assert rest ==> exists i :: OccursAt(s, sub, i) by {
        if rest {
          var i :| OccursAt(s[1..], sub, i);
          OccursShift(s, sub, i);
        }
      }
      assert (exists i :: OccursAt(s, sub, i)) ==> rest by {
        if i :| OccursAt(s, sub, i) {
          assert i != 0;
          OccursShift(s, sub, i - 1);
        }
      }
      rest
  }

  /**
   * The classification the corrector acts on. The direction decides first: a name
   * with neither `fwd` nor `bwd` stops all further processing (lines 159-161), and
   * `fwd` wins when both occur (line 118 is tested before line 138). A name with
   * neither `t00` nor `t01` is an error too (lines 110-115); `t00` wins when both occur.
   */
  function Classify(name: string): (r: Result<Kind, ClassifyError>)
    ensures r.Success? <==>
              && (Contains(name, "fwd") || Contains(name, "bwd"))
              && (Contains(name, "t00") || Contains(name, "t01"))
    ensures r.Success? ==>
              && (r.value.dir == Forward <==> Contains(name, "fwd"))
              && (r.value.comp == T00 <==> Contains(name, "t00"))
    ensures r.Failure? ==> r.error.name == name
    ensures r.Failure? ==>
              (r.error == UnknownDirection(name) <==> !Contains(name, "fwd") && !Contains(name, "bwd"))
  {
    if !Contains(name, "fwd") && !Contains(name, "bwd") then Failure(UnknownDirection(name))
    else if !Contains(name, "t00") && !Contains(name, "t01") then Failure(UnknownSource(name))
    else
      var comp := if Contains(name, "t00") then T00 else T01;
      var dir := if Contains(name, "fwd") then Forward else Backward;
      Success(Kind(comp, dir))
  }

  /**
   * Lines 110-116 as written: a name with neither tag only prints a message and leaves
   * `tsrci` as the previous type set it (`stale`; None before the first type, where
   * reading it raises NameError).
   */
  function SourceComponentAsWritten(name: string, stale: Option<Component>): (r: Option<Component>)
    ensures Classify(name).Success? ==> r == Some(Classify(name).value.comp)
    ensures !Contains(name, "t00") && !Contains(name, "t01") ==> r == stale
  {
    if Contains(name, "t00") then Some(T00)
    else if Contains(name, "t01") then Some(T01)
    else stale
  }

  /** `sub` does not occur in `s` when its first character is absent from every place an occurrence could start. */
  lemma NotContainsWithoutHead(s: string, sub: string, k: nat)
    requires 0 < |sub| && |s| - |sub| < k <= |s|
    requires sub[0] !in s[..k]
    ensures !Contains(s, sub)
  {
    forall i | 0 <= i < k
      ensures s[i] != sub[0]
    {
      assert s[i] == s[..k][i];
    }
  }

  /**
   * The stale source component in action: after a `t01` type, a type named without
   * either tag is corrected with `t01` source times as written, where `Classify`
   * reports it.
   */
  lemma StaleSourceComponentReused()
    ensures SourceComponentAsWritten("corr_fwd.dat", Some(T01)) == Some(T01)
    ensures Classify("corr_fwd.dat") == Failure(UnknownSource("corr_fwd.dat"))
  {
    var name := "corr_fwd.dat";
    assert OccursAt(name, "fwd", 5);
    assert name[..10] == "corr_fwd.d";
    NotContainsWithoutHead(name, "t00", 10);
    NotContainsWithoutHead(name, "t01", 10);
  }

  // ---------------------------------------------------------------------------
  // Where a column crosses the boundary (lines 120-123, 141-144)

  /** Source time of a configuration for the given operator: column `1 + tsrci` (lines 121, 142). */
  function SourceTime(row: ResolvedRow, comp: Component): int
  {
    match comp
    case T00 => row.tsrc00
    case T01 => row.tsrc01
  }

  /** Source time of every configuration, in column order. */
  function ColumnSourceTimes(rows: seq<ResolvedRow>, comp: Component): (ts: seq<int>)
    ensures |ts| == |rows|
  {
    seq(|rows|, c requires 0 <= c < |rows| => SourceTime(rows[c], comp))
  }

  /**
   * Column `c` of a type is corrected with the source time listed in table row
   * `start + c*interval - 1` (numpy-wrapped when not positive), whatever ids the table lists.
   */
  lemma ColumnSourceTimesReadTable(table: seq<SourceRow>, start: int, interval: int, rows: seq<ResolvedRow>, comp: Component, c: nat)
    requires interval != 0
    requires forall c' :: 0 <= c' < |rows| ==> ResolveRow(table, start, interval, c') == Success(rows[c'])
    requires c < |rows|
    ensures PyIndex(|table|, AbsoluteId(start, interval, c) - 1).Some?
    ensures var row := table[PyIndex(|table|, AbsoluteId(start, interval, c) - 1).value];
      ColumnSourceTimes(rows, comp)[c] == if comp == T00 then row.tsrc00 else row.tsrc01
  {
    assert ResolveRow(table, start, interval, c).Success?;
  }

  /**
   * The physical time at separation index `s` lies past the boundary:
   * `tsrc + mintsep + s >= tott` forward (lines 122-123), `tsrc - mintsep - s <= -1`
   * backward (lines 143-144).
   */
  predicate Crosses(dir: Direction, tsrc: int, mintsep: int, tott: int, s: int)
  {
    match dir
    case Forward => tsrc + mintsep + s >= tott
    case Backward => tsrc - mintsep - s <= -1
  }

  /** The scan from separation `k`: the first separation in [k, n) that crosses, or `n` if none does. */
  function FirstCrossingFrom(dir: Direction, tsrc: int, mintsep: int, tott: int, k: nat, n: nat): (s0: nat)
    requires k <= n
    ensures k <= s0 <= n
    ensures s0 < n ==> Crosses(dir, tsrc, mintsep, tott, s0)
    ensures forall s :: k <= s < s0 ==> !Crosses(dir, tsrc, mintsep, tott, s)
    decreases n - k
  {
    if k == n then n
    else if Crosses(dir, tsrc, mintsep, tott, k) then k
    else FirstCrossingFrom(dir, tsrc, mintsep, tott, k + 1, n)
  }

  /** First crossing separation of a column of `n` separations, or `n` if the column never crosses. */
  function FirstCrossing(dir: Direction, tsrc: int, mintsep: int, tott: int, n: nat): (s0: nat)
    ensures s0 <= n
    ensures s0 < n ==> Crosses(dir, tsrc, mintsep, tott, s0)
    ensures forall s :: 0 <= s < s0 ==> !Crosses(dir, tsrc, mintsep, tott, s)
  {
    FirstCrossingFrom(dir, tsrc, mintsep, tott, 0, n)
  }

  function Clamp(x: int, n: nat): (r: nat)
    ensures r <= n
  {
    if x < 0 then 0 else if n < x then n else x
  }

  /**
   * Closed form of the crossing: `max(0, tott - tsrc - mintsep)` forward and
   * `max(0, tsrc - mintsep + 1)` backward, capped at `n` (no crossing).
   */
  lemma FirstCrossingClosedForm(dir: Direction, tsrc: int, mintsep: int, tott: int, n: nat)
    ensures FirstCrossing(dir, tsrc, mintsep, tott, n) ==
      match dir
      case Forward => Clamp(tott - tsrc - mintsep, n)
      case Backward => Clamp(tsrc - mintsep + 1, n)
  {
    var s0 := FirstCrossing(dir, tsrc, mintsep, tott, n);
    var b := match dir
      case Forward => Clamp(tott - tsrc - mintsep, n)
      case Backward => Clamp(tsrc - mintsep + 1, n);
    if s0 < b {
      assert Crosses(dir, tsrc, mintsep, tott, s0);
    } else if b < s0 {
      assert !Crosses(dir, tsrc, mintsep, tott, b);
    }
  }

  /**
   * Single crossing: once a column crosses, it stays crossed, so a separation lies at
   * or past the first crossing exactly when it crosses itself.
   */
  lemma CrossesExactlyFromFirst(dir: Direction, tsrc: int, mintsep: int, tott: int, n: nat, s: nat)
    requires s < n
    ensures FirstCrossing(dir, tsrc, mintsep, tott, n) <= s <==> Crosses(dir, tsrc, mintsep, tott, s)
  {
    var s0 := FirstCrossing(dir, tsrc, mintsep, tott, n);
    if s0 <= s {
      assert Crosses(dir, tsrc, mintsep, tott, s0);
    }
  }

  // ---------------------------------------------------------------------------
  // The correction as a function of the matrix before it

  /** One tail negation (lines 124, 145): cells at or past `s0` change sign. */
  function TailNegated(v: int, s: nat, s0: nat): int
  {
    if s < s0 then v else -v
  }

  /**
   * Value of cell `s` of a column with first crossing `s0` whose value was `v` before
   * correction. A backward column is negated as a whole first (line 139); its tail is
   * then negated again from the already negated values, the alias of line 107.
   */
  function CorrectedValue(dir: Direction, v: int, s: nat, s0: nat): (r: int)
    ensures dir == Forward ==> (s < s0 ==> r == v) && (s0 <= s ==> r == -v)
    ensures dir == Backward ==> (s < s0 ==> r == -v) && (s0 <= s ==> r == v)
  {
    match dir
    case Forward => TailNegated(v, s, s0)
    case Backward => TailNegated(-v, s, s0)
  }

  /** The matrix the corrector leaves behind for a type of direction `dir`, with source time `tsrcs[c]` for column `c`. */
  function CorrectMatrix(dir: Direction, M: seq<seq<int>>, tsrcs: seq<int>, mintsep: int, tott: int): (R: seq<seq<int>>)
    requires IsMatrix(M, |tsrcs|)
    ensures |R| == |M| && IsMatrix(R, |tsrcs|)
  {
    seq(|M|, s requires 0 <= s < |M| =>
      seq(|tsrcs|, c requires 0 <= c < |tsrcs| =>
        CorrectedValue(dir, M[s][c], s, FirstCrossing(dir, tsrcs[c], mintsep, tott, |M|))))
  }

  /**
   * What the correction means cell by cell: a forward cell changes sign exactly when
   * its own physical time `tsrc + mintsep + s` is at or past `tott`; a backward cell keeps
   * its sign exactly when its physical time `tsrc - mintsep - s` is below 0, and changes
   * it otherwise.
   */
  lemma CorrectedCell(dir: Direction, M: seq<seq<int>>, tsrcs: seq<int>, mintsep: int, tott: int, s: nat, c: nat)
    requires IsMatrix(M, |tsrcs|) && s < |M| && c < |tsrcs|
    ensures CorrectMatrix(dir, M, tsrcs, mintsep, tott)[s][c] ==
      if Crosses(dir, tsrcs[c], mintsep, tott, s) == (dir == Forward) then -M[s][c] else M[s][c]
  {
    CrossesExactlyFromFirst(dir, tsrcs[c], mintsep, tott, |M|, s);
  }

  /** Only signs change: every cell keeps its magnitude. */
  lemma MagnitudePreserved(dir: Direction, M: seq<seq<int>>, tsrcs: seq<int>, mintsep: int, tott: int)
    requires IsMatrix(M, |tsrcs|)
    ensures forall s, c :: 0 <= s < |M| && 0 <= c < |tsrcs| ==>
      Abs(CorrectMatrix(dir, M, tsrcs, mintsep, tott)[s][c]) == Abs(M[s][c])
  {
  }

  /**
   * Running the correction a second time on its own output gives back the matrix from
   * before the first run: every tail flip, and the backward pre-flip, undoes itself.
   */
  lemma CorrectingTwiceRestores(dir: Direction, M: seq<seq<int>>, tsrcs: seq<int>, mintsep: int, tott: int)
    requires IsMatrix(M, |tsrcs|)
    ensures CorrectMatrix(dir, CorrectMatrix(dir, M, tsrcs, mintsep, tott), tsrcs, mintsep, tott) == M
  {
    var R := CorrectMatrix(dir, CorrectMatrix(dir, M, tsrcs, mintsep, tott), tsrcs, mintsep, tott);
    forall s | 0 <= s < |M|
      ensures R[s] == M[s]
    {
    }
  }

  /** A forward column whose last separation is still before `tott` is left as it was. */
  lemma ForwardColumnWithoutCrossing(M: seq<seq<int>>, tsrcs: seq<int>, mintsep: int, tott: int, c: nat)
    requires IsMatrix(M, |tsrcs|) && c < |tsrcs|
    requires tsrcs[c] + mintsep + |M| - 1 < tott
    ensures forall s :: 0 <= s < |M| ==> CorrectMatrix(Forward, M, tsrcs, mintsep, tott)[s][c] == M[s][c]
  {
    forall s | 0 <= s < |M|
      ensures CorrectMatrix(Forward, M, tsrcs, mintsep, tott)[s][c] == M[s][c]
    {
      CorrectedCell(Forward, M, tsrcs, mintsep, tott, s, c);
    }
  }

  /** A backward column whose last separation still has physical time at least 0 ends up wholly negated. */
  lemma BackwardColumnWithoutCrossing(M: seq<seq<int>>, tsrcs: seq<int>, mintsep: int, tott: int, c: nat)
    requires IsMatrix(M, |tsrcs|) && c < |tsrcs|
    requires 0 <= tsrcs[c] - mintsep - (|M| - 1)
    ensures forall s :: 0 <= s < |M| ==> CorrectMatrix(Backward, M, tsrcs, mintsep, tott)[s][c] == -M[s][c]
  {
    forall s | 0 <= s < |M|
      ensures CorrectMatrix(Backward, M, tsrcs, mintsep, tott)[s][c] == -M[s][c]
    {
      CorrectedCell(Backward, M, tsrcs, mintsep, tott, s, c);
    }
  }

  // ---------------------------------------------------------------------------
  // The corrector, in place

  /** Line 139: `m[:, :] = -m[:, :]`. */
  method NegateAll(m: array2<int>)
    modifies m
    ensures forall s, c :: 0 <= s < m.Length0 && 0 <= c < m.Length1 ==> m[s, c] == -old(m[s, c])
  {
    forall s, c | 0 <= s < m.Length0 && 0 <= c < m.Length1 {
      m[s, c] := -m[s, c];
    }
  }

  /**
   * Lines 124 and 145: `dst[from:, c] = -src[from:, c]`. The right-hand side is
   * evaluated before any cell is written, so `dst` and `src` may be the same array,
   * as they are in the script.
   */
  method AssignNegatedTail(dst: array2<int>, src: array2<int>, c: nat, from: nat)
    requires c < dst.Length1 && c < src.Length1 && dst.Length0 == src.Length0
    modifies dst
    ensures forall s, c' :: 0 <= s < dst.Length0 && 0 <= c' < dst.Length1 ==>
      dst[s, c'] == if c' == c && from <= s then -old(src[s, c']) else old(dst[s, c'])
  {
    forall s | from <= s < dst.Length0 {
      dst[s, c] := -src[s, c];
    }
  }

  /**
   * The inner loop of lines 120-125 and 141-146 for column `c`: scan the separations
   * upward; at the first that crosses, negate the column from there on and stop.
   * Only column `c` changes.
   */
  method FlipFromFirstCrossing(m: array2<int>, c: nat, dir: Direction, tsrc: int, mintsep: int, tott: int)
    requires c < m.Length1
    modifies m
    ensures forall s, c' :: 0 <= s < m.Length0 && 0 <= c' < m.Length1 ==>
      m[s, c'] == if c' == c then TailNegated(old(m[s, c']), s, FirstCrossing(dir, tsrc, mintsep, tott, m.Length0))
                  else old(m[s, c'])
  {
    for tsepi := 0 to m.Length0
      invariant forall s :: 0 <= s < tsepi ==> !Crosses(dir, tsrc, mintsep, tott, s)
      invariant unchanged(m)
    {
      if Crosses(dir, tsrc, mintsep, tott, tsepi) {
        assert FirstCrossing(dir, tsrc, mintsep, tott, m.Length0) == tsepi;
        AssignNegatedTail(m, m, c, tsepi);
        return;
      }
    }
    assert FirstCrossing(dir, tsrc, mintsep, tott, m.Length0) == m.Length0;
  }

  /** The outer loop over configurations: every column is flipped from its own first crossing. */
  method CorrectColumns(m: array2<int>, dir: Direction, rows: array<ResolvedRow>, comp: Component, mintsep: int, tott: int)
    requires rows.Length == m.Length1
    modifies m
    ensures forall s, c :: 0 <= s < m.Length0 && 0 <= c < m.Length1 ==>
      m[s, c] == TailNegated(old(m[s, c]), s, FirstCrossing(dir, SourceTime(rows[c], comp), mintsep, tott, m.Length0))
  {
    for configi := 0 to m.Length1
      invariant forall s, c :: 0 <= s < m.Length0 && 0 <= c < m.Length1 ==>
        m[s, c] == if c < configi
                   then TailNegated(old(m[s, c]), s, FirstCrossing(dir, SourceTime(rows[c], comp), mintsep, tott, m.Length0))
                   else old(m[s, c])
    {
      var tsrc := SourceTime(rows[configi], comp);
      FlipFromFirstCrossing(m, configi, dir, tsrc, mintsep, tott);
    }
  }

  /**
   * Lines 118-146 for one classified type: a backward matrix is negated as a whole,
   * then every column is flipped from its first crossing, in place.
   */
  method CorrectType(m: array2<int>, kind: Kind, rows: array<ResolvedRow>, mintsep: int, tott: int)
    requires rows.Length == m.Length1
    modifies m
    ensures Snapshot(m) == CorrectMatrix(kind.dir, old(Snapshot(m)), ColumnSourceTimes(rows[..], kind.comp), mintsep, tott)
  {
    ghost var before := Snapshot(m);
    if kind.dir == Backward {
      NegateAll(m);
    }
    CorrectColumns(m, kind.dir, rows, kind.comp, mintsep, tott);
    SnapshotFromCells(m, CorrectMatrix(kind.dir, before, ColumnSourceTimes(rows[..], kind.comp), mintsep, tott));
  }

  /**
   * Lines 109-161: correct the types in order, each matrix on its own, and stop at the
   * first type that cannot be classified, leaving it and every later type untouched.
   * `processed` counts the corrected types.
   */
  method CorrectTypes(names: seq<string>, mats: seq<array2<int>>, rows: array<ResolvedRow>, mintsep: int, tott: int)
    returns (processed: nat, stop: Option<ClassifyError>)
    requires |names| == |mats|
    requires forall i, j :: 0 <= i < j < |mats| ==> mats[i] != mats[j]
    requires forall i :: 0 <= i < |mats| ==> mats[i].Length1 == rows.Length
    modifies set i | 0 <= i < |mats| :: mats[i]
    ensures processed <= |names|
    ensures forall i :: 0 <= i < processed ==> Classify(names[i]).Success?
    ensures processed < |names| ==>
              Classify(names[processed]).Failure? && stop == Some(Classify(names[processed]).error)
    ensures processed == |names| ==> stop == None
    ensures forall i :: 0 <= i < processed ==>
              Snapshot(mats[i]) == CorrectMatrix(Classify(names[i]).value.dir, old(Snapshot(mats[i])),
                                                 ColumnSourceTimes(rows[..], Classify(names[i]).value.comp), mintsep, tott)
    ensures forall i :: processed <= i < |mats| ==> Snapshot(mats[i]) == old(Snapshot(mats[i]))
  {
    processed, stop := 0, None;
    while processed < |names|
      invariant processed <= |names| && stop == None
      invariant forall i :: 0 <= i < processed ==> Classify(names[i]).Success?
      invariant forall i :: 0 <= i < processed ==>
                  Snapshot(mats[i]) == CorrectMatrix(Classify(names[i]).value.dir, old(Snapshot(mats[i])),
                                                     ColumnSourceTimes(rows[..], Classify(names[i]).value.comp), mintsep, tott)
      invariant forall i :: processed <= i < |mats| ==> Snapshot(mats[i]) == old(Snapshot(mats[i]))
    {
      var kind := Classify(names[processed]);
      if kind.Failure? {
        stop := Some(kind.error);
        return;
      }
      CorrectType(mats[processed], kind.value, rows, mintsep, tott);
      processed := processed + 1;
    }
  }
}
