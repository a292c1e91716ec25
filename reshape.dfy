/**
 * The reshaper of correlator_analysis_boundary_cond.py (lines 38-73): a flat raw
 * series of (time-separation, value) rows, one fixed-length block per configuration,
 * becomes a time-separation x configuration matrix, in two stages. Stage one drops
 * the first two rows of every block into a flat "no zero" table; stage two splits
 * that table by configuration. Both stages also record the raw separation labels.
 */
module Reshape {
  import opened Matrices

  /** One raw row: column 0 is the raw time-separation label, column 1 the value. */
  datatype Sample = Sample(tsep: int, value: int)

  /**
   * Rows skipped at the head of every configuration block. The script writes the
   * literal 2 here, independently of `mintsep`; the block length `TsepsPeriod`
   * agrees with it only when `mintsep == 2` (`LastReadInsideBlock`, `LabelIsSkipPlusIndex`).
   */
  const SkippedRows: nat := 2

  /** Number of studied separations, `1 + maxtsep - mintsep`. */
  function TotTseps(mintsep: nat, maxtsep: int): nat
    requires mintsep <= maxtsep + 1
  {
    1 + maxtsep - mintsep
  }

  /** Length of one configuration block: the studied separations plus `mintsep` skipped ones. */
  function TsepsPeriod(mintsep: nat, maxtsep: int): (p: nat)
    requires mintsep <= maxtsep + 1
    ensures p == maxtsep + 1
  {
    TotTseps(mintsep, maxtsep) + mintsep
  }

  /** Raw row read for cell (s, c). */
  function RawRow(period: nat, s: nat, c: nat): nat
  {
    s + SkippedRows + period * c
  }

  /** Row of the flat no-zero table that holds cell (s, c). */
  function FlatRow(tottseps: nat, s: nat, c: nat): nat
  {
    s + tottseps * c
  }

  /** Number of raw rows the reshaper reads: every row it indexes lies below this bound. */
  function Span(tottseps: nat, totconfigs: nat, period: nat): nat
  {
    if tottseps == 0 || totconfigs == 0 then 0
    else RawRow(period, tottseps - 1, totconfigs - 1) + 1
  }

  /** Every raw row the reshaper reads lies below `Span`, and the last one is `Span - 1`. */
  lemma SpanBoundsReads(tottseps: nat, totconfigs: nat, period: nat, s: nat, c: nat)
    requires s < tottseps && c < totconfigs
    ensures RawRow(period, s, c) < Span(tottseps, totconfigs, period)
    ensures s == tottseps - 1 && c == totconfigs - 1 ==> RawRow(period, s, c) == Span(tottseps, totconfigs, period) - 1
  {
    assert period * c <= period * (totconfigs - 1) by {
      MulMonotone(period, c, totconfigs - 1);
    }
  }

  /** Quantified form of `SpanBoundsReads` and `FlatRowInRange`, for whole-matrix loops. */
  lemma AllRowsInRange(tottseps: nat, totconfigs: nat, period: nat)
    ensures forall s: nat, c: nat :: s < tottseps && c < totconfigs ==>
      RawRow(period, s, c) < Span(tottseps, totconfigs, period) &&
      FlatRow(tottseps, s, c) < tottseps * totconfigs
  {
    forall s: nat, c: nat | s < tottseps && c < totconfigs
      ensures RawRow(period, s, c) < Span(tottseps, totconfigs, period)
      ensures FlatRow(tottseps, s, c) < tottseps * totconfigs
    {
      SpanBoundsReads(tottseps, totconfigs, period, s, c);
      FlatRowInRange(tottseps, totconfigs, s, c);
    }
  }

  lemma MulMonotone(k: nat, a: nat, b: nat)
    requires a <= b
    ensures k * a <= k * b
  {
    assert k * b == k * a + k * (b - a);
  }

  /** Cell (s, c) lands inside the flat table of `tottseps * totconfigs` rows. */
  lemma FlatRowInRange(tottseps: nat, totconfigs: nat, s: nat, c: nat)
    requires s < tottseps && c < totconfigs
    ensures FlatRow(tottseps, s, c) < tottseps * totconfigs
  {
    assert tottseps * (c + 1) <= tottseps * totconfigs by {
      MulMonotone(tottseps, c + 1, totconfigs);
    }
  }

  /** Distinct cells land on distinct flat rows. */
  lemma FlatRowInjective(tottseps: nat, s1: nat, c1: nat, s2: nat, c2: nat)
    requires s1 < tottseps && s2 < tottseps
    requires FlatRow(tottseps, s1, c1) == FlatRow(tottseps, s2, c2)
    ensures s1 == s2 && c1 == c2
  {
    if c1 < c2 {
      MulMonotone(tottseps, c1 + 1, c2);
      assert false;
    } else if c2 < c1 {
      MulMonotone(tottseps, c2 + 1, c1);
      assert false;
    }
  }

  /** The flat row of cell (s0, c0) is the home of no other cell. */
  lemma FlatRowsDistinct(tottseps: nat, s0: nat, c0: nat)
    requires s0 < tottseps
    ensures forall s: nat, c: nat :: s < tottseps && (s != s0 || c != c0) ==>
      FlatRow(tottseps, s, c) != FlatRow(tottseps, s0, c0)
  {
    forall s: nat, c: nat | s < tottseps && (s != s0 || c != c0)
      ensures FlatRow(tottseps, s, c) != FlatRow(tottseps, s0, c0)
    {
      if FlatRow(tottseps, s, c) == FlatRow(tottseps, s0, c0) {
        FlatRowInjective(tottseps, s, c, s0, c0);
      }
    }
  }

  /** Every row of the flat table is the home of exactly the cell (k % tottseps, k / tottseps). */
  lemma FlatRowOnto(tottseps: nat, totconfigs: nat, k: nat)
    requires k < tottseps * totconfigs
    ensures tottseps > 0 && k % tottseps < tottseps && k / tottseps < totconfigs
    ensures FlatRow(tottseps, k % tottseps, k / tottseps) == k
  {
    if k / tottseps >= totconfigs {
      MulMonotone(tottseps, totconfigs, k / tottseps);
    }
  }

  /** Row `t` of configuration block `c`: block `c` of the raw series is rows [period*c, period*(c+1)). */
  function BlockRow(period: nat, c: nat, t: nat): nat
  {
    period * c + t
  }

  /**
   * The last read of configuration `c` (separation index `tottseps - 1`) stays inside
   * block `c` exactly when `mintsep` is at least the literal skip of 2. With a smaller
   * `mintsep` the block is shorter than the rows read, and the read falls past block `c`.
   */
  lemma LastReadInsideBlock(mintsep: nat, maxtsep: int, c: nat)
    requires mintsep <= maxtsep
    ensures var period := TsepsPeriod(mintsep, maxtsep);
      RawRow(period, TotTseps(mintsep, maxtsep) - 1, c) < BlockRow(period, c + 1, 0) <==> SkippedRows <= mintsep
  {
  }

  /** Every block lists the separations 0, 1, .., period - 1 in order, as the raw files do. */
  ghost predicate BlocksListSeparations(raw: seq<Sample>, period: nat)
  {
    forall c: nat, t: nat :: t < period && BlockRow(period, c, t) < |raw| ==> raw[BlockRow(period, c, t)].tsep == t
  }

  /**
   * On a series laid out block by block, label cell (s, c) is separation `s + 2`, since
   * the script skips the literal 2 rows. That is the separation `mintsep + s` the
   * corrector assumes for row `s` (lines 122, 143) exactly when `mintsep` is 2.
   */
  lemma LabelIsSkipPlusIndex(raw: seq<Sample>, mintsep: nat, maxtsep: int, totconfigs: nat, s: nat, c: nat)
    requires SkippedRows <= mintsep <= maxtsep + 1
    requires s < TotTseps(mintsep, maxtsep) && c < totconfigs
    requires Span(TotTseps(mintsep, maxtsep), totconfigs, TsepsPeriod(mintsep, maxtsep)) <= |raw|
    requires BlocksListSeparations(raw, TsepsPeriod(mintsep, maxtsep))
    ensures var L := ReshapedLabels(raw, TotTseps(mintsep, maxtsep), totconfigs, TsepsPeriod(mintsep, maxtsep));
      L[s][c] == s + SkippedRows && (L[s][c] == mintsep + s <==> mintsep == SkippedRows)
  {
    var period := TsepsPeriod(mintsep, maxtsep);
    SpanBoundsReads(TotTseps(mintsep, maxtsep), totconfigs, period, s, c);
    assert RawRow(period, s, c) == BlockRow(period, c, s + SkippedRows);
  }

  /** The value matrix the reshaper is meant to produce: cell (s, c) is raw row `RawRow(period, s, c)`. */
  function ReshapedValues(raw: seq<Sample>, tottseps: nat, totconfigs: nat, period: nat): (M: seq<seq<int>>)
    requires Span(tottseps, totconfigs, period) <= |raw|
    ensures |M| == tottseps && IsMatrix(M, totconfigs)
  {
    seq(tottseps, s requires 0 <= s < tottseps =>
      seq(totconfigs, c requires 0 <= c < totconfigs =>
        SpanBoundsReads(tottseps, totconfigs, period, s, c);
        raw[RawRow(period, s, c)].value))
  }

  /** The matching matrix of raw separation labels. */
  function ReshapedLabels(raw: seq<Sample>, tottseps: nat, totconfigs: nat, period: nat): (M: seq<seq<int>>)
    requires Span(tottseps, totconfigs, period) <= |raw|
    ensures |M| == tottseps && IsMatrix(M, totconfigs)
  {
    seq(tottseps, s requires 0 <= s < tottseps =>
      seq(totconfigs, c requires 0 <= c < totconfigs =>
        SpanBoundsReads(tottseps, totconfigs, period, s, c);
        raw[RawRow(period, s, c)].tsep))
  }

  /** Cells (s, c) with s < done hold raw row `RawRow(period, s, c)` in both outputs of stage one. */
  ghost predicate Stripped(raw: seq<Sample>, flat: array<Sample>, labels: array2<int>,
                           tottseps: nat, totconfigs: nat, period: nat, done: nat)
    reads flat, labels
  {
    forall s: nat, c: nat :: s < done && s < tottseps && c < totconfigs ==>
      RawRow(period, s, c) < |raw| &&
      FlatRow(tottseps, s, c) < flat.Length && flat[FlatRow(tottseps, s, c)] == raw[RawRow(period, s, c)] &&
      labels.Length0 == tottseps && labels.Length1 == totconfigs && labels[s, c] == raw[RawRow(period, s, c)].tsep
  }

  /**
   * Stage one (lines 47-54): row `FlatRow(s, c)` of the flat table receives raw row
   * `RawRow(s, c)`, and the label matrix receives that row's separation label.
   */
  method StripLeading(raw: seq<Sample>, tottseps: nat, totconfigs: nat, period: nat)
    returns (flat: array<Sample>, labels: array2<int>)
    requires Span(tottseps, totconfigs, period) <= |raw|
    ensures fresh(flat) && fresh(labels)
    ensures flat.Length == tottseps * totconfigs
    ensures labels.Length0 == tottseps && labels.Length1 == totconfigs
    ensures forall s: nat, c: nat :: s < tottseps && c < totconfigs ==>
      RawRow(period, s, c) < |raw| &&
      FlatRow(tottseps, s, c) < flat.Length && flat[FlatRow(tottseps, s, c)] == raw[RawRow(period, s, c)] &&
      labels[s, c] == raw[RawRow(period, s, c)].tsep
  {
    flat := new Sample[tottseps * totconfigs](_ => Sample(0, 0));
    labels := new int[tottseps, totconfigs]((_, _) => 0);
    for tsepi := 0 to tottseps
      invariant Stripped(raw, flat, labels, tottseps, totconfigs, period, tsepi)
    {
      StripSeparation(raw, flat, labels, tottseps, totconfigs, period, tsepi);
    }
  }

  /** The inner loop of stage one, over the configurations of separation `tsepi`. */
  method StripSeparation(raw: seq<Sample>, flat: array<Sample>, labels: array2<int>,
                         tottseps: nat, totconfigs: nat, period: nat, tsepi: nat)
    requires Span(tottseps, totconfigs, period) <= |raw|
    requires flat.Length == tottseps * totconfigs
    requires labels.Length0 == tottseps && labels.Length1 == totconfigs
    requires tsepi < tottseps
    requires Stripped(raw, flat, labels, tottseps, totconfigs, period, tsepi)
    modifies flat, labels
    ensures Stripped(raw, flat, labels, tottseps, totconfigs, period, tsepi + 1)
  {
    AllRowsInRange(tottseps, totconfigs, period);
    FlatRowsDistinct(tottseps, tsepi, 0);
    for configi := 0 to totconfigs
      invariant Stripped(raw, flat, labels, tottseps, totconfigs, period, tsepi)
      invariant forall c: nat :: c < configi ==>
        flat[FlatRow(tottseps, tsepi, c)] == raw[RawRow(period, tsepi, c)] &&
        labels[tsepi, c] == raw[RawRow(period, tsepi, c)].tsep
    {
      FlatRowsDistinct(tottseps, tsepi, configi);
      labels[tsepi, configi] := raw[RawRow(period, tsepi, configi)].tsep;
      flat[FlatRow(tottseps, tsepi, configi)] := raw[RawRow(period, tsepi, configi)];
    }
  }

  /**
   * Stage two (lines 65-73): cell (s, c) of both matrices is read from flat row
   * `FlatRow(s, c)`, its value into the value matrix and its label into the label matrix.
   */
  method SplitByConfig(flat: array<Sample>, tottseps: nat, totconfigs: nat)
    returns (values: array2<int>, labels: array2<int>)
    requires flat.Length == tottseps * totconfigs
    ensures fresh(values) && fresh(labels) && values != labels
    ensures values.Length0 == tottseps && values.Length1 == totconfigs
    ensures labels.Length0 == tottseps && labels.Length1 == totconfigs
    ensures forall s, c :: 0 <= s < tottseps && 0 <= c < totconfigs ==>
      FlatRow(tottseps, s, c) < flat.Length &&
      values[s, c] == flat[FlatRow(tottseps, s, c)].value &&
      labels[s, c] == flat[FlatRow(tottseps, s, c)].tsep
  {
    AllRowsInRange(tottseps, totconfigs, 0);
    values := new int[tottseps, totconfigs]((_, _) => 0);
    labels := new int[tottseps, totconfigs]((_, _) => 0);
    for tsepi := 0 to tottseps
      invariant forall s, c :: 0 <= s < tsepi && 0 <= c < totconfigs ==>
        FlatRow(tottseps, s, c) < flat.Length &&
        values[s, c] == flat[FlatRow(tottseps, s, c)].value &&
        labels[s, c] == flat[FlatRow(tottseps, s, c)].tsep
    {
      for configi := 0 to totconfigs
        invariant forall s, c :: 0 <= s < tottseps && 0 <= c < totconfigs && (s < tsepi || (s == tsepi && c < configi)) ==>
          FlatRow(tottseps, s, c) < flat.Length &&
          values[s, c] == flat[FlatRow(tottseps, s, c)].value &&
          labels[s, c] == flat[FlatRow(tottseps, s, c)].tsep
      {
        labels[tsepi, configi] := flat[FlatRow(tottseps, tsepi, configi)].tsep;
        values[tsepi, configi] := flat[FlatRow(tottseps, tsepi, configi)].value;
      }
    }
  }

  /**
   * Both stages for one correlator type: the value matrix and the label matrix of
   * stage two hold exactly the raw rows `RawRow(s, c)`, and the label matrix of stage
   * one agrees with the one of stage two.
   */
  method ReshapeType(raw: seq<Sample>, tottseps: nat, totconfigs: nat, period: nat)
    returns (values: array2<int>, labels: array2<int>, stripLabels: array2<int>)
    requires Span(tottseps, totconfigs, period) <= |raw|
    ensures fresh(values) && fresh(labels) && fresh(stripLabels)
    ensures values != labels
    ensures values.Length0 == tottseps && values.Length1 == totconfigs
    ensures labels.Length0 == tottseps && labels.Length1 == totconfigs
    ensures Snapshot(values) == ReshapedValues(raw, tottseps, totconfigs, period)
    ensures Snapshot(labels) == ReshapedLabels(raw, tottseps, totconfigs, period)
    ensures Snapshot(stripLabels) == Snapshot(labels)
  {
    var flat;
    flat, stripLabels := StripLeading(raw, tottseps, totconfigs, period);
    values, labels := SplitByConfig(flat, tottseps, totconfigs);
    SnapshotFromCells(values, ReshapedValues(raw, tottseps, totconfigs, period));
    SnapshotFromCells(labels, ReshapedLabels(raw, tottseps, totconfigs, period));
    SnapshotFromCells(stripLabels, ReshapedLabels(raw, tottseps, totconfigs, period));
  }
}
