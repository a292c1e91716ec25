/**
 * The source-time resolver of correlator_analysis_boundary_cond.py (lines 96-100):
 * relative configuration `configi` stands for absolute configuration
 * `start + configi * interval`, whose row in the source-time table is
 * `cnfg_abs - 1`; the resolved row keeps that row's id rescaled to a relative index
 * and its two source times.
 */
module SourceTimes {
  import opened Wrappers

  /** One row of the source-time table: absolute configuration id, t00 and t01 source times. */
  datatype SourceRow = SourceRow(cnfg: int, tsrc00: int, tsrc01: int)

  /** One row of the per-configuration table: relative index (a float in the script) and the two source times. */
  datatype ResolvedRow = ResolvedRow(relative: real, tsrc00: int, tsrc01: int)

  /** Absolute configuration id of relative configuration `configi`. */
  function AbsoluteId(start: int, interval: int, configi: nat): int
  {
    start + configi * interval
  }

  /**
   * numpy's resolution of row index `k` in a table of `n` rows: an index in
   * [-n, n) names a row, counting back from the end when negative; any other index
   * raises IndexError.
   */
  function PyIndex(n: nat, k: int): (r: Option<nat>)
    ensures r.Some? <==> -(n as int) <= k < n
    ensures r.Some? ==> r.value < n && (r.value - k) % n == 0
  {
    if 0 <= k < n then Some(k)
    else if -(n as int) <= k < 0 then Some(n + k)
    else None
  }

  /**
   * Lines 98-100 for one configuration. The table row is `cnfg_abs - 1` under
   * numpy's indexing; an absent row is the script's IndexError, reported with the
   * absolute id. The relative index is the row's id minus `start`, divided (true
   * division) by `interval`.
   */
  function ResolveRow(table: seq<SourceRow>, start: int, interval: int, configi: nat): (r: Result<ResolvedRow, int>)
    requires interval != 0
    ensures r.Failure? <==> AbsoluteId(start, interval, configi) < 1 - |table| || |table| < AbsoluteId(start, interval, configi)
    ensures r.Failure? ==> r.error == AbsoluteId(start, interval, configi)
    ensures r.Success? ==>
              var k := PyIndex(|table|, AbsoluteId(start, interval, configi) - 1).value;
              && r.value.tsrc00 == table[k].tsrc00 && r.value.tsrc01 == table[k].tsrc01
              && r.value.relative * interval as real == (table[k].cnfg - start) as real
  {
    var cnfgAbs := AbsoluteId(start, interval, configi);
    match PyIndex(|table|, cnfgAbs - 1)
    case None => Failure(cnfgAbs)
    case Some(k) =>
      var row := table[k];
      Success(ResolvedRow((row.cnfg - start) as real / interval as real, row.tsrc00, row.tsrc01))
  }

  /**
   * On a table whose row `k` lists absolute id `k + 1` (the layout the script assumes),
   * every configuration whose absolute id is in the table resolves to its own relative
   * index, with no remainder, and to the source times listed for that absolute id.
   */
  lemma ResolvesOnConsistentTable(table: seq<SourceRow>, start: int, interval: int, configi: nat)
    requires interval != 0
    requires forall k :: 0 <= k < |table| ==> table[k].cnfg == k + 1
    requires 1 <= AbsoluteId(start, interval, configi) <= |table|
    ensures var row := table[AbsoluteId(start, interval, configi) - 1];
      ResolveRow(table, start, interval, configi) == Success(ResolvedRow(configi as real, row.tsrc00, row.tsrc01))
  {
    var id := AbsoluteId(start, interval, configi);
    assert table[id - 1].cnfg - start == configi * interval;
    assert (configi * interval) as real == configi as real * interval as real;
    DivisionCancels(configi as real, interval as real);
  }

  lemma DivisionCancels(x: real, y: real)
    requires y != 0.0
    ensures (x * y) / y == x
  {
  }

  /**
   * Lines 96-100: fill the per-configuration table for configurations
   * `0 .. totconfigs - 1` in order, stopping at the first absolute id without a
   * table row.
   */
  method ResolveSourceTimes(table: seq<SourceRow>, start: int, interval: int, totconfigs: nat)
    returns (res: Result<array<ResolvedRow>, int>)
    requires interval != 0
    ensures res.Success? <==> forall c :: 0 <= c < totconfigs ==> ResolveRow(table, start, interval, c).Success?
    ensures res.Success? ==>
              && fresh(res.value) && res.value.Length == totconfigs
              && forall c :: 0 <= c < totconfigs ==> ResolveRow(table, start, interval, c) == Success(res.value[c])
    ensures res.Failure? ==>
              exists c :: && 0 <= c < totconfigs
                          && ResolveRow(table, start, interval, c) == Failure(res.error)
                          && forall c' :: 0 <= c' < c ==> ResolveRow(table, start, interval, c').Success?
  {
    var rows := new ResolvedRow[totconfigs](_ => ResolvedRow(0.0, 0, 0));
    for configi := 0 to totconfigs
      invariant forall c :: 0 <= c < configi ==> ResolveRow(table, start, interval, c) == Success(rows[c])
    {
      var r := ResolveRow(table, start, interval, configi);
      if r.Failure? {
        return Failure(r.error);
      }
      rows[configi] := r.value;
    }
    res := Success(rows);
  }
}
