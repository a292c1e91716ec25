/**
 * The whole of correlator_analysis_boundary_cond.py past its file reading: reshape
 * every type (lines 38-73), resolve the source times (lines 96-100), correct the types
 * in place (lines 107-161) and check the magnitudes (lines 167-174). The raw series,
 * the type names and the source-time table are the files' contents; the parameters
 * the script fixes by hand are arguments.
 *
 * The check compares each corrected matrix with a copy of it taken before the
 * correction, not with the corrected matrix itself as the script's alias does.
 */
module Pipeline {
  import opened Wrappers
  import opened Matrices
  import opened Reshape
  import opened SourceTimes
  import opened Boundary
  import opened Validation

  /** Why a run stops before correcting: a raw series too short for the rows read (IndexError at line 53-54), or an absolute id with no table row (IndexError at line 99-100). */
  datatype RunError = ShapeMismatch(typeIndex: nat) | LookupFailure(absoluteId: int)

  /**
   * What a run leaves behind: the per-type value matrices (corrected for the first
   * `processed` types), the per-type label matrices, the classification failure that
   * stopped the correction if any, and one verdict per type.
   */
  datatype Report = Report(values: seq<array2<int>>, labels: seq<array2<int>>, processed: nat,
                           stop: Option<ClassifyError>, verdicts: seq<Verdict>)

  /** Raw rows every series needs. */
  function NeededRows(totconfigs: nat, mintsep: nat, maxtsep: int): nat
    requires mintsep <= maxtsep + 1
  {
    Span(TotTseps(mintsep, maxtsep), totconfigs, TsepsPeriod(mintsep, maxtsep))
  }

  predicate Resolvable(table: seq<SourceRow>, start: int, interval: int, totconfigs: nat)
    requires interval != 0
  {
    forall c :: 0 <= c < totconfigs ==> ResolveRow(table, start, interval, c).Success?
  }

  /** Source time of every configuration for operator `comp`, straight from the table. */
  function TableSourceTimes(table: seq<SourceRow>, start: int, interval: int, totconfigs: nat, comp: Component): (ts: seq<int>)
    requires interval != 0 && Resolvable(table, start, interval, totconfigs)
    ensures |ts| == totconfigs
  {
    seq(totconfigs, c requires 0 <= c < totconfigs => SourceTime(ResolveRow(table, start, interval, c).value, comp))
  }

  /**
   * Lines 47-73 for every type in order, stopping at the first raw series that lacks
   * a row the reshaper reads. Alongside the matrices it returns a copy of every value
   * matrix, for the magnitude check.
   */
  method ReshapeTypes(raws: seq<seq<Sample>>, tottseps: nat, totconfigs: nat, period: nat)
    returns (short: Option<nat>, values: seq<array2<int>>, labels: seq<array2<int>>, before: seq<seq<seq<int>>>)
    ensures short.Some? ==>
              && short.value < |raws| && |raws[short.value]| < Span(tottseps, totconfigs, period)
              && forall j :: 0 <= j < short.value ==> Span(tottseps, totconfigs, period) <= |raws[j]|
    ensures short.None? ==>
              && (forall i :: 0 <= i < |raws| ==> Span(tottseps, totconfigs, period) <= |raws[i]|)
              && |values| == |labels| == |before| == |raws|
              && (forall j :: 0 <= j < |raws| ==> fresh(values[j]) && fresh(labels[j]))
              && (forall j, k :: 0 <= j < k < |raws| ==> values[j] != values[k])
              && (forall j, k :: 0 <= j < |raws| && 0 <= k < |raws| ==> values[j] != labels[k])
              && forall j :: 0 <= j < |raws| ==>
                   && values[j].Length1 == totconfigs
                   && before[j] == ReshapedValues(raws[j], tottseps, totconfigs, period)
                   && Snapshot(values[j]) == before[j]
                   && Snapshot(labels[j]) == ReshapedLabels(raws[j], tottseps, totconfigs, period)
  {
    values, labels, before := [], [], [];
    for i := 0 to |raws|
      invariant |values| == |labels| == |before| == i
      invariant forall j :: 0 <= j < i ==> Span(tottseps, totconfigs, period) <= |raws[j]|
      invariant forall j :: 0 <= j < i ==> fresh(values[j]) && fresh(labels[j])
      invariant forall j, k :: 0 <= j < k < i ==> values[j] != values[k]
      invariant forall j, k :: 0 <= j < i && 0 <= k < i ==> values[j] != labels[k]
      invariant forall j :: 0 <= j < i ==>
                  && values[j].Length1 == totconfigs
                  && before[j] == ReshapedValues(raws[j], tottseps, totconfigs, period)
                  && Snapshot(values[j]) == before[j]
                  && Snapshot(labels[j]) == ReshapedLabels(raws[j], tottseps, totconfigs, period)
    {
      if |raws[i]| < Span(tottseps, totconfigs, period) {
        return Some(i), values, labels, before;
      }
      var v, l, _ := ReshapeType(raws[i], tottseps, totconfigs, period);
      values, labels, before := values + [v], labels + [l], before + [Snapshot(v)];
    }
    short := None;
  }

  /** Lines 168-174: one verdict per type, each matrix checked against its copy. */
  method ValidateTypes(values: seq<array2<int>>, before: seq<seq<seq<int>>>) returns (verdicts: seq<Verdict>)
    requires |values| == |before|
    requires forall i :: 0 <= i < |values| ==> SameShape(Snapshot(values[i]), before[i])
    ensures |verdicts| == |values|
    ensures forall i :: 0 <= i < |values| ==> verdicts[i] != ErrorNumber2
    ensures forall i :: 0 <= i < |values| ==> verdicts[i] == Validate(Snapshot(values[i]), before[i])
  {
    verdicts := [];
    for i := 0 to |values|
      invariant |verdicts| == i
      invariant forall j :: 0 <= j < i ==> verdicts[j] == Validate(Snapshot(values[j]), before[j])
    {
      verdicts := verdicts + [Validate(Snapshot(values[i]), before[i])];
    }
  }

  /**
   * Lines 107-174: correct the types in place, then check every matrix against its
   * copy from before correction. The label matrices are not touched.
   */
  method CorrectAndValidate(names: seq<string>, values: seq<array2<int>>, labels: seq<array2<int>>,
                            before: seq<seq<seq<int>>>, rows: array<ResolvedRow>, mintsep: int, tott: int)
    returns (processed: nat, stop: Option<ClassifyError>, verdicts: seq<Verdict>)
    requires |names| == |values| == |labels| == |before|
    requires forall j, k :: 0 <= j < k < |values| ==> values[j] != values[k]
    requires forall j, k :: 0 <= j < |values| && 0 <= k < |values| ==> values[j] != labels[k]
    requires forall j :: 0 <= j < |values| ==>
               && values[j].Length1 == rows.Length && IsMatrix(before[j], rows.Length)
               && Snapshot(values[j]) == before[j]
    modifies set i | 0 <= i < |values| :: values[i]
    ensures processed <= |names|
    ensures forall i :: 0 <= i < processed ==> Classify(names[i]).Success?
    ensures processed < |names| ==>
              Classify(names[processed]).Failure? && stop == Some(Classify(names[processed]).error)
    ensures processed == |names| ==> stop == None
    ensures forall i :: 0 <= i < processed ==>
              Snapshot(values[i]) == CorrectMatrix(Classify(names[i]).value.dir, before[i],
                                                   ColumnSourceTimes(rows[..], Classify(names[i]).value.comp), mintsep, tott)
    ensures forall i :: processed <= i < |values| ==> Snapshot(values[i]) == before[i]
    ensures forall i :: 0 <= i < |labels| ==> Snapshot(labels[i]) == old(Snapshot(labels[i]))
    ensures |verdicts| == |values| && forall i :: 0 <= i < |values| ==> verdicts[i] == Ok
  {
    processed, stop := CorrectTypes(names, values, rows, mintsep, tott);
    forall i | 0 <= i < |values|
      ensures SameShape(Snapshot(values[i]), before[i]) && Validate(Snapshot(values[i]), before[i]) == Ok
    {
      if i < processed {
        var kind := Classify(names[i]).value;
        CorrectedTypePassesCheck(kind.dir, before[i], ColumnSourceTimes(rows[..], kind.comp), mintsep, tott);
      } else {
        AliasedCheckAlwaysPasses(before[i]);
      }
    }
    verdicts := ValidateTypes(values, before);
  }

  method Run(names: seq<string>, raws: seq<seq<Sample>>, table: seq<SourceRow>,
             totconfigs: nat, maxtsep: int, mintsep: nat, start: int, interval: int, tott: int)
    returns (res: Result<Report, RunError>)
    requires |raws| == |names|
    requires mintsep <= maxtsep + 1
    requires interval != 0
    ensures res.Failure? && res.error.ShapeMismatch? ==>
              && res.error.typeIndex < |raws|
              && |raws[res.error.typeIndex]| < NeededRows(totconfigs, mintsep, maxtsep)
              && forall j :: 0 <= j < res.error.typeIndex ==> NeededRows(totconfigs, mintsep, maxtsep) <= |raws[j]|
    ensures res.Failure? && res.error.LookupFailure? ==>
              && (forall i :: 0 <= i < |raws| ==> NeededRows(totconfigs, mintsep, maxtsep) <= |raws[i]|)
              && exists c :: && 0 <= c < totconfigs
                             && ResolveRow(table, start, interval, c) == Failure(res.error.absoluteId)
                             && forall c' :: 0 <= c' < c ==> ResolveRow(table, start, interval, c').Success?
    ensures res.Success? ==>
              && (forall i :: 0 <= i < |raws| ==> NeededRows(totconfigs, mintsep, maxtsep) <= |raws[i]|)
              && Resolvable(table, start, interval, totconfigs)
    ensures res.Success? ==>
              var r := res.value;
              var tottseps := TotTseps(mintsep, maxtsep);
              var period := TsepsPeriod(mintsep, maxtsep);
              && |r.values| == |r.labels| == |r.verdicts| == |names|
              && (forall i :: 0 <= i < |names| ==> fresh(r.values[i]) && fresh(r.labels[i]))
              && r.processed <= |names|
              && (forall i :: 0 <= i < r.processed ==> Classify(names[i]).Success?)
              && (r.processed < |names| ==>
                    Classify(names[r.processed]).Failure? && r.stop == Some(Classify(names[r.processed]).error))
              && (r.processed == |names| ==> r.stop == None)
              && (forall i :: 0 <= i < r.processed ==>
                    Snapshot(r.values[i]) ==
                    CorrectMatrix(Classify(names[i]).value.dir, ReshapedValues(raws[i], tottseps, totconfigs, period),
                                  TableSourceTimes(table, start, interval, totconfigs, Classify(names[i]).value.comp),
                                  mintsep, tott))
              && (forall i :: r.processed <= i < |names| ==>
                    Snapshot(r.values[i]) == ReshapedValues(raws[i], tottseps, totconfigs, period))
              && (forall i :: 0 <= i < |names| ==>
                    Snapshot(r.labels[i]) == ReshapedLabels(raws[i], tottseps, totconfigs, period))
              && (forall i :: 0 <= i < |names| ==> r.verdicts[i] == Ok)
  {
    var tottseps := TotTseps(mintsep, maxtsep);
    var period := TsepsPeriod(mintsep, maxtsep);

    // Lines 47-73.
    var short, values, labels, before := ReshapeTypes(raws, tottseps, totconfigs, period);
    if short.Some? {
      return Failure(ShapeMismatch(short.value));
    }

    // Lines 96-100.
    var resolved := ResolveSourceTimes(table, start, interval, totconfigs);
    if resolved.Failure? {
      return Failure(LookupFailure(resolved.error));
    }
    var rows := resolved.value;
    forall comp: Component
      ensures ColumnSourceTimes(rows[..], comp) == TableSourceTimes(table, start, interval, totconfigs, comp)
    {
    }

    // Lines 107-174.
    var processed, stop, verdicts := CorrectAndValidate(names, values, labels, before, rows, mintsep, tott);
    res := Success(Report(values, labels, processed, stop, verdicts));
  }
}
