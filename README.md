# Antiperiodic time-boundary correction of lattice correlators, in Dafny

This project models `correlator_analysis_boundary_cond.py`. The script post-processes two-point correlators measured on a lattice whose fermion fields are antiperiodic in time. It works in four steps:

- **Reshaper** (lines 38-73). Each correlator type comes as a flat raw series of (time separation, value) rows, with one block of `tsepsperiod = tottseps + mintsep` rows per configuration. The first two rows of every block are dropped. The rest becomes a `tottseps x totconfigs` matrix of values and a matching matrix of separation labels. This happens in two stages, through a flat "no zero" table.
- **Source-time resolver** (lines 96-100). Relative configuration `configi` stands for absolute configuration `start + configi*interval`. That id's row in the source-time table gives a relative index and the two source times (t00, t01).
- **Boundary corrector** (lines 107-161). Each type is classified by substrings of its file name. Then, column by column, an upward scan finds the first separation whose physical time lies past the boundary: `tsrc+mintsep+s >= tott` forward, `tsrc-mintsep-s <= -1` backward. The column is negated from there on. A backward matrix is first negated as a whole. Line 107 binds the "corrected" matrices to the same objects as the reshaped ones, so every negation is in place. The tail negation of a backward column therefore reads values the whole-matrix flip has already negated.
- **Validator** (lines 167-174). It compares the magnitudes of the corrected matrix and the matrix before correction, cell by cell, with a three-way verdict.

Modules, one per step:

- `Reshape` (reshape.dfy)
- `SourceTimes` (source_times.dfy)
- `Boundary` (boundary.dfy)
- `Validation` (validation.dfy)
- `Pipeline` (pipeline.dfy), which runs the whole script past its file reading

`Matrices` (matrices.dfy) and `Wrappers` (wrappers.dfy) hold shared helpers.

The state the script changes is kept as state. Matrices are `array2<int>`, the flat table is an `array`, and the resolved source-time table is an `array`. The corrector negates cells in place, with `modifies` clauses. Its slice assignment `dst[from:, c] = -src[from:, c]` is `AssignNegatedTail(dst, src, ...)`, and it is called with `dst` and `src` the same array, as in the script. Every method is proved against a pure function of the state it started from (`ReshapedValues`, `CorrectMatrix`, `ResolveRow`, `Validate`). The properties are lemmas about those functions.

Four points of the code decide how the model behaves:

- **Aliasing.** Line 107 binds the "corrected" matrices to the reshaped ones, so the negations at lines 124, 139 and 145 all act on one array. The backward branch depends on this: line 145 reads a column that line 139 has already negated. The result is `-orig` before the first crossing and `orig` from it on. Had line 107 made a copy, line 145 would set the tail to `-orig`, the same as the rest of the column, and the crossing would have no effect. `CorrectedValue` and `CorrectMatrix` state the aliased behaviour.
- **Shape errors.** The only shape failure is the IndexError at lines 53-54, raised when a row the reshaper reads is missing. Nothing checks that the raw length is a whole number of blocks, and extra rows are ignored. `ShapeMismatch` is raised in exactly the IndexError case.
- **Relative index.** Line 99 stores the true-division quotient as a float, and no later line reads it, so a non-integer quotient is not an error. The model stores the exact quotient as a `real`. `ResolvesOnConsistentTable` proves it equals `configi` when table row `k` lists id `k+1`.
- **Running twice.** Each tail flip at lines 124 and 145, and the whole-matrix flip at line 139, undoes itself. Running lines 118-146 again on their own output therefore restores the matrix from before the first run (`CorrectingTwiceRestores`). A second run silently undoes the first, which fits the warning at line 104.

## Model

| member | source | states |
|---|---|---|
| Reshape.TsepsPeriod | correlator_analysis_boundary_cond.py:41 | a configuration block is `maxtsep + 1` rows long |
| Reshape.SpanBoundsReads | correlator_analysis_boundary_cond.py:51-54 | every raw row read for a cell, `s + 2 + tsepsperiod*c`, lies below the span the series must cover, and the last cell's read is the span's last row |
| Reshape.LastReadInsideBlock | correlator_analysis_boundary_cond.py:40-54 | the last read of configuration c stays inside its own block of `tsepsperiod` rows exactly when `mintsep >= 2`; with a smaller `mintsep` it reads past its own block |
| Reshape.LabelIsSkipPlusIndex | correlator_analysis_boundary_cond.py:44-53 | for `mintsep >= 2`, on a series whose blocks list separations 0, 1, .. in order, label cell (s, c) is separation `s + 2`, which is the separation `mintsep + s` the corrector assumes exactly when `mintsep == 2` |
| Reshape.FlatRowInRange | correlator_analysis_boundary_cond.py:49-54 | every cell's row `s + tottseps*c` lies inside the `tottseps*totconfigs`-row flat table |
| Reshape.FlatRowInjective | correlator_analysis_boundary_cond.py:54 | two distinct cells never share a row of the flat table |
| Reshape.FlatRowOnto | correlator_analysis_boundary_cond.py:49-54 | every row of the flat table belongs to the cell `(k % tottseps, k / tottseps)`, so stage one writes the whole table |
| Reshape.StripLeading | correlator_analysis_boundary_cond.py:47-54 | stage one: flat row `s + tottseps*c` is raw row `s + 2 + tsepsperiod*c`, and label cell (s, c) is that row's separation |
| Reshape.SplitByConfig | correlator_analysis_boundary_cond.py:65-73 | stage two: value and label cell (s, c) are read from flat row `s + tottseps*c` |
| Reshape.ReshapeType | correlator_analysis_boundary_cond.py:47-73 | after both stages, value cell (s, c) is the value of raw row `s + 2 + tsepsperiod*c` and label cell (s, c) its separation; the two label matrices agree |
| SourceTimes.PyIndex | correlator_analysis_boundary_cond.py:99-100 | a table row index resolves exactly when it lies in [-n, n), to a row congruent to it modulo n (numpy's negative indexing) |
| SourceTimes.ResolveRow | correlator_analysis_boundary_cond.py:98-100 | configuration `configi` fails exactly when its absolute id has no table row; otherwise its source times are those of table row `start + configi*interval - 1` under numpy's indexing, whatever ids the table lists, and its relative index times `interval` is that row's id minus `start` |
| SourceTimes.ResolvesOnConsistentTable | correlator_analysis_boundary_cond.py:97-100 | when table row k lists id k+1, configuration `configi` gets relative index `configi` exactly and the source times of row `start + configi*interval - 1` |
| SourceTimes.ResolveSourceTimes | correlator_analysis_boundary_cond.py:96-100 | the resolved table holds `ResolveRow` of every configuration, or the run stops at the first configuration whose absolute id has no row |
| Boundary.Contains | correlator_analysis_boundary_cond.py:110-118 | Python's substring test: true exactly when `sub` occurs at some index of `s` |
| Boundary.Classify | correlator_analysis_boundary_cond.py:110-118 | a type is classified exactly when its name holds `fwd` or `bwd`, and `t00` or `t01`; the direction is forward exactly when `fwd` occurs, and the component is t00 exactly when `t00` occurs; a missing direction gives `UnknownDirection` |
| Boundary.SourceComponentAsWritten | correlator_analysis_boundary_cond.py:110-116 | as written, the component agrees with `Classify` on every classifiable name, and a name with neither tag keeps the previous type's component |
| Boundary.StaleSourceComponentReused | correlator_analysis_boundary_cond.py:110-121 | a name with no source tag is corrected with the previous type's (t01) source times as written, where `Classify` reports `UnknownSource` |
| Boundary.ColumnSourceTimesReadTable | correlator_analysis_boundary_cond.py:99-100 | column c of a type is corrected (line 121) with the source time listed for its operator in table row `start + c*interval - 1` (numpy-wrapped), whatever ids the table lists |
| Boundary.FirstCrossingFrom | correlator_analysis_boundary_cond.py:120-125 | the scan from k returns the first crossing separation in [k, n), or n if there is none |
| Boundary.FirstCrossing | correlator_analysis_boundary_cond.py:141-146 | the crossing is the first separation whose physical time is past the boundary, or the column length if none is |
| Boundary.FirstCrossingClosedForm | correlator_analysis_boundary_cond.py:122-144 | the first crossing is `max(0, tott - tsrc - mintsep)` forward and `max(0, tsrc - mintsep + 1)` backward, capped at the column length |
| Boundary.CrossesExactlyFromFirst | correlator_analysis_boundary_cond.py:120-125 | a column crosses at most once: separation s is at or past the first crossing exactly when s itself crosses |
| Boundary.CorrectedValue | correlator_analysis_boundary_cond.py:124-145 | forward: a value keeps its value before the first crossing and is negated from it on; backward: it is negated before the crossing and back to its original value from the crossing on |
| Boundary.CorrectMatrix | correlator_analysis_boundary_cond.py:118-146 | the corrected matrix has the shape of the matrix before correction |
| Boundary.CorrectedCell | correlator_analysis_boundary_cond.py:118-146 | a forward cell changes sign exactly when `tsrc + mintsep + s >= tott`; a backward cell changes sign exactly when `tsrc - mintsep - s > -1` |
| Boundary.MagnitudePreserved | correlator_analysis_boundary_cond.py:167-169 | every cell of the corrected matrix has the magnitude it had before correction |
| Boundary.CorrectingTwiceRestores | correlator_analysis_boundary_cond.py:104-145 | correcting the corrected matrix again gives back the matrix from before the first correction |
| Boundary.ForwardColumnWithoutCrossing | correlator_analysis_boundary_cond.py:119-125 | a forward column with `tsrc + mintsep + tottseps - 1 < tott` is left unchanged |
| Boundary.BackwardColumnWithoutCrossing | correlator_analysis_boundary_cond.py:139-146 | a backward column whose last physical time is still at least 0 ends up wholly negated |
| Boundary.NegateAll | correlator_analysis_boundary_cond.py:139 | every cell of the matrix is negated in place |
| Boundary.AssignNegatedTail | correlator_analysis_boundary_cond.py:124 | cells of column c from `from` on get the negated pre-assignment source values; nothing else changes, even when source and destination are one array |
| Boundary.FlipFromFirstCrossing | correlator_analysis_boundary_cond.py:120-125 | the scan of one column negates it from its first crossing on and changes no other column |
| Boundary.CorrectColumns | correlator_analysis_boundary_cond.py:119-125 | every column is negated from its own first crossing, using its configuration's source time |
| Boundary.CorrectType | correlator_analysis_boundary_cond.py:118-146 | the matrix of one type becomes `CorrectMatrix` of its value before, in place |
| Boundary.CorrectTypes | correlator_analysis_boundary_cond.py:107-161 | types are corrected in order, each one changing only its own matrix; the first unclassifiable type stops the loop and it and every later type stay untouched |
| Validation.Validate | correlator_analysis_boundary_cond.py:169-174 | the verdict is "ERROR" exactly when some cell's magnitude differs, and the third verdict ("ERROR number 2") is never given |
| Validation.AliasedCheckAlwaysPasses | correlator_analysis_boundary_cond.py:168-170 | a matrix checked against itself, as the aliased script does, always passes |
| Validation.AliasedCheckMissesMagnitudeChange | correlator_analysis_boundary_cond.py:168-172 | a changed magnitude is caught against the matrix from before correction, and missed when a matrix is checked against itself |
| Validation.CorrectedTypePassesCheck | correlator_analysis_boundary_cond.py:167-174 | the corrector's output passes the check against the matrix from before correction |
| Pipeline.ReshapeTypes | correlator_analysis_boundary_cond.py:47-73 | every type is reshaped into its own fresh matrices with a copy of the values, or the run stops at the first raw series too short for the rows read |
| Pipeline.ValidateTypes | correlator_analysis_boundary_cond.py:168-174 | one verdict per type, never the third one, each the check of that type's matrix against its copy |
| Pipeline.CorrectAndValidate | correlator_analysis_boundary_cond.py:107-174 | after correction, every type's check against its copy from before correction is "ok", and the label matrices are unchanged |
| Pipeline.Run | correlator_analysis_boundary_cond.py:38-174 | end to end: a shape or lookup failure names the first offending type or absolute id; otherwise every corrected type holds `CorrectMatrix` of its reshaped raw values, every other type its reshaped values, every label matrix the raw labels, and every verdict is "ok" |

## Findings

| source | as written | input that shows it | evidently intended | confidence | as-written member | corrected member |
|---|---|---|---|---|---|---|
| correlator_analysis_boundary_cond.py:107-174 | line 107 binds the corrected matrices to the reshaped ones, so the check compares every matrix with itself and, for finite values, always prints "ok" | a corrector that turned a cell's 1 into 2: the check of `[[2]]` against itself passes | compare with a copy of the matrix taken before correction | high; not executed | Validation.AliasedCheckMissesMagnitudeChange | Pipeline.CorrectAndValidate |
| correlator_analysis_boundary_cond.py:110-121 | a type name with neither `t00` nor `t01` only prints a message and is corrected with the previous type's `tsrci` | types `corr_t01_fwd_row0.dat` then `corr_fwd.dat`: the second is corrected with t01 source times | stop with a classification error, as for a missing direction | medium; not executed | Boundary.StaleSourceComponentReused | Boundary.Classify |

## Left out

- Reading the correlator files and the source-time file (lines 19-32, 81) is left out. The raw series, the type file names and the table are given as sequences. Building the file names from the type strings (lines 21-23) is not modelled either: the names are given as they are.
- Plotting (lines 126-136, 147-157) and all printed messages are output sinks. They are left out. The validator's messages are the `Verdict` values.
- The script fixes `totconfigs`, `maxtsep`, `mintsep`, `tott`, `start` and `interval` at lines 38, 85 and 91. Here they are arguments of `Pipeline.Run`.
- Pipeline.Run: requires `mintsep` to be non-negative. A negative minimum separation is meaningless for the correlators, so it is excluded, although numpy would accept it (`mintsep = -1, maxtsep = 20` gives 22 separations in blocks of 21 rows).
- Pipeline.Run: requires `maxtsep + 1 >= mintsep`. Otherwise `tottseps` is negative and `np.zeros` at line 49 raises on the negative dimension.
- Correlator values are `int` rather than floating point. The script only negates them and takes `abs`, so for finite values nothing numerical is lost. A missing field, which `genfromtxt` at line 32 reads as NaN, is not modelled; a NaN cell fails even the check of a matrix against itself.
- SourceTimes.ResolveRow: requires `interval != 0`. In the script a zero interval gives a non-finite float relative index, which is never used afterwards.
- The script runs stage one of the reshaper for all types before stage two for any type. The model runs both stages per type. The stages only read the raw series, so the matrices are the same. A series that is too short is reported at the same type.
- Boundary.Classify: a type with neither source tag stops processing. That is the corrected behaviour of the second finding. The as-written reuse of a stale `tsrci` is modelled only by `SourceComponentAsWritten`. This includes the NameError when the first type has no tag, shown by `None` as the stale value.
- The stage-one label matrix (line 53) is computed by `Reshape.ReshapeType` and shown to equal the stage-two one. `Pipeline.Run` keeps only the stage-two labels, which are the ones the plots use.
