# RHEAs-HTP-CAL in Dafny

A model of the decision logic and the text formats of a high-throughput
workflow for refractory high-entropy alloys. The workflow has four parts:

- **Combination generator.** It enumerates the 4-element combinations of nine
  refractory elements. It averages their properties and keeps the combinations
  whose mean melting point is at least 2000 K. It writes both lists to text
  files.
- **Concentration generator.** It normalises random draws into concentration
  sets, 36 per combination. It appends one text block per combination to the
  concentration file.
- **Input reader.** It reads the combinations from one file and the
  concentrations from the concentration file. It warns when the counts are
  not 126 and 126 × 36.
- **EMTO-CPA driver.** It covers:
  - submitting jobs to a SLURM scheduler;
  - reading `squeue` output into a status map and deciding each poll round (done, long wait, short wait);
  - collecting job ids from `sbatch` output;
  - finding the first line of an analysis log that mentions a keyword;
  - accepting or refining the Wigner-Seitz radius range of the equation-of-state pass;
  - building the Cprime and C44 distortion matrices over a grid of six amplitudes;
  - writing a header-once CSV result row.

Modules:

- `Wrappers`: Option and Result.
- `Text`: the Python string operations used.
  - `str.strip` is `Strip`; `str.split()` is `Tokens`; `str.split(sep)` is `Split`; `sep.join` is `Join`.
  - `startswith` is `StartsWith`; `in` is `Contains`; `str.find` is `Find`.
  - Iterating over a file's lines is `Lines`; writing lines is `Concat`.
- `TextFiles`: a file as its content, changed by `Truncate` (mode 'w') and `Write`.
- `AlloyCombinations`: refractory_alloy_combinations.py.
- `Concentrations`: generate_alloy_concentrations.py.
- `HpcReader`: hpc-cal.py.
- `JobMonitor`, `Extractor`, `Convergence`, `ElasticStage` and `ResultTable`: emto-cpa.py.
- `FileRoundTrip`: the concentration file written by one script and read by the other.

The code behaves as follows where its names or comments suggest otherwise:

- **Unrecognised states.** An unrecognised `squeue` state keeps the poll round
  from completing (cal/emto-cpa.py:73-75). It is not treated permissively.
- **Concentration units.** Concentrations are percentages that sum to 100. They
  are not fractions that sum to 1.
- **Unreadable log files.** `extract_parameters` returns None both for a missing
  keyword and for a file it cannot read. There is no separate read error.
- **Concentration lists.** `read_concentrations` returns one list per data line.
  Its `current_concentration_set` accumulator is never filled, so the branches
  that save it never fire. `HpcReader.ConcentrationsRead` has no such
  accumulator.
- **Which file the reader reads.** `main` of hpc-cal.py reads the species
  from `alloy_combinations.txt` (cal/hpc-cal.py:48). No script writes a file of
  that name. refractory_alloy_combinations.py writes `all_combinations.txt`,
  one bare `Ti, V, Nb, Ta` line per combination. `read_combinations` only takes
  lines that start with `Combination: `, and the combinations file has none
  (`FileRoundTrip.CombinationsFileReadsEmpty`). On that file `main` therefore
  warns "Expected 126 combinations, but found 0"
  (`FileRoundTrip.MainOnCombinationsFile`). The header lines appear only in the
  concentration file, so the round trip is stated with both readers given the
  concentration file (`FileRoundTrip.ConcentrationFileReadsBack`).

## Model

| member | source | states |
|---|---|---|
| JobMonitor.GetJobStatus | cal/emto-cpa.py:40-50 | the loop computes `StatusOf`: the status map is built from the lines of the stripped output after the header line; a row that does not split into exactly two fields is the error ValueError raises |
| JobMonitor.StatusOkIffWellFormed | cal/emto-cpa.py:46-49 | reading succeeds exactly when every row after the header has exactly two whitespace-separated fields |
| JobMonitor.StatusErrPersists | cal/emto-cpa.py:47-49 | once a row has raised, later rows do not change the outcome: the exception leaves the loop |
| JobMonitor.StatusKeySet | cal/emto-cpa.py:46-49 | for well-formed rows, the keys of the status map are exactly the first fields of the rows |
| JobMonitor.StatusKeys | cal/emto-cpa.py:46-49 | an id is in the map if and only if some row has it as its first field |
| JobMonitor.StatusLastRowWins | cal/emto-cpa.py:48-49 | an id maps to the state in its last row: a later row for the same id overwrites an earlier one |
| JobMonitor.HeaderOnly | cal/emto-cpa.py:44-47 | output holding only the header line yields an empty map |
| JobMonitor.PollRound | cal/emto-cpa.py:58-85 | the loop over the map with its two flags gives the round decision: done when every state is CG, else the long wait when some state is PD, else the short wait |
| JobMonitor.NoJobsIsDone | cal/emto-cpa.py:58-79 | an empty status map completes the round |
| JobMonitor.UnfinishedBlocksDone | cal/emto-cpa.py:61-75 | any state other than CG (R, CF, PD or unrecognised) keeps the round from completing |
| JobMonitor.PendingForcesLongWait | cal/emto-cpa.py:67-82 | one PD job forces the 115-second wait whatever the other jobs report |
| JobMonitor.RunningGetsShortWait | cal/emto-cpa.py:58-85 | jobs that are all running and none pending get the 15-second wait |
| JobMonitor.WaitForJobs | cal/emto-cpa.py:53-85 | polling stops at the first round in which every job reports CG, after none earlier did; the time slept is 5 s before each read plus each non-final round's back-off; running out of rounds means no round completed |
| JobMonitor.HarvestJobIds | cal/emto-cpa.py:269-274 | the loop computes `Harvested`, through `SubmittedId` per line: the ids are the last tokens of the stripped lines that start with "Submitted batch job", in output order |
| JobMonitor.HarvestedAppend | cal/emto-cpa.py:463-468 | harvesting two pieces of output one after the other gives the first's ids followed by the second's |
| JobMonitor.SubmittedIdOfSbatch | cal/emto-cpa.py:269-274 | the line sbatch prints for an id reads back as that id, both by the harvesting loop and by the single-job `split()[-1]` of line 249 |
| JobMonitor.HarvestedOfSbatch | cal/emto-cpa.py:482-487 | harvesting the sbatch output of any sequence of ids returns exactly those ids, in order |
| JobMonitor.SingleJobId | cal/emto-cpa.py:249 | `output.strip().split()[-1]` has no value (IndexError) exactly when the output is all whitespace |
| Extractor.ExtractParameters | cal/emto-cpa.py:117-130 | an unreadable file gives None; otherwise the result is None if and only if no line contains the keyword, and else it is the whitespace-split fields of the stripped first line that does |
| Convergence.RefinedRange | cal/emto-cpa.py:324-326 | five values, strictly increasing, 0.01 apart, with the centre at index 2 |
| Convergence.Assess | cal/emto-cpa.py:306-326 | R-squared below 0.9 stops before any range check; otherwise the radius is accepted if and only if it lies within the first and last radius of the range, bounds included; otherwise the next range is the refined range around it |
| Convergence.RefinedRangeAcceptsCentre | cal/emto-cpa.py:319-326 | a good fit whose optimum is the centre of a refined range is accepted on that range |
| Convergence.AssessExamples | cal/emto-cpa.py:309-326 | 2.55 inside [2.50 .. 2.70] is accepted, 2.72 is refined to [2.70, 2.71, 2.72, 2.73, 2.74], and a 0.85 fit stops the run |
| Convergence.Converge | cal/emto-cpa.py:192-326 | the driver loop, which reassigns the radius range on each refinement, ends as the accept/refine recursion `Run` does from the initial range |
| Convergence.ConvergedIsSound | cal/emto-cpa.py:309-321 | a converged result is the fit of the range last tested: R-squared of at least 0.9, an optimum within that range, and a range that is the initial one or a refined one; at most the budgeted passes were run |
| Convergence.ConvergesAfterOneRefinement | cal/emto-cpa.py:319-326 | when the second fit's optimum is within two steps of the first one, the run converges on the second pass |
| ElasticStage.Linspace | cal/emto-cpa.py:180 | `num` evenly spaced values from `start`, (stop - start)/(num - 1) apart |
| ElasticStage.Deltas | cal/emto-cpa.py:180-182 | six amplitudes: the first forced to 0.001 and the k-th equal to 0.01·k |
| ElasticStage.DeltasShape | cal/emto-cpa.py:180-182 | the amplitudes are 0.001, 0.01 … 0.05, strictly increasing and positive |
| ElasticStage.Grid | cal/emto-cpa.py:373-374 | the distortions of line 185 by the amplitudes, 2 × 6 = 12 points: all Cprime amplitudes first, then all C44 amplitudes, in amplitude order |
| ElasticStage.GridAt | cal/emto-cpa.py:373-374 | point p is the (p / 6)-th distortion at the (p mod 6)-th amplitude |
| ElasticStage.GridDistinct | cal/emto-cpa.py:373-374 | no grid point repeats |
| ElasticStage.DistortionMatrix | cal/emto-cpa.py:377-389 | Cprime is diagonal (1+δ, 1−δ, 1/(1−δ²)); C44 has ones on the diagonal, δ at (1,2) and (2,1) and 1/(1−δ²) last; both are symmetric with determinant 1; the matrix is the identity if and only if δ = 0 |
| ElasticStage.NotIdentity | cal/emto-cpa.py:377-389 | a non-zero amplitude never gives the identity transform |
| ElasticStage.GridNeverIdentity | cal/emto-cpa.py:181-189 | every grid point has a well-defined matrix that differs from the identity, so the symmetry is broken at the first amplitude too |
| ElasticStage.MeshFor | cal/emto-cpa.py:396-403 | Cprime uses a cubic k-mesh (41³); C44 has equal x and y counts and a larger z count (40, 40, 45) |
| ResultTable.JobName | cal/emto-cpa.py:187-190 | the job name is the symbols of all sites concatenated in order |
| ResultTable.JobNameExample | cal/emto-cpa.py:187-190 | the species [[Nb, Mo, Ta, W]] give the name NbMoTaW |
| ResultTable.Headers | cal/emto-cpa.py:569-571 | "System", one "Element X" column per symbol of the first site, then the twelve result columns |
| ResultTable.DataRow | cal/emto-cpa.py:573-576 | the job name, the first site's concentrations, then the twelve results |
| ResultTable.RowMatchesHeader | cal/emto-cpa.py:569-577 | with one concentration per symbol, the header and data rows have equal length and every value sits under its own column |
| ResultTable.CsvFile.WriteToCsv | cal/emto-cpa.py:142-148 | the header row is written only into an empty file; then exactly one data row is appended, and earlier rows are unchanged |
| ResultTable.AppendAllToNonEmpty | cal/emto-cpa.py:142-148 | appending to a file that has rows adds only the data rows, in order |
| ResultTable.AppendAllFromEmpty | cal/emto-cpa.py:142-148 | a new file written by any number of runs holds exactly one header row, at the top, followed by the data rows in order |
| AlloyCombinations.Keys | alloy_input_generation/refractory_alloy_combinations.py:28 | the element symbols in table order |
| AlloyCombinations.RefractoryCombinations | alloy_input_generation/refractory_alloy_combinations.py:9-29 | the nine symbols are distinct and give 126 combinations of four |
| AlloyCombinations.GenerateCombinations | alloy_input_generation/refractory_alloy_combinations.py:21-29 | C(n, k) combinations, each of k members |
| AlloyCombinations.ChooseCount | alloy_input_generation/refractory_alloy_combinations.py:29 | the index enumeration has C(n − lo, k) entries |
| AlloyCombinations.ChooseShape | alloy_input_generation/refractory_alloy_combinations.py:29 | every index combination has k strictly increasing indices in range |
| AlloyCombinations.ChooseComplete | alloy_input_generation/refractory_alloy_combinations.py:29 | every strictly increasing k-tuple of indices is enumerated |
| AlloyCombinations.ChooseSorted | alloy_input_generation/refractory_alloy_combinations.py:29 | the enumeration is in strictly increasing lexicographic order |
| AlloyCombinations.GeneratedAt | alloy_input_generation/refractory_alloy_combinations.py:28-29 | each combination picks its members by strictly increasing key index |
| AlloyCombinations.GeneratedAreSelections | alloy_input_generation/refractory_alloy_combinations.py:28-29 | a list of symbols is generated if and only if it picks k keys in key order |
| AlloyCombinations.GeneratedDistinct | alloy_input_generation/refractory_alloy_combinations.py:28-29 | with distinct keys, no combination repeats and no combination repeats a member |
| AlloyCombinations.BinomialNineFour | alloy_input_generation/refractory_alloy_combinations.py:70-72 | C(9, 4) = 126 |
| AlloyCombinations.Lookup | alloy_input_generation/refractory_alloy_combinations.py:39 | `elements[element]` is defined exactly for the table's keys (KeyError otherwise) and gives the symbol's entry |
| AlloyCombinations.PropertyOf | alloy_input_generation/refractory_alloy_combinations.py:10-18 | exactly the three property names are defined |
| AlloyCombinations.PropertyValues | alloy_input_generation/refractory_alloy_combinations.py:39 | the members' property values in order, or the first member's lookup error |
| AlloyCombinations.AverageProperty | alloy_input_generation/refractory_alloy_combinations.py:31-40 | a lookup error is passed on; an empty combination is ZeroDivisionError; otherwise the average times the length is the sum |
| AlloyCombinations.AverageWithinBounds | alloy_input_generation/refractory_alloy_combinations.py:39-40 | the average lies between the least and the greatest member value |
| AlloyCombinations.AverageDefined | alloy_input_generation/refractory_alloy_combinations.py:39-40 | a non-empty combination of known symbols has an average of each of the three properties |
| AlloyCombinations.GeneratedAveragesDefined | alloy_input_generation/refractory_alloy_combinations.py:76-79 | every generated combination has all three averages |
| AlloyCombinations.FilterCombinations | alloy_input_generation/refractory_alloy_combinations.py:42-56 | the loop computes `Filtered`: the combinations whose average is at least the threshold, in order, or the first error an average raises |
| AlloyCombinations.FilteredOkIff | alloy_input_generation/refractory_alloy_combinations.py:51-56 | filtering succeeds if and only if every combination has an average |
| AlloyCombinations.FilteredMembers | alloy_input_generation/refractory_alloy_combinations.py:51-56 | a combination is kept if and only if it is in the list and its average is at least the threshold |
| AlloyCombinations.FilteredIsSubsequence | alloy_input_generation/refractory_alloy_combinations.py:51-56 | the kept combinations are an order-preserving subsequence of the input |
| AlloyCombinations.FilterIdempotent | alloy_input_generation/refractory_alloy_combinations.py:51-56 | filtering the result again with the same threshold gives it back unchanged |
| AlloyCombinations.CombinationLines | alloy_input_generation/refractory_alloy_combinations.py:65-66 | one line per combination: the members joined by ", " and a newline |
| AlloyCombinations.SaveCombinationsToFile | alloy_input_generation/refractory_alloy_combinations.py:58-66 | the file is overwritten with the combination lines, one per combination |
| AlloyCombinations.CombinationLinesReadBack | alloy_input_generation/refractory_alloy_combinations.py:64-66 | reading the file line by line gives back exactly the written lines |
| AlloyCombinations.MainFilterDefined | alloy_input_generation/refractory_alloy_combinations.py:84-86 | filtering the 126 combinations by melting point at 2000 raises nothing |
| AlloyCombinations.GenerateAndSave | alloy_input_generation/refractory_alloy_combinations.py:68-95 | one file holds all combinations and the other those with a mean melting point of at least 2000 |
| Concentrations.Normalise | alloy_input_generation/generate_alloy_concentrations.py:23 | each value divided by the total and scaled to 100 |
| Concentrations.SumNormalise | alloy_input_generation/generate_alloy_concentrations.py:22-23 | the normalised values add up to the sum divided by the total, times 100 |
| Concentrations.GenerateRandomConcentrations | alloy_input_generation/generate_alloy_concentrations.py:10-25 | `num_sets` sets of one value per member, each the normalised draws of its set; the first set of a non-empty combination whose draws sum to zero is the ZeroDivisionError |
| Concentrations.NormalisedSetSums | alloy_input_generation/generate_alloy_concentrations.py:21-23 | a normalised set of non-negative draws adds up to 100, each value within [0, 100] |
| Concentrations.Pieces | alloy_input_generation/generate_alloy_concentrations.py:37 | `zip` pairs symbols and concentrations by position, as many as the shorter list has, each as "elem: conc%" |
| Concentrations.BlockLines | alloy_input_generation/generate_alloy_concentrations.py:35-38 | a block is the header line (`HeaderLine`: "Combination: " and the symbols joined by ", "), one line per set (`SetLine`: the pieces joined by ", "), and an empty line |
| Concentrations.SaveConcentrationSetsToFile | alloy_input_generation/generate_alloy_concentrations.py:27-38 | appending keeps the earlier content in front and adds the block's lines after it |
| Concentrations.FileLinesCount | alloy_input_generation/generate_alloy_concentrations.py:35-52 | with m sets per combination the file has m + 2 lines per combination |
| Concentrations.SaveAllConcentrations | alloy_input_generation/generate_alloy_concentrations.py:50-52 | one block per combination, appended in the order of the combinations |
| HpcReader.ParseHeader | cal/hpc-cal.py:11 | the text after the first ": ", stripped and split on ", ", when there is a second field; the split gives at least one name |
| HpcReader.HeaderParses | cal/hpc-cal.py:10-11 | a line that starts with "Combination: " always has that second field |
| HpcReader.HeaderEntry | cal/hpc-cal.py:10-12 | a line adds one combination exactly when it starts with "Combination: " |
| HpcReader.ReadCombinations | cal/hpc-cal.py:4-13 | the combinations of the header lines, in file order |
| HpcReader.CombinationsReadAppend | cal/hpc-cal.py:8-12 | reading two pieces of a file gives the first's combinations followed by the second's |
| HpcReader.HeaderRoundTrip | cal/hpc-cal.py:10-12 | the header line the concentration generator writes for a combination of plain names reads back as that combination |
| HpcReader.MatchHereIsMatch | cal/hpc-cal.py:30 | the leftmost regex match at a position exists exactly when `(\w+): ([\d.]+)%` matches there, and its value is the greedy number group |
| HpcReader.MatchHereSound | cal/hpc-cal.py:30 | a match found is a match of the pattern with maximal word and number runs |
| HpcReader.MatchHereComplete | cal/hpc-cal.py:30 | any match of the pattern at a position is the one found |
| HpcReader.FindAllValues | cal/hpc-cal.py:30 | every value is a non-empty run of digits and dots |
| HpcReader.FindAllPiece | cal/hpc-cal.py:30 | a piece "name: conc%" contributes its concentration and scanning resumes after it |
| HpcReader.FindAllSetLine | cal/hpc-cal.py:30 | `findall` on a set line as generate_alloy_concentrations.py writes it returns its concentrations, in order |
| HpcReader.CheckFloats | cal/hpc-cal.py:31 | every value converts, or the error names a value that does not |
| HpcReader.ConcentrationsErrPersists | cal/hpc-cal.py:31 | a failing conversion ends the read: later lines do not change the outcome |
| HpcReader.ConcentrationsCount | cal/hpc-cal.py:20-31 | a successful read gives one list per non-blank line that is not a header line |
| HpcReader.ReadConcentrations | cal/hpc-cal.py:15-37 | the loop computes `ConcentrationsRead`: header and blank lines add nothing, every other line adds the list of its converted matches |
| HpcReader.ConcentrationsReadAppend | cal/hpc-cal.py:20-31 | reading two pieces of a file combines the two reads: the first error, else both lists appended |
| HpcReader.Warnings | cal/hpc-cal.py:56-60 | the combination warning appears exactly when the count is not 126, and the concentration warning exactly when it is not 126 × 36 |
| HpcReader.CheckInputs | cal/hpc-cal.py:46-60 | main reads both files and warns according to their counts |
| FileRoundTrip.HeaderLineEntries | cal/hpc-cal.py:10-26 | a written header line gives its combination to read_combinations and nothing to read_concentrations |
| FileRoundTrip.SetLineEntries | cal/hpc-cal.py:28-31 | a written set line adds no combination and gives its concentrations as one list |
| FileRoundTrip.BlankLineEntries | cal/hpc-cal.py:28 | the empty line closing a block adds nothing to either reader |
| FileRoundTrip.BlockRead | cal/hpc-cal.py:4-37 | a written block reads back as its combination and its sets |
| FileRoundTrip.FileLinesRead | cal/hpc-cal.py:4-37 | the lines of a whole file read back as all combinations in order and all their sets, block after block |
| FileRoundTrip.ConcentrationFileReadsBack | cal/hpc-cal.py:4-37 | reading the text generate_alloy_concentrations.py writes gives back the combinations and the sets |
| FileRoundTrip.FullFileHasNoWarnings | cal/hpc-cal.py:52-60 | a concentration file of 126 combinations with 36 sets each, given to both readers, triggers neither warning |
| FileRoundTrip.GeneratedReadable | alloy_input_generation/generate_alloy_concentrations.py:45-52 | every generated combination of the nine elements is written in a form the reader reads back |
| FileRoundTrip.PipelineHasNoWarnings | cal/hpc-cal.py:46-60 | the generated concentration file of 126 combinations and 36 sets each, given to both readers, reads back to the same combinations and sets with no warning; this is main's behaviour only if its combinations file were the concentration file |
| FileRoundTrip.CombinationsFileReadsEmpty | cal/hpc-cal.py:4-13 | read_combinations finds no combination in the file refractory_alloy_combinations.py writes, whose lines never start with "Combination: " |
| FileRoundTrip.MainOnCombinationsFile | cal/hpc-cal.py:46-60 | given the all-combinations file that refractory_alloy_combinations.py writes, main reads no species and prints the combination warning with a count of 0 |
| Text.Tokens | cal/emto-cpa.py:124 | `str.split()`: non-empty runs of non-space characters, and none exactly when the text is all whitespace |
| Text.TokensOfJoin | cal/emto-cpa.py:273 | splitting space-joined tokens gives them back |
| Text.Find | cal/hpc-cal.py:11 | the first position at which the pattern occurs, or none when it does not occur |
| Text.SplitOfJoin | cal/hpc-cal.py:11 | splitting on a two-character separator undoes joining with it, for parts that do not contain it |
| Text.Lines | cal/hpc-cal.py:20 | file iteration: the lines put back together are the text |
| Text.LinesOfConcat | cal/hpc-cal.py:20 | text written as lines that each end in their only newline is read back as the same lines |
| Text.StripTrailing | cal/emto-cpa.py:271 | stripping trailing whitespace from text without edge whitespace gives the text |

## Left out

- Scheduler and shell calls are not modelled. `squeue`, `sbatch` and `bash` are replaced by the text they print, and each poll round's status map is an input.
- Sleeping is not performed. `time.sleep` is counted as the seconds slept.
- These filesystem effects are not part of this model:
  - the output check `check_files`;
  - directory changes;
  - the `.prn` renaming (cal/emto-cpa.py:498-516);
  - `sys.exit`.

  An exit is a result value.
- The pyemto calls and the input files they prepare are not part of this model:
  - `inp_parameter`, `prepare_input_files`, `write_kgrn_kfcd_swsrange` and `distort`;
  - the equation-of-state and elastic analyses.

  An equation-of-state pass is a function from a range to its fitted R-squared and optimum radius.
- The lattice-constant cube roots (cal/emto-cpa.py:343-349) are not modelled. They are floating-point arithmetic on extracted values.
- Floating point is idealised:
  - floats are reals;
  - the file-name formatting (`:.6f`, `:4.2f`) is left out;
  - the text a float prints as is left out.

  Concentrations and results reach the files as text given as input.
- Printing, logging and stdout redirection are left out. `update_emto_parameters` only prints.
- The script is not runnable as written. It has broken indentation at cal/emto-cpa.py:326, undefined names, and a call of `inp_parameter` with too few arguments. The intended accept/refine loop is modelled as `Convergence.Converge`.
- Convergence.Converge: the source repeats passes without bound; the model stops after `maxPasses` passes with `OutOfPasses`.
- JobMonitor.WaitForJobs: the source polls forever; the model polls the given rounds and reports `Timeout` when they run out.
- Concentrations.GenerateRandomConcentrations: the rounding to two decimals is not modelled. The random draws are an input.
- ElasticStage.DistortionMatrix requires δ² ≠ 1, where the source would divide by zero. The grid's amplitudes all satisfy this (`ElasticStage.GridNeverIdentity`).
- HpcReader.CheckFloats: `float()` is modelled only as a check that the text has at least one digit and at most one dot. No number is produced; the value stays text.
- HpcReader.ParseHeader: a header line without a second ": " field would raise IndexError; here it gives None. No line that starts with "Combination: " reaches that case.
- The regular expression and `strip` use ASCII classes. Unicode `\w`, `\d` and whitespace are not modelled.
- CSV quoting is not modelled. A row is its list of fields.
- FileRoundTrip.PipelineHasNoWarnings and FileRoundTrip.FullFileHasNoWarnings give read_combinations the concentration file. main of cal/hpc-cal.py reads the combinations from `alloy_combinations.txt`, which no script writes. On the combinations file the scripts do write, main warns that it found 0 combinations (FileRoundTrip.MainOnCombinationsFile).
- Text.Lines ends lines at '\n' only. Python's text-mode iteration also ends a line at '\r' and turns '\r\n' into '\n'. The files the scripts write contain no '\r'.
- alloy_input_generation/generate_fcc_alloy_inputs.py is not part of this model. It only drives pyemto.
