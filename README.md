# NormalisedTraces: the trace processor in Dafny

NormalisedTraces rewrites numeric trace files. Each file is a list of rows of
integers. The processor (`ProcessTraceFile`) is built with three things:
- a reader that parses a file into rows, or fails;
- a column count `numColumns`;
- a list of multipliers `delta`.

`Process(outputFolder, directoryAndSearchPatterns)` runs in this order:
1. It checks the configuration: with fewer multipliers than columns it returns at once.
2. It rejects a null list of path specifications.
3. It creates the output folder.
4. It takes each specification in turn. A specification naming an existing
   file handles that file. Any other specification is split into a directory
   and a search pattern, and every matching file is handled (`ReadFiles`).

Handling a file means:
- Read it. A failed read skips the file.
- Otherwise `WriteTraceOutput` truncates the file at the rebuilt path. That
  path is the input file's directory combined with its file name.
- It then writes one line per row: the first `numColumns` entries, each
  multiplied by its `delta` and rounded, joined by commas.
- It stops at the first row that has fewer than `numColumns` entries, which
  leaves the lines written so far.

The model has seven modules:
- `Wrappers`: `Option`.
- `Rounding`: `Math.Round`, idealised on exact reals.
- `CsvLine`: the comma-joined line, plus a parser that is its inverse.
- `Paths`: directory name, file name, combine.
- `TraceTransform`: which rows are written, and as what.
- `TraceFiles`: specification functions giving the file system after one
  file, one batch and a whole run.
- `Application`: classes `FileSystem` and `ProcessTraceFile`. The
  imperative methods keep the source's loops and are proved against the
  `TraceFiles` functions.

Inputs and collaborators:
- The file system is an object holding a map from path to lines and a set
  of directories.
- The reader is a function of the current map and a path, so a read sees
  the writes made earlier in the same run.
- Directory enumeration is a function of the map, the directory and the
  pattern, returning the matching paths in enumeration order.
- A null C# collection is `None`.
- `ArgumentNullException` is the status `ArgumentNull`, carrying the
  parameter name.
- The early return after the configuration check is the status
  `ConfigurationRejected`.

Points a reader might not expect:
- The rounding is `Math.Round(double)`'s default, round half to even, and
  not half away from zero.
- `outputFolder` is created but never used as a destination. Every output
  goes to the path rebuilt from the input file, so `Process`'s `ensures`
  gives the new files without any reference to `outputFolder`.
- `numColumns` is a C# `int`. A negative count passes the configuration
  check, makes no row short, and turns every row into an empty line
  (`ZeroColumns`).
- The output folder is created even when the list of specifications is
  empty. It is not created when the configuration is rejected or the list
  is null.

## Model

| member | source | states |
|---|---|---|
| Application.ProcessTraceFile.constructor | src/Application/ProcessTraceFile.cs:14-19 | the processor keeps the reader, column count and multipliers it is given |
| Application.ProcessTraceFile.Process | src/Application/ProcessTraceFile.cs:21-55 | with fewer multipliers than columns: returns rejected and changes nothing, even for a null list. With a null list after the check: the argument error for `directoryAndSearchPatterns`, nothing changed. Otherwise: the output folder exists afterwards, and the files are the result of handling every specification in order |
| Application.ProcessTraceFile.ProcessSpecification | src/Application/ProcessTraceFile.cs:38-53 | a specification naming an existing file reads that file and, if the read succeeds, writes it. Any other specification runs the batch over the files enumerated for its directory and pattern |
| Application.ProcessTraceFile.ReadFiles | src/Application/ProcessTraceFile.cs:57-68 | null list: the argument error for `files`, the file system unchanged. Otherwise the files are handled in order, each failed read skipped and each success written |
| Application.ProcessTraceFile.WriteTraceOutput | src/Application/ProcessTraceFile.cs:70-95 | afterwards the rebuilt output path holds the lines of the rows before the first short row, and every other path is unchanged |
| TraceTransform.Take | src/Application/ProcessTraceFile.cs:88 | LINQ `Take`: a prefix of the multipliers, of length `numColumns` clamped to `[0, |delta|]` |
| TraceTransform.TakeAfterGate | src/Application/ProcessTraceFile.cs:23 | once the configuration check has passed, exactly `numColumns` multipliers are taken (none when the count is negative) |
| TraceTransform.AdjustRow | src/Application/ProcessTraceFile.cs:88-90 | for a row with at least `numColumns` entries, every `row[index]` read is in range. The result has one entry per multiplier `Take` yields, and entry `i` is `row[i]` scaled by `delta[i]` and rounded. After the configuration check there are exactly `numColumns` entries |
| TraceTransform.FirstShort | src/Application/ProcessTraceFile.cs:79-86 | the index of the first row shorter than `numColumns`: every earlier row is long enough and that row is short |
| TraceTransform.ScaledRows | src/Application/ProcessTraceFile.cs:79-93 | the row loop: the adjusted rows, one per input row in order, stopping at the first short row (its properties are the lemmas below) |
| TraceTransform.OutputLines | src/Application/ProcessTraceFile.cs:79-93 | the lines the output file holds after the row loop: the rendered adjusted rows |
| TraceTransform.Render | src/Application/ProcessTraceFile.cs:92 | one text line per adjusted row |
| TraceTransform.ScaledRowsLength | src/Application/ProcessTraceFile.cs:79-86 | one adjusted row per row before the first short row |
| TraceTransform.ScaledRowsAt | src/Application/ProcessTraceFile.cs:79-90 | adjusted row `k` is the adjustment of input row `k` (order is kept) |
| TraceTransform.ScaledRowsAppend | src/Application/ProcessTraceFile.cs:79-93 | rows that are all long enough, followed by more rows, give the two outputs one after the other |
| TraceTransform.RenderAppend | src/Application/ProcessTraceFile.cs:92 | rendering keeps the order of the adjusted rows |
| TraceTransform.OutputLinesAt | src/Application/ProcessTraceFile.cs:79-93 | the output holds exactly as many lines as the row count before the first short row. Line `k` is the comma join of adjusted row `k` |
| TraceTransform.EarlyAbortPrefix | src/Application/ProcessTraceFile.cs:81-86 | if row `k` is the first short row, the output has `k` lines and is the output of the first `k` rows alone. Later rows, even well-formed ones, are not written |
| TraceTransform.AllRowsWritten | src/Application/ProcessTraceFile.cs:79-93 | every row is written if and only if no row is short |
| TraceTransform.OutputLinesSnoc | src/Application/ProcessTraceFile.cs:79-93 | one more long row appends exactly that row's line |
| TraceTransform.LineShape | src/Application/ProcessTraceFile.cs:88-92 | after the check, each written line reads back as exactly `numColumns` integers, entry `i` being the scaled `row[i]` |
| TraceTransform.TrailingColumnsIgnored | src/Application/ProcessTraceFile.cs:88-89 | entries at index `numColumns` and beyond never affect the output |
| TraceTransform.ZeroColumns | src/Application/ProcessTraceFile.cs:81-90 | with a column count of zero or less, every row is written, as an empty line |
| TraceTransform.UnitDeltaKeepsColumns | src/Application/ProcessTraceFile.cs:88-92 | multipliers of 1.0 keep a row's first `numColumns` entries unchanged, and its line reads back as them |
| TraceTransform.TwoColumnExample | src/Application/ProcessTraceFile.cs:79-93 | with two columns and multipliers 2.0, 0.5, rows [10,3] and [10,5] both become "20,2" |
| Rounding.RoundHalfEven | src/Application/ProcessTraceFile.cs:89 | `Math.Round` on the exact product: the nearest integer, ties to even (its properties are `RoundHalfEvenNearest`) |
| Rounding.RoundHalfEvenNearest | src/Application/ProcessTraceFile.cs:89 | `Math.Round`: the result is within one half of the value, and on a tie it is even |
| Rounding.ScaleCell | src/Application/ProcessTraceFile.cs:89 | one cell: `Math.Round(delta * row[index])`, on exact reals |
| Rounding.RoundHalfEvenUnique | src/Application/ProcessTraceFile.cs:89 | the two properties of `RoundHalfEvenNearest` determine the rounded value |
| Rounding.ScaleCellUnit | src/Application/ProcessTraceFile.cs:89 | scaling by 1.0 leaves a cell unchanged |
| Rounding.TiesGoToEven | src/Application/ProcessTraceFile.cs:89 | 1.5 and 2.5 round to 2, and -2.5 to -2 |
| CsvLine.IntToString | src/Application/ProcessTraceFile.cs:92 | the decimal text of an integer is non-empty and holds no comma |
| CsvLine.Join | src/Application/ProcessTraceFile.cs:92 | `string.Join(',', ...)`: the parts with one comma between neighbours (inverted by `SplitJoin`) |
| CsvLine.JoinInts | src/Application/ProcessTraceFile.cs:92 | the line written for an adjusted row: its integers' decimal texts joined by commas (inverted by `JoinIntsRoundTrip`) |
| CsvLine.NatRoundTrip | src/Application/ProcessTraceFile.cs:92 | the decimal text of a natural number parses back to it |
| CsvLine.IntRoundTrip | src/Application/ProcessTraceFile.cs:92 | the decimal text of an integer, sign included, parses back to it |
| CsvLine.SplitJoin | src/Application/ProcessTraceFile.cs:92 | splitting the comma join of comma-free parts at commas gives back the parts |
| CsvLine.ParseAllTexts | src/Application/ProcessTraceFile.cs:92 | the texts of a list of integers parse back to the list |
| CsvLine.JoinIntsNonEmpty | src/Application/ProcessTraceFile.cs:92 | a line made from at least one integer is not empty |
| CsvLine.JoinIntsRoundTrip | src/Application/ProcessTraceFile.cs:92 | round trip: a written line parses back to exactly the integers of its adjusted row |
| CsvLine.JoinIntsInjective | src/Application/ProcessTraceFile.cs:92 | two adjusted rows give the same line if and only if they are equal |
| Paths.LastSeparator | src/Application/ProcessTraceFile.cs:72-73 | the position of the last separator, or -1 when there is none |
| Paths.DirectoryName | src/Application/ProcessTraceFile.cs:72 | `Path.GetDirectoryName`: the text before the last separator, the root when it comes first, empty when there is none |
| Paths.FileName | src/Application/ProcessTraceFile.cs:73 | the file name holds no separator |
| Paths.Combine | src/Application/ProcessTraceFile.cs:74 | `Path.Combine`: the name appended to the directory, with a separator between them unless the directory is empty or already ends in one |
| Paths.OutputPath | src/Application/ProcessTraceFile.cs:72-74 | the rebuilt output path of an input file (equal to the input for a plain path, by `OutputPathIsInput`) |
| Paths.OutputPathIsInput | src/Application/ProcessTraceFile.cs:72-74 | for a path without a doubled separator before its file name, the rebuilt output path is the input path itself |
| TraceFiles.WriteFile | src/Application/ProcessTraceFile.cs:72-93 | the effect of `WriteTraceOutput`: the rebuilt output path holds the output lines of the rows, and no other path changes (partners `OutputReplacesInput`, `UpdateTwice`) |
| TraceFiles.ReadOne | src/Application/ProcessTraceFile.cs:64-66 | read one file and, when the read succeeds, write its transform; a failed read changes nothing (partner `ReadOneFrame`) |
| TraceFiles.ReadAll | src/Application/ProcessTraceFile.cs:62-67 | the batch loop: every file in order, each read seeing the writes before it (partners `ReadAllAppend`, `FailedReadSkipped`, `AllReadsFail`, `ReadAllFrame`) |
| TraceFiles.ProcessOne | src/Application/ProcessTraceFile.cs:39-53 | one path specification: an existing file is read alone, anything else is split and enumerated into a batch (partner `ExistingFileIsReadAlone`) |
| TraceFiles.ProcessAll | src/Application/ProcessTraceFile.cs:37-54 | the loop over path specifications, in order (partners `ProcessAllAppend`, `ProcessAllSnoc`) |
| TraceFiles.UpdateTwice | src/Application/ProcessTraceFile.cs:78-92 | writing the same path twice leaves only the second contents |
| TraceFiles.OutputReplacesInput | src/Application/ProcessTraceFile.cs:72-78 | the output overwrites the input file itself, which afterwards holds the transformed lines |
| TraceFiles.ReadAllAppend | src/Application/ProcessTraceFile.cs:62-67 | a batch run in two parts equals the whole batch: files are handled strictly in order |
| TraceFiles.FailedReadSkipped | src/Application/ProcessTraceFile.cs:64-66 | a file whose read fails is skipped, and the rest of the batch runs as if it were absent |
| TraceFiles.AllReadsFail | src/Application/ProcessTraceFile.cs:62-67 | a batch in which every read fails leaves the file system unchanged |
| TraceFiles.ReadOneFrame | src/Application/ProcessTraceFile.cs:64-66 | handling one file changes at most its own output path |
| TraceFiles.ReadAllFrame | src/Application/ProcessTraceFile.cs:62-67 | a path that is no file's output path keeps its existence and its contents through a batch |
| TraceFiles.LastSuccessfulWriteWins | src/Application/ProcessTraceFile.cs:62-67 | when the batch's last file reads successfully, its output path ends up holding that file's transform |
| TraceFiles.ReadAllSnoc | src/Application/ProcessTraceFile.cs:62-67 | the batch over one more file handles that file after the others |
| TraceFiles.ProcessAllSnoc | src/Application/ProcessTraceFile.cs:37-54 | the run over one more specification handles it after the others |
| TraceFiles.ProcessAllAppend | src/Application/ProcessTraceFile.cs:37-54 | specifications, like files, are handled strictly in order |
| TraceFiles.ExistingFileIsReadAlone | src/Application/ProcessTraceFile.cs:39-46 | a specification naming an existing file is handled like a batch of that one file |

## Left out

- Console output (the messages at lines 25-26, 30, 76 and 83-84) is not modelled. It has no effect on files.
- CsvLine.IntToString: assumes the invariant culture, so a negative number is written with the ASCII '-'. `Int32.ToString()` in the source uses the current culture's negative sign, which in some cultures is U+2212. On such a machine `JoinIntsRoundTrip` says nothing about the file actually written.
- Rounding.RoundHalfEven: the product `delta * row[index]` is an exact real, not an IEEE double. Floating-point error, NaN and infinities are not modelled.
- TraceTransform.AdjustRow: does not model the `(int)` cast of a rounded value outside the 32-bit range. The model keeps the unbounded integer.
- Directory.CreateDirectory: only the output folder is added to the set of directories. Creating missing parents is not modelled, and neither are IO exceptions or argument exceptions. An empty or null `outputFolder` makes the call throw after the null-list check, so nothing is processed; the model returns `Completed` instead.
- Directory.EnumerateFiles: glob matching and enumeration order are not modelled; the enumerator is an abstract function. Its exceptions are not modelled either: a missing directory, an empty directory part of a pattern, or the argument exception a null element of the specification list causes. Where the source throws, the model carries on and returns `Completed`.
- File.Exists is "the path is a key of the file map". Directory paths, permissions and races are not modelled.
- The reader's tokenising and parsing live in the reader strategy, which is not part of this model. It is an abstract function that either fails or returns rows.
- Paths: `Path.GetDirectoryName`, `Path.GetFileName` and `Path.Combine` use '/' as the only separator. Roots, drive letters and normalisation of repeated separators are not modelled beyond what `OutputPathIsInput` states. A path ending in a separator, such as `a/`, is rebuilt unchanged by the model, while .NET rebuilds it as `a` (and `/` alone makes `Path.Combine` throw). Neither `File.Exists` nor `Directory.EnumerateFiles` yields such a path, so it never reaches `WriteTraceOutput`.
- StreamWriter: buffering, flushing, disposal and IO errors are not modelled. Each written line appears in the file at once, and the lines written before an early return stay in the file.
- Exceptions thrown by the reader or by `WriteTraceOutput` would abort a run midway. The model has no such path.
