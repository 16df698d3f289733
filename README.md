# Wfdbexec: running a WFDB tool and reading its output as a table

The WFDB Toolbox for MATLAB and Octave runs the WFDB command-line tools
through the Java class `org.physionet.wfdb.Wfdbexec`. This project is a Dafny
model of that class's deterministic core, with proofs about it.

- **The command vector** (`gen_exec_arguments`): the path of the native binary
  followed by the caller's arguments.
- **The child's environment** (`setLauncher`): the map the process inherits,
  with the loader path, `WFDBNOSORT` and `WFDB_PATH` set.
- **The platform fields** (`set_environment`): the operating system's name is
  normalised, and the toolbox's home directory and the directory of its native
  binaries are derived from the location of its own class files.
- **The numeric-table parser** (`execToDoubleArray`):
  - Every output line is trimmed and split on runs of white space.
  - Every token goes through the fallback chain in order: number, then `-` as
    NaN, then time stamp as NaN, then a character code.
  - A first line that holds no real data is rejected.
  - The exit status is checked after the last line has been read.
  - The table's width comes from the last line, and the rows are copied into
    a fresh `double[rows][N]`, with the time-column copy as lines 271-280
    write it (see "## Findings").

The parser is given twice.
- `TableSpec.ParseTable` is a pure reference semantics, and `TableLemmas`
  restates it in closed form and proves its properties.
- `TableExec.ParseOutput` is an imperative version that follows the Java loops
  one statement at a time: the `index` variable of the time-column copy, the
  in-place writes into an `array2`. It is proved to produce exactly what
  `ParseTable` gives.

`Exec.Wfdbexec` is the object itself. Its fields are what the Java methods
assign, and its methods are the modelled Java methods.

Inputs in place of the outside world:
- `Double.valueOf` is a parameter `parse: string -> Option<Cell>`. The general
  lemmas assume only what `TableSpec.IsDoubleParser` says about it: it rejects
  `""`, `"-"` and every string that contains `:`. The worked examples also fix
  the values of the numerals they print (`ReadsNumerals`, `ReadsHalves`), and
  two of them also assume that the codes "N" and "V" are rejected
  (`RejectsCodes`).
- The lines the process prints and its exit status are inputs.
- The JVM properties `os.name`, `os.arch` and `file.separator`, and the
  URL-decoded code-source path, are a `Platform.SystemProperties` value.
- The environment the `ProcessBuilder` starts with is a `map<string, string>`.

The width `N` of the table is the token count of the last line read (line 261),
one less when there is a time column. Earlier rows wider than the last line are
truncated to `N` cells, and a narrower one makes the copy read past its end and
throw (line 278 or 287).

The model follows the code where the code and its comments disagree: the
time-column copy is modelled literally, although the comment at line 226 says
the column is removed (see "## Findings"). A corrected, column-dropping copy,
`TableSpec.ParseTableIntended`, is given beside it. The two are proved equal
when no time stamp occurs.

Modules: `Wrappers` (Option, Result), `Tokenizer` (`trim().split("\\s+")`),
`Platform`, `TableSpec`, `TableExec`, `TableLemmas`, `TableExamples` (worked
examples) and `Exec`.

## Model

| member | source | states |
|---|---|---|
| `Tokenizer.Tokens` | src/org/physionet/wfdb/Wfdbexec.java:211 | `trim().split("\\s+")` never gives an empty array, so every line read yields at least one token |
| `Tokenizer.EmptyTokenIffBlank` | src/org/physionet/wfdb/Wfdbexec.java:211 | the empty token occurs only as the single token of a line, and exactly for lines that `trim()` empties entirely |
| `Tokenizer.TrimFacts` | src/org/physionet/wfdb/Wfdbexec.java:211 | after `trim()` neither end is a character up to U+0020, and nothing is left exactly when every character is one |
| `Tokenizer.WordsFacts` | src/org/physionet/wfdb/Wfdbexec.java:211 | splitting on `\s+` gives non-empty tokens free of white space, and at least one token when the string starts with a non-space |
| `Tokenizer.TokensOfJoin` | src/org/physionet/wfdb/Wfdbexec.java:211 | round trip: tokenising a line printed as space-separated tokens gives back exactly those tokens |
| `Platform.Replace` | src/org/physionet/wfdb/Wfdbexec.java:334 | `String.replace`: every occurrence of the target, scanned left to right without overlap, replaced; its meaning is fixed by `ReplaceCharByNothing`, `ReplaceCharByChar`, `ReplaceSuffixOnly` and `ReplaceAtEndOnly` |
| `Platform.NormaliseOsName` | src/org/physionet/wfdb/Wfdbexec.java:333-338 | the OS name is the raw name with every space removed and lower-cased, except that a name that then starts with "windows" is exactly "windows"; it keeps no space and no upper-case letter |
| `Platform.LowerIdempotent` | src/org/physionet/wfdb/Wfdbexec.java:371 | the second `toLowerCase` at the native-bin path leaves the already normalised OS name unchanged |
| `Platform.PackageDir` | src/org/physionet/wfdb/Wfdbexec.java:345-351 | on Windows the package directory is the decoded path without a leading "/" and with every "/" turned into a backslash, so holds no "/"; elsewhere it is the decoded path unchanged |
| `Platform.LastComponent` | src/org/physionet/wfdb/Wfdbexec.java:357-362 | the last element of the split on the separator is a suffix of the path with no separator in it, preceded by the separator when it is not the whole path |
| `Platform.LastComponentOfPath` | src/org/physionet/wfdb/Wfdbexec.java:357-362 | for `dir + sep + name` with no separator in `name`, the last split element is `name` |
| `Platform.ReplaceSuffixOnly` | src/org/physionet/wfdb/Wfdbexec.java:363 | `replace` of `sep + name` touches only the trailing occurrence when the rest of the path has none |
| `Platform.JarHome` | src/org/physionet/wfdb/Wfdbexec.java:355-363 | run from `<dir><sep><archive>.jar`, the home directory is `<dir><sep>` (when the archive name occurs nowhere else in the path) |
| `Platform.DevelopmentHome` | src/org/physionet/wfdb/Wfdbexec.java:364-367 | run from a development tree's class directory `<dir>/bin/`, the home is the sibling `<dir>/mcode/`, for every `<dir>` in which "/bin/" occurs no earlier |
| `Platform.JavaHome` | src/org/physionet/wfdb/Wfdbexec.java:355-367 | `WFDB_JAVA_HOME`: from a jar, the path without every `sep + <archive>` and with `sep` appended; otherwise the path with every "/bin/" replaced by "/mcode/" (`JarHome`, `DevelopmentHome`) |
| `Platform.NativeBin` | src/org/physionet/wfdb/Wfdbexec.java:370-372 | `WFDB_NATIVE_BIN`: `home + "nativelibs" + sep + lower(os) + "-" + lower(arch) + sep`, as `SetEnvironment` stores it |
| `Platform.ReplaceAtEndOnly` | src/org/physionet/wfdb/Wfdbexec.java:366 | `replace` of `t` in `dir + t` rewrites only the trailing occurrence when no occurrence starts inside `dir` |
| `Platform.SetEnvironment` | src/org/physionet/wfdb/Wfdbexec.java:330-373 | the stored OS name is the normalised name, the architecture and separator are the properties, the package directory is the code-source path as `PackageDir` rewrites it, the home directory is `JavaHome` of that, and the native-bin directory is `home + "nativelibs" + sep + os + "-" + lower(arch) + sep` |
| `TableSpec.CoercePrefix` | src/org/physionet/wfdb/Wfdbexec.java:214-244 | the column loop yields one cell per token read, and the time column, once set, never moves; an unset one is set to an index already read |
| `TableSpec.Coerce` | src/org/physionet/wfdb/Wfdbexec.java:215-243 | one token through the fallback chain in order: the parse, then "-" as NaN, then a token with ':' as a NaN time stamp, then the code of the first character, and an exception for the empty token (`CoercePrefixThrows`, `CoercePrefixCells`, `CoercePrefixCount`) |
| `TableSpec.ReadLine` | src/org/physionet/wfdb/Wfdbexec.java:210-252 | a line that does not throw adds exactly one row to `results` and becomes `tmpStr` |
| `TableSpec.Tokenised` | src/org/physionet/wfdb/Wfdbexec.java:211 | one row of tokens per line, none of them empty, the empty token only as the whole row of a blank line |
| `TableSpec.ReadLines` | src/org/physionet/wfdb/Wfdbexec.java:210-253 | after `n` lines without exception there are `n` rows, `tmpStr` is null exactly when no line was read and is otherwise the last line's tokens |
| `TableSpec.FirstShortRow` | src/org/physionet/wfdb/Wfdbexec.java:283-289 | the index of the first row shorter than the width, the one the copy loop throws on: every row before it is wide enough |
| `TableSpec.TimeRow` | src/org/physionet/wfdb/Wfdbexec.java:271-280 | the closed form of the time-column copy of one row as written: `TableExec.CopyTimeRow` proves the literal loop equal to it, and `TableLemmas.TimeRowLosesLastValue` and `TimeColumnLast` say what it keeps and loses |
| `TableSpec.Materialise` | src/org/physionet/wfdb/Wfdbexec.java:269-290 | the copy into `double[rows][N]`: the first row shorter than `N` throws, else every row is copied by `OutRow` (`MaterialiseFacts`; `TableExec.FillTable` is the loop) |
| `TableSpec.Finish` | src/org/physionet/wfdb/Wfdbexec.java:255-290 | after the line loop: the exit status, then the null `tmpStr`, then the copy at the last line's width (`FinishWidth`, `FinishIsExpected`; `TableExec.Finalise` is the code) |
| `TableSpec.ParseTable` | src/org/physionet/wfdb/Wfdbexec.java:210-290 | `execToDoubleArray` on the given output and exit status, table or exception; `TableLemmas.ParseTableIsExpected`, `AcceptedIff`, `AcceptedTable`, `NoDataIff` and `NumericTable` fix its meaning, and `TableExec.ParseOutput` is proved to compute it |
| `TableSpec.IsDoubleParser` | src/org/physionet/wfdb/Wfdbexec.java:216 | what every `Double.valueOf` does and the general lemmas rely on: it throws on the empty string, on "-" and on every string holding ':' |
| `TableSpec.OutRow` | src/org/physionet/wfdb/Wfdbexec.java:271-289 | the `if(isTime>-1)` choice: the time-column copy `TimeRow` when there is a time column, else the row's first `N` cells (`MaterialiseFacts`) |
| `TableSpec.DropColumn` | src/org/physionet/wfdb/Wfdbexec.java:226 | the corrected copy of a row: its `n + 1` cells without cell `t`, in order |
| `TableSpec.CoercePrefixNoneStays` | src/org/physionet/wfdb/Wfdbexec.java:238-240 | once a token has thrown, the rest of the line does not change the outcome |
| `TableSpec.ReadLinesErrStays` | src/org/physionet/wfdb/Wfdbexec.java:210-253 | once a line has thrown, the lines after it are never read |
| `TableExec.CoerceLine` | src/org/physionet/wfdb/Wfdbexec.java:212-244 | the column loop over a `Double[]` in place computes exactly the cells, time column and `dataCheck` of the reference column loop, or the exception |
| `TableExec.ReadLineStep` | src/org/physionet/wfdb/Wfdbexec.java:210-252 | one pass of the line loop is the reference `ReadLine` |
| `TableExec.ReadAll` | src/org/physionet/wfdb/Wfdbexec.java:204-253 | the `while readLine` loop gives exactly the reference line loop's state or its first exception |
| `TableExec.CopyTimeRow` | src/org/physionet/wfdb/Wfdbexec.java:272-279 | the literal time-column copy of one row, with its stale `index`, writes the closed form `TimeRow` into that row and no other, and leaves `index` fit for the next row |
| `TableExec.PartialCellComplete` | src/org/physionet/wfdb/Wfdbexec.java:271-280 | after the `N` passes over one row the cells written are `TimeRow`, whatever value `index` carried over from the previous row |
| `TableExec.CopyPlainRow` | src/org/physionet/wfdb/Wfdbexec.java:286-288 | the plain copy writes the row's first `N` cells into that row and no other, and fails exactly when the row is shorter than `N` |
| `TableExec.FillTable` | src/org/physionet/wfdb/Wfdbexec.java:269-290 | the allocated `double[rows][N]` holds the reference copy `Materialise`, or the copy throws on the first short row |
| `TableExec.FinishWidth` | src/org/physionet/wfdb/Wfdbexec.java:261-264 | with exit status 0 and some line read, the width is the last line's token count, one less with a time column |
| `TableExec.Finalise` | src/org/physionet/wfdb/Wfdbexec.java:255-290 | after the line loop, the exit-status check, the null check on `tmpStr` and the copy give the reference result in a fresh array |
| `TableExec.ParseOutput` | src/org/physionet/wfdb/Wfdbexec.java:191-296 | the imperative parse returns exactly the table `ParseTable` gives (in a fresh array) or the exception it names |
| `TableExec.ParseTableFinishes` | src/org/physionet/wfdb/Wfdbexec.java:255-290 | once every line has been read, the result is decided by what follows the line loop alone |
| `TableExec.ParseTableOfReadError` | src/org/physionet/wfdb/Wfdbexec.java:210-253 | an exception in the line loop is the result, whatever the exit status |
| `TableLemmas.FirstColon` | src/org/physionet/wfdb/Wfdbexec.java:224-230 | the first token of a line holding ':', or -1 exactly when there is none |
| `TableLemmas.TimeColumn` | src/org/physionet/wfdb/Wfdbexec.java:228-230 | the time column is the first colon column of the first line that has one: the first one over all lines wins, and -1 exactly when no token has ':' |
| `TableLemmas.FirstBlank` | src/org/physionet/wfdb/Wfdbexec.java:234-241 | the first row holding the empty token: no row before it does |
| `TableLemmas.CoercePrefixThrows` | src/org/physionet/wfdb/Wfdbexec.java:234-241 | the column loop throws exactly when one of its tokens is empty |
| `TableLemmas.CoercePrefixCells` | src/org/physionet/wfdb/Wfdbexec.java:214-231 | without exception each cell is its own token's value in fallback order, and the time column is kept if known and else is the line's first colon column |
| `TableLemmas.CoercePrefixCount` | src/org/physionet/wfdb/Wfdbexec.java:231-237 | `dataCheck` grows by at most the token count, and by exactly that count iff every token is neither a number nor "-" |
| `TableLemmas.ReadOutcomeStep` | src/org/physionet/wfdb/Wfdbexec.java:210-252 | the closed form of the line loop advances line by line: blank line throws, only the first line can hold no data, others add their own cells |
| `TableLemmas.ReadLineFacts` | src/org/physionet/wfdb/Wfdbexec.java:210-252 | one line: a blank line throws a conversion error, a first line of fallbacks only throws "Cannot convert", any other line adds its own cells and fixes the time column if unset |
| `TableLemmas.ReadLinesFacts` | src/org/physionet/wfdb/Wfdbexec.java:210-253 | the stateful line loop equals its closed form `ReadOutcome`: same exception, or same rows and time column |
| `TableLemmas.FinishIsExpected` | src/org/physionet/wfdb/Wfdbexec.java:255-290 | what follows the line loop agrees with the closed form `Expected` |
| `TableLemmas.ParseTableIsExpected` | src/org/physionet/wfdb/Wfdbexec.java:210-290 | for any parser that rejects what `Double.valueOf` must, `execToDoubleArray` is the closed form `Expected` over the lines' tokens |
| `TableLemmas.BlankRows` | src/org/physionet/wfdb/Wfdbexec.java:211 | a line's tokens hold the empty token iff the line is blank |
| `TableLemmas.FirstBlankLineThrows` | src/org/physionet/wfdb/Wfdbexec.java:234-241 | the first blank line throws a conversion error naming it, whatever follows and whatever the exit status, unless the first line was already rejected |
| `TableLemmas.NoDataIff` | src/org/physionet/wfdb/Wfdbexec.java:246-249 | "Cannot convert" is thrown iff the first line is not blank and all its tokens are time stamps or codes; "-" counts as data and later lines are never checked |
| `TableLemmas.ExpectedNoData` | src/org/physionet/wfdb/Wfdbexec.java:246-249 | `NoDataIff` over the rows of tokens |
| `TableLemmas.NonZeroExitAfterReading` | src/org/physionet/wfdb/Wfdbexec.java:256-259 | a non-zero exit status fails the parse when every line reads without exception, also for empty output |
| `TableLemmas.NoOutputIsEmpty` | src/org/physionet/wfdb/Wfdbexec.java:256-261 | no output with exit 0 fails on the null `tmpStr`; with a non-zero exit it fails on the exit status first |
| `TableLemmas.MaterialiseFacts` | src/org/physionet/wfdb/Wfdbexec.java:269-290 | the copy succeeds iff no row is narrower than the width, and then has one output row per row, each copied by `OutRow` |
| `TableLemmas.ExpectedTable` | src/org/physionet/wfdb/Wfdbexec.java:246-290 | `AcceptedIff` and `AcceptedTable` over the rows of tokens |
| `TableLemmas.NoBlankLine` | src/org/physionet/wfdb/Wfdbexec.java:211 | no row holds the empty token iff no line is blank |
| `TableLemmas.AcceptedIff` | src/org/physionet/wfdb/Wfdbexec.java:210-290 | a table is returned iff exit 0, some line, no blank line, a first line with data and no line narrower than the last line's width |
| `TableLemmas.ExpectedAccepted` | src/org/physionet/wfdb/Wfdbexec.java:210-290 | `AcceptedIff` over the rows of tokens |
| `TableLemmas.AcceptedTable` | src/org/physionet/wfdb/Wfdbexec.java:246-290 | a returned table has one row per line, in order, each the line's cells copied at the last line's width (extra cells dropped) with the time-column copy when there is one |
| `TableLemmas.TokenisedPrinted` | src/org/physionet/wfdb/Wfdbexec.java:211 | reading printed rows back gives exactly the rows of tokens |
| `TableLemmas.NumericTable` | src/org/physionet/wfdb/Wfdbexec.java:210-290 | round trip: rows of equal width of numbers and "-", printed by a tool that exits normally, come back as those values, "-" as NaN, in the same rows and columns |
| `TableLemmas.ExpectedNumeric` | src/org/physionet/wfdb/Wfdbexec.java:210-290 | `NumericTable` over the rows of tokens |
| `TableLemmas.ValueRowsShape` | src/org/physionet/wfdb/Wfdbexec.java:220-230 | rows of printed value tokens hold no empty token and no time stamp |
| `TableLemmas.TimeRowLosesLastValue` | src/org/physionet/wfdb/Wfdbexec.java:270-279 | for a row of `n + 1` cells whose time column `t < n` with `n >= 2`, the copy as written leaves column `n-1` at 0.0 and puts cell `t` (the time stamp's NaN) into column `t-1` when `t > 0`, unlike `DropColumn`, which keeps the last value |
| `TableLemmas.TimeColumnLast` | src/org/physionet/wfdb/Wfdbexec.java:271-280 | when the time column is the last one, the copy as written keeps the first `N` cells, which is the intended drop of that column |
| `TableLemmas.NoTimeColumnRead` | src/org/physionet/wfdb/Wfdbexec.java:224-231 | without a token holding ':' the line loop leaves `isTime` at -1 |
| `TableLemmas.IntendedWithoutTimeColumn` | src/org/physionet/wfdb/Wfdbexec.java:262-290 | without time stamps the corrected parse and the parse as written agree |
| `TableLemmas.MaterialiseIntendedFacts` | src/org/physionet/wfdb/Wfdbexec.java:269-280 | the corrected copy succeeds iff every row has `N + 1` cells, and then each output row is its row without the time column |
| `TableExamples.TwoLines` | src/org/physionet/wfdb/Wfdbexec.java:210-290 | "1.0 2.0" and "3.0 4.0" give the table [[1.0, 2.0], [3.0, 4.0]] |
| `TableExamples.TwoRows` | src/org/physionet/wfdb/Wfdbexec.java:210-290 | `TwoLines` over the rows of tokens |
| `TableExamples.TimeLineRead` | src/org/physionet/wfdb/Wfdbexec.java:214-231 | "0:01:02 1.5 2.5" is read as NaN, 1.5, 2.5 with time column 0 |
| `TableExamples.TimeRowCopies` | src/org/physionet/wfdb/Wfdbexec.java:269-280 | the row NaN, 1.5, 2.5 copies to 1.5, 0.0 as written and to 1.5, 2.5 as intended |
| `TableExamples.TimeColumnAsWritten` | src/org/physionet/wfdb/Wfdbexec.java:270-279 | as written, the line "0:01:02 1.5 2.5" gives the table [[1.5, 0.0]]: the 2.5 is lost |
| `TableExamples.TimeColumnIntended` | src/org/physionet/wfdb/Wfdbexec.java:226 | the corrected copy gives [[1.5, 2.5]] for the same line |
| `TableExamples.ReadBack` | src/org/physionet/wfdb/Wfdbexec.java:210-290 | printed rows of tokens parse as the closed form over those rows |
| `TableExamples.DashIsNaN` | src/org/physionet/wfdb/Wfdbexec.java:220-223 | WFDB's missing value "-" becomes NaN: "1.0 - 3.0" gives [[1.0, NaN, 3.0]] |
| `TableExamples.DashRow` | src/org/physionet/wfdb/Wfdbexec.java:220-223 | `DashIsNaN` over the row of tokens |
| `TableExamples.LastLineSetsWidth` | src/org/physionet/wfdb/Wfdbexec.java:261-269 | the width comes from the last line: "1.0 2.0" then "3.0" gives [[1.0], [3.0]] |
| `TableExamples.RaggedRows` | src/org/physionet/wfdb/Wfdbexec.java:261-269 | `LastLineSetsWidth` over the rows of tokens |
| `TableExamples.WiderLastLineThrows` | src/org/physionet/wfdb/Wfdbexec.java:283-289 | "3.0" then "1.0 2.0": the copy reads past the end of row 0 and throws |
| `TableExamples.WiderRows` | src/org/physionet/wfdb/Wfdbexec.java:283-289 | `WiderLastLineThrows` over the rows of tokens |
| `TableExamples.HeaderIsNoData` | src/org/physionet/wfdb/Wfdbexec.java:246-249 | a header line of annotation codes "N V" before data is rejected with "Cannot convert" |
| `TableExamples.BlankLineThrows` | src/org/physionet/wfdb/Wfdbexec.java:234-241 | an empty second line throws at line 1 and the third line is never read |
| `TableExamples.FailingTool` | src/org/physionet/wfdb/Wfdbexec.java:256-259 | a tool exiting with status 2 after printing "1.0 2.0" is reported by its exit status |
| `TableExamples.CodeAfterData` | src/org/physionet/wfdb/Wfdbexec.java:232-237 | a code after data is the code of its first character: "N" is 78.0 |
| `Exec.LaunchEnvironmentLookup` | src/org/physionet/wfdb/Wfdbexec.java:308-320 | `WFDBNOSORT` is "1", the loader variable is the native-bin directory, `WFDB_PATH` is set only when non-null, no other key is added and every other inherited key is unchanged |
| `Exec.LoaderVariableByPlatform` | src/org/physionet/wfdb/Wfdbexec.java:309-313 | on macOS only `DYLD_LIBRARY_PATH` is set, elsewhere only `LD_LIBRARY_PATH`, the other left as inherited |
| `Exec.LibraryPathVar` | src/org/physionet/wfdb/Wfdbexec.java:309-313 | the loader variable: `DYLD_LIBRARY_PATH` when the OS name holds "macosx", else `LD_LIBRARY_PATH` (`LoaderVariableByPlatform`) |
| `Exec.LaunchEnvironment` | src/org/physionet/wfdb/Wfdbexec.java:308-320 | the child's environment: the inherited map after the `put`s of `setLauncher`; `LaunchEnvironmentLookup` gives every key and value |
| `Exec.Wfdbexec.constructor` | src/org/physionet/wfdb/Wfdbexec.java:81-85 | the object keeps its command name and the platform fields `set_environment` computes; arguments, paths and the directory are null |
| `Exec.Wfdbexec.SetArguments` | src/org/physionet/wfdb/Wfdbexec.java:87-89 | sets the arguments and nothing else |
| `Exec.Wfdbexec.SetExecName` | src/org/physionet/wfdb/Wfdbexec.java:91-93 | sets the command name and nothing else |
| `Exec.Wfdbexec.SetExecutingDir` | src/org/physionet/wfdb/Wfdbexec.java:95-99 | sets the executing directory and nothing else |
| `Exec.Wfdbexec.SetWfdbPath` | src/org/physionet/wfdb/Wfdbexec.java:299-303 | sets `WFDB_PATH` and nothing else |
| `Exec.Wfdbexec.GenExecArguments` | src/org/physionet/wfdb/Wfdbexec.java:100-107 | the command vector is the native binary's path + command name, then the arguments in order and nothing else (length 1 + the argument count; one element for null arguments) |
| `Exec.Wfdbexec.SetLauncher` | src/org/physionet/wfdb/Wfdbexec.java:305-327 | the child's environment is `LaunchEnvironment` of the inherited map, and the launcher runs the command vector in the executing directory with standard error merged |
| `Exec.Wfdbexec.ExecToDoubleArray` | src/org/physionet/wfdb/Wfdbexec.java:187-297 | the arguments are set, the command vector is the native binary's path then the arguments in order, the launcher has environment `LaunchEnvironment` of the inherited map, that vector, the executing directory and merged standard error; command name, platform fields, `WFDB_PATH` and the directory are unchanged; the result is exactly the table or exception `ParseTable` gives for the tool's output and exit status |

## Left out

- Process plumbing is not modelled: `ProcessBuilder.start`, the `readLine` loop's stream, `waitFor`, `destroy`. The tool's output lines and exit status are inputs, and the launcher is returned, not started.
- `execToStringList` (lines 115-140 and 182-185) is not modelled. It is process I/O: it only drains the output lines, and returns null on any exception.
- `execWithStandardInput` (lines 143-179) and its `OutputReader` and `InputWriter` threads are not modelled. They pump pipes concurrently, and the thread classes are not part of this model.
- `synchronized` and sharing of the static fields between objects are not modelled. The static fields `WFDB_PATH`, `EXECUTING_DIR` and those `set_environment` assigns are fields of the one `Wfdbexec` object.
- Double.valueOf's grammar and floating point are not modelled. `Double.valueOf` is the parameter `parse`, of which the general lemmas assume only `TableSpec.IsDoubleParser`: it rejects `""`, `"-"` and strings with ':'. The worked examples also fix the values of their own numerals, and two of them assume that "N" and "V" are rejected. Cells are reals or NaN, not IEEE doubles.
- The `IOException` and `InterruptedException` handlers (lines 291-295) are left out. They are I/O failures that make the method return a null table.
- `URLDecoder.decode`, the code-source lookup and `System.getProperty` are not modelled. Their results are the `SystemProperties` input.
- The `UnsupportedEncodingException` handler (lines 352-354) is left out. It only prints a stack trace.
- Logging, `getEnvironment`, `printEnvironment`, `setLogLevel` and `main` are left out. They are diagnostics only.
- `DoubleArrayListCapacity` (lines 192-195) and its setter are left out. They only pre-size a list.
- Platform.LowerChar: `toLowerCase` is modelled on ASCII letters only, and without the default locale that `String.toLowerCase()` uses. Under a Turkish locale, for example, "AIX" would become "aıx". Operating-system and architecture names use no other letters.
- TableSpec.CharCode: `(double) tmpCharArr[0]` is modelled as the code point of the first Dafny `char`. This differs from Java's UTF-16 code unit only for characters outside the Basic Multilingual Plane.
- Platform.LastComponent: the file separator is one character, and `split(fileSeparator)` and `split(fileSeparator+fileSeparator)` both read as a split on that one character. On Windows the doubled backslash is the regex for one backslash.
- Platform.JarHome: stated only for the case where the code-source path is `<dir><sep><archive>.jar` and the archive's name occurs nowhere else in the path. Otherwise `replace` also removes the earlier occurrences, which `JavaHome` models but no lemma describes.

## Findings

| source | as written | input that shows it | evidently intended | confidence | as-written member | corrected member |
|---|---|---|---|---|---|---|
| src/org/physionet/wfdb/Wfdbexec.java:270-279 | Two defects. The copy loop at line 275 runs `k<N`, with `N` one less than the row's token count, so the row's last cell is never read; whenever the time column `t` lies inside a row of `N >= 2` output columns (`t < N`), the last output column is never written and stays 0.0. The assignment at line 278 sits outside the `if` at line 276, and `index` keeps its previous value, so when the time column `t` is above 0 the pass over it writes the time stamp's NaN into column `t-1` | the single line "0:01:02 1.5 2.5" with exit status 0 gives [[1.5, 0.0]]; the bound alone loses the 2.5, since column 0 is the time column | the time column is removed, as the comment at line 226 says: all `N+1` cells are read and every one but the time column is kept, giving [[1.5, 2.5]] | not executed | `TableExamples.TimeColumnAsWritten` | `TableExamples.TimeColumnIntended` |

The general form of the finding:
- `TableLemmas.TimeRowLosesLastValue` shows that, as written, the last column is always 0.0 whenever the time column lies inside a row of two or more columns. That comes from the bound. It also shows that column `t-1` receives the time stamp's NaN when `t > 0`. That comes from the unbraced assignment and the stale `index`.
- `TableLemmas.MaterialiseIntendedFacts` proves that the corrected copy, `TableSpec.MaterialiseIntended`, drops exactly the time column.
- `TableLemmas.IntendedWithoutTimeColumn` proves that the corrected parse agrees with the parse as written whenever no time stamp occurs.

`Exec.Wfdbexec.ExecToDoubleArray` keeps the behaviour as written, because the model is of the shipped code.
