# VersaMesh core in Dafny

VersaMesh simplifies 3D tooth meshes with several MeshLab "clean and simplify"
variants. It then analyses them in R and collects the results in CSV tables.
This project models the three parts of the repository that hold logic of
their own. Everything else forwards calls to R or MeshLab.

- **The processing engine** (`ProcessEngine`, module `ProcessEngine`). A class
  holds the three string settings in a `map<string, string>` that
  `update_setting` and `setValue` change in place.
  - Setting "algorithms" splits the value on `,`, strips each entry and keeps
    the entries found in `SUPPORTED_ALGORITHMS`, in order. The loop and the
    printed notices are modelled.
  - Setting "inputFolder" checks the folder for `.ply` files.
  - `process` returns the trace of calls it would make, a sequence of
    `Simplify(script, inputDir, outputDir, remesh, preserveBoundary)` and
    `Smooth(folder)` events, instead of calling MeshLab and R.
- **Result aggregation** (`combineData`, module `Data`).
  - Every listed CSV file is read and each row is tagged with an algorithm
    label and a success flag taken from the file name.
  - Every `RFI` that `isfloat` rejects is replaced by "error" and tallied
    under its raw text in an insertion-ordered dict.
  - The combined rows and the tally are written to two tables.
- **The CSV table store** (`csvInterface`, module `CsvInterface`). The file
  system is a `map<string, seq<seq<string>>>` from path to rows, the first
  row being the header. The writers are methods of a `FileStore` class that
  append to that map. `extractData` is a function of it. `build_data_from_csv`
  is a method with a loop, proved to build the `File` index that `Index`
  defines.

Supporting modules model what the core takes from Python:
- `Dicts`: the insertion-ordered dict of a CSV record, with assignment and `pop`.
- `Text`: `str.split` on one character, `strip`, `join`, the substring test,
  `os.path.basename` and `str()` of a count.
- `Wrappers`: the exceptions the core raises, as `Result` and `Outcome`
  values.

Where the code and its design description differ, the model follows the code:
- When no entry of an "algorithms" value is supported, the engine prints that
  it made no changes. It still stores the value as given, instead of keeping
  the old setting (`NoneSupportedStoresRaw`).
- Every one of the eight distinct supported names is dispatched.
  `deVries_preserveBoundary` is dispatched twice, because its test is written
  twice (`SimplifyCounts`, `VariantCounts`).
- `R.smooth()` is called without arguments, so it smooths the folder
  "output" whatever `outputFolder` holds (`SmoothOnce`).
- `process` cannot fail for lack of algorithms: splitting a string always
  gives at least one entry, so its "No algorithms provided." branch is
  unreachable (`Engine.Process`).
- A row that lacks one of the header keys is not written with an empty
  cell: `writeRow` raises KeyError, and the writer loop stops there
  (`ProjectFails`, `EmitSpec`).
- Reading a missing file is not an empty table: `extractData` raises
  FileNotFoundError (`ExtractData`). Only `build_data_from_csv` checks for
  the file first and gives an empty dict.
- Bad data can raise. A row without `RFI` raises KeyError, and a short row's
  `None` RFI raises TypeError in `isfloat` (`MarkRowSpec`). `combineData`
  raises StopIteration when there are no rows at all (`NoRowsCrash`), and
  also when no `RFI` value is bad, since the error list is then empty
  (`NoBadValuesCrash`).

## Model

| member | source | states |
|---|---|---|
| ProcessEngine.Entries | source/process_engine.py:45 | splitting a value on ',' and stripping the pieces gives one entry per piece, and always at least one entry |
| ProcessEngine.Screen | source/process_engine.py:46-51 | the loop keeps exactly `Kept` of the entries and prints exactly `Skips` of them, one notice per skipped entry |
| ProcessEngine.Kept | source/process_engine.py:46-51 | the entries the loop appends to `validAlgorithms`: the supported ones, in input order, repeats included (properties in `KeptMembers`, `KeptCounts`, `KeptAppend`) |
| ProcessEngine.Skips | source/process_engine.py:47-49 | one "not supported" notice per unsupported entry, in input order (property in `SkipsMembers`) |
| ProcessEngine.KeptMembers | source/process_engine.py:47-51 | a name is kept iff it is among the entries and in `SUPPORTED_ALGORITHMS` |
| ProcessEngine.KeptCounts | source/process_engine.py:47-51 | each supported entry is kept as many times as it is given and an unsupported one never: duplicates survive |
| ProcessEngine.KeptAppend | source/process_engine.py:47-51 | screening `a + b` is screening `a` and then `b`: the input order is kept |
| ProcessEngine.KeptAll | source/process_engine.py:47-51 | a list of supported names is kept whole |
| ProcessEngine.KeptNone | source/process_engine.py:47-55 | a list without a supported name keeps nothing |
| ProcessEngine.SkipsMembers | source/process_engine.py:48-49 | a "not supported" notice is printed for a name iff it is an entry and is not supported |
| ProcessEngine.Stored | source/process_engine.py:44-63 | the value `setValue` stores: for "algorithms" with some supported entry, the kept entries joined by ", "; otherwise the value as given (properties in `StoredReadBack`, `StoredIdempotent`, `NoneSupportedStoresRaw`) |
| ProcessEngine.Notices | source/process_engine.py:44-61 | what `setValue` prints: the skipped-entry notices and "No changes made" for "algorithms", then the `.ply` notice for "inputFolder" (properties in `SkipsMembers`, `PlyNoticeUsesOldFolder`) |
| ProcessEngine.ScreenNotices | source/process_engine.py:47-55 | the notices of the "algorithms" screening, in print order |
| ProcessEngine.PlyNotices | source/process_engine.py:57-61 | the `.ply` notice, printed when the old input folder holds no `.ply` file |
| ProcessEngine.EntriesPlain | source/process_engine.py:45 | every entry is free of surrounding whitespace and of commas |
| ProcessEngine.JoinedEntries | source/process_engine.py:45-53 | `", ".join` of such entries, split on ',' and stripped again, gives them back |
| ProcessEngine.StoredReadBack | source/process_engine.py:44-53 | a stored "algorithms" value that kept something reads back, as `process` reads it (line 70), as exactly the kept entries |
| ProcessEngine.StoredIdempotent | source/process_engine.py:44-63 | setting "algorithms" to the value just stored stores the same value again |
| ProcessEngine.NoneSupportedStoresRaw | source/process_engine.py:52-63 | with no supported entry the "No changes made" notice is printed, yet the setting becomes the raw value |
| ProcessEngine.PlyNoticeUsesOldFolder | source/process_engine.py:57-61 | the `.ply` notice for "inputFolder" depends only on the folder held before the call, not on the new value |
| ProcessEngine.DefaultKeys | source/process_engine.py:8-12 | `DEFAULT_SETTINGS` holds exactly "inputFolder", "outputFolder" and "algorithms", so `process` finds every setting it reads |
| ProcessEngine.Engine.constructor | source/process_engine.py:27-28 | the engine starts with the settings it is given |
| ProcessEngine.Engine.UpdateSetting | source/process_engine.py:31-35 | an unknown key raises ValueError, prints nothing and leaves the settings unchanged; a known key updates as `setValue` does |
| ProcessEngine.Engine.SetValue | source/process_engine.py:37-63 | a missing key raises KeyError; otherwise only `settings[key]` changes, to `Stored(key, value)`, and the printed notices are `Notices(old settings, key, value)` |
| ProcessEngine.Engine.Process | source/process_engine.py:65-104 | a missing setting raises KeyError, read in source order; otherwise the calls are exactly `Dispatches` of the settings, and the "No algorithms provided." branch is never taken |
| ProcessEngine.Step | source/process_engine.py:76-78 | one `if name in algorithms` test: its simplification call if the name is selected, nothing otherwise |
| ProcessEngine.Run | source/process_engine.py:76-104 | a run of such tests, written one after the other (properties in `RunCalls`, `RunCount`, `RunSelected`, `RunSameNames`) |
| ProcessEngine.Smoothing | source/process_engine.py:89-91 | `R.smooth()` on the default folder "output" when some Morley call was made |
| ProcessEngine.Dispatches | source/process_engine.py:76-104 | the Morley tests, the smoothing, then the de Vries tests (properties in `SmoothOnce`, `SmoothBetween`, `SimplifyCounts`, `DispatchSameNames`) |
| ProcessEngine.Plan | source/process_engine.py:68-104 | KeyError for the first missing setting in read order, otherwise `Dispatches` of the settings (the partner of `Engine.Process`) |
| ProcessEngine.SimplifyIf | source/process_engine.py:76-78 | one `if name in algorithms` test appends its simplification, and reports it, iff the name is selected |
| ProcessEngine.MorleyTrace | source/process_engine.py:76-87 | the four Morley tests, written one after the other, make the calls of the Morley variant list |
| ProcessEngine.DeVriesTrace | source/process_engine.py:95-104 | the five de Vries tests, written one after the other, make the calls of the de Vries variant list |
| ProcessEngine.RunCalls | source/process_engine.py:76-104 | a call is made iff it is the call of a test whose name is selected |
| ProcessEngine.RunSelected | source/process_engine.py:76-90 | a list of tests makes some call iff one of its names is selected, which is when `morleyProcessed` is set |
| ProcessEngine.RunCount | source/process_engine.py:76-104 | a test's call is made as many times as the test is written if its name is selected, and never otherwise |
| ProcessEngine.CallInjective | source/process_engine.py:76-104 | two tests making the same call are the same test: `outputDir/simplified_<name>` and the flags identify the variant |
| ProcessEngine.RunSameNames | source/process_engine.py:76-104 | the calls of a list of tests depend only on which names are selected, not on their order or repeats |
| ProcessEngine.DispatchSameNames | source/process_engine.py:76-104 | two selections naming the same algorithms give the same trace: the dispatch order is fixed |
| ProcessEngine.SmoothOnce | source/process_engine.py:89-91 | `R.smooth()` is called once iff a Morley variant is selected, and every smoothing targets "output" |
| ProcessEngine.SmoothBetween | source/process_engine.py:76-104 | every Morley simplification comes before the smoothing and every de Vries one after it |
| ProcessEngine.SimplifyCounts | source/process_engine.py:76-104 | each variant is simplified, with the folder and flags of its test, as many times as its test is written if selected, and never otherwise |
| ProcessEngine.VariantCounts | source/process_engine.py:95-104 | every test is written once except `deVries_preserveBoundary`, which is written twice |
| ProcessEngine.VariantScripts | source/process_engine.py:76-104 | the Morley tests call `morleyCleanAndSimplify` and the de Vries tests `deVriesCleanAndSimplify` |
| ProcessEngine.VariantsMatchNames | source/process_engine.py:14-24 | the tests of `process` name the entries of `SUPPORTED_ALGORITHMS`, in the same order |
| Data.Label | source/data.py:17 | the `re.sub` scan: each leftmost match is removed, other characters are kept; the label is never longer than the name (properties in `LabelUnchanged`, `LabelPrefix`, `LabelWhole`, `LabelStripsSuffix`) |
| Data.MatchLen | source/data.py:17 | a match of `_(failed\|analysis\|errorCount).csv` starts with '_' and is at least 11 characters long |
| Data.LabelUnchanged | source/data.py:17 | the label equals the file name iff the pattern matches nowhere in it |
| Data.LabelPrefix | source/data.py:17 | the text before the first match is kept as it is |
| Data.SuffixMatches | source/data.py:17 | `_failed`, `_analysis` or `_errorCount`, then any character but a newline, then `csv`, is a whole match |
| Data.LabelWhole | source/data.py:17 | a whole match is removed entirely |
| Data.LabelStripsSuffix | source/data.py:17 | a stem with no earlier match keeps its text when a matching suffix is removed |
| Data.LabelStripsSuffixPlain | source/data.py:17 | a stem without '_' followed by a matching suffix gives the stem |
| Data.MorleyAnalysisLabel | source/data.py:17 | "morley_analysis.csv" is labelled "morley" |
| Data.UnescapedDot | source/data.py:17 | the dot is unescaped: any character in its place, as in "morley_analysisXcsv", is still removed |
| Data.ContainsOccurs | source/data.py:18 | the substring test holds iff the text occurs at some position |
| Data.RfiSuccess | source/data.py:18 | the `re.search(r"analysis", …)` flag (property in `RfiSuccessSpec`) |
| Data.RfiSuccessSpec | source/data.py:18 | the success flag is set iff "analysis" occurs in the file name |
| Data.NoFlagWithoutLetter | source/data.py:18 | a name lacking any letter of "analysis" is not flagged |
| Data.MorleyFailedFlag | source/data.py:18 | "morley_failed.csv" is not flagged |
| Data.Tag | source/data.py:20 | a tagged row has its own file's `Algorithm` and `RFISuccess`, overriding same-named columns, and every other field as before |
| Data.TaggedFile | source/data.py:16-20 | reading a listed file fails with FileNotFoundError iff it is missing |
| Data.TagAllSpec | source/data.py:20 | the comprehension tags every row of a file, in order |
| Data.TagAllAt | source/data.py:20 | row `i` of a tagged file is row `i` of the file, tagged |
| Data.TaggedFileRows | source/data.py:16-20 | a file's tagged rows are its records, in order, with its label and flag |
| Data.TaggedOk | source/data.py:15-20 | reading the listed files succeeds iff every one of them exists |
| Data.TaggedLength | source/data.py:15-27 | the combined rows number the sum of the rows of the files |
| Data.MarkRow | source/data.py:21-26 | the check of one row: KeyError, TypeError, or the row with a rejected `RFI` replaced by "error" and the raw text reported (property in `MarkRowSpec`) |
| Data.MarkAll | source/data.py:21-26 | the inner loop over a file's rows, stopping at the first row that raises (properties in `MarkAllOk`, `MarkAllRows`, `MarkAllBad`) |
| Data.MarkRowSpec | source/data.py:21-26 | a row without `RFI` raises KeyError and a `None` RFI raises TypeError; otherwise `RFI` becomes "error" exactly when `isfloat` rejects it, the raw text is reported, and nothing else changes |
| Data.MarkAllOk | source/data.py:21-26 | checking succeeds iff every row has a readable `RFI` |
| Data.MarkAllRows | source/data.py:21-26 | the checked rows are the rows, each marked, in order |
| Data.MarkAllBad | source/data.py:21-26 | the raw bad values are reported in row order |
| Data.BadValuesAppend | source/data.py:21-27 | the bad values of two row lists are those of the first, then those of the second |
| Data.MarkAllAppend | source/data.py:21-27 | checking two row lists one after the other is checking their concatenation |
| Data.Combine | source/data.py:15-27 | the file loop: each listed file read, tagged and checked in listing order, the first error ending the run (properties in `CombineFlat`, `CombineStep`, `CombineFailed`) |
| Data.CombineFlat | source/data.py:15-27 | the combined data is every file's tagged rows, concatenated in listing order, then checked |
| Data.CombineStep | source/data.py:15-27 | one more file extends the combined data by its own rows |
| Data.CombineFailed | source/data.py:15-27 | after an error no further file changes the outcome |
| Data.Tally | source/data.py:22-25 | the `errors` dict after counting the bad values in order (properties in `TallyCounts`, `TallyKeys`, `TallySum`) |
| Data.Bump | source/data.py:23-25 | `errors[v] = errors.get(v, 0) + 1` (property in `CountError`) |
| Data.TallyCounts | source/data.py:22-25 | `errors[v]` is the number of rows whose raw `RFI` was `v`, and `v` is a key only if some row had it |
| Data.TallyDistinct | source/data.py:22-25 | the tally lists each bad value once |
| Data.TallyMembers | source/data.py:22-25 | the tally's keys are exactly the bad values |
| Data.TallyKeys | source/data.py:22-25 | the tally's keys are the bad values without repeats, in first-seen order |
| Data.DedupOrder | source/data.py:22-25 | an earlier key was first seen earlier |
| Data.TallySum | source/data.py:22-25 | the counts add up to the number of bad values |
| Data.ErrorRowsCounted | source/data.py:21-26 | when "error" is not itself a number, the rows marked "error" are as many as the counted bad values |
| Data.BumpAllTally | source/data.py:23-25 | counting more bad values extends the tally of the ones already counted |
| Data.CountRecord | source/data.py:32 | an error record holds `name` and then `count` |
| Data.ErrorList | source/data.py:29-32 | one error record per key |
| Data.ErrorListAt | source/data.py:29-32 | record `i` names key `i` and its count |
| Data.ErrorTable | source/data.py:29-32 | record `i` of the error list names the `i`-th first-seen bad value and the number of rows that had it |
| Data.CombineEffect | source/data.py:7-42 | the store and outcome of `combineData`: nothing written on a read or check error, else the combined table, then the error table (properties in `NoRowsCrash`, `NoBadValuesCrash`) |
| Data.NoRowsCrash | source/data.py:36 | with no rows at all the first `buildCsvFromData` raises StopIteration and nothing is written |
| Data.NoBadValuesCrash | source/data.py:36-37 | with no bad value `combineData` always fails: the error list holds no dict, so the second write raises StopIteration |
| Data.CheckRow | source/data.py:22-26 | one row: KeyError or TypeError as `MarkRow` says, or the marked row and the counts with its bad value added |
| Data.CountError | source/data.py:23-25 | inserting 0 for an unseen value and then adding one raises the value's count by one, a new value going last |
| Data.MarkRows | source/data.py:21-26 | the inner loop marks the rows in place and counts every bad value, or raises the first row's error |
| Data.ReadAll | source/data.py:15-27 | the file loop yields the combined data and the tally of its bad values, or the first error |
| Data.CombineData | source/data.py:7-42 | the store and outcome after `combineData` are `CombineEffect` of the store and the listing |
| Data.CountList | source/data.py:29-32 | the second loop builds the error list of the tally's keys, in key order |
| CsvInterface.Render | source/csvInterface.py:23 | the text `csv.writer` writes for a value: `str()` of it, with `None` as the empty string (property of numbers in `Text.NatToStringValue`) |
| CsvInterface.Project | source/csvInterface.py:19-23 | the cells `writeRow` builds, or the KeyError of the first missing key (properties in `ProjectSpec`, `ProjectFails`) |
| CsvInterface.ProjectSpec | source/csvInterface.py:19-23 | `writeRow` succeeds iff every key is in the row; its cells are then the rendered values in `keys` order, and extra fields are dropped |
| CsvInterface.ProjectFails | source/csvInterface.py:21-22 | a failing `writeRow` raises KeyError for the first key the row lacks |
| CsvInterface.ProjectFailedPrefix | source/csvInterface.py:21-22 | once a key is missing, later keys do not change the error |
| CsvInterface.RowCells | source/csvInterface.py:19-23 | the appending loop builds `Project` of the row and the keys |
| CsvInterface.Emit | source/csvInterface.py:52-53 | the rows a writer loop appends, and whether it ends with a KeyError (properties in `EmitSpec`, `EmitFailed`, `EmitAll`) |
| CsvInterface.EmitSpec | source/csvInterface.py:52-53 | the rows written are the projections of the first items, in order; all are written iff none fails, and otherwise the first failure is the error |
| CsvInterface.EmitFailed | source/csvInterface.py:52-53 | once a row fails, later items change nothing |
| CsvInterface.EmitAll | source/csvInterface.py:52-53 | when every item projects, every item is written, in order |
| CsvInterface.EmitRaisesKeyError | source/csvInterface.py:52-53 | a failed write is a KeyError |
| CsvInterface.DictItems | source/csvInterface.py:40-43 | the generator yields at most the given items (only the dicts) |
| CsvInterface.AppendedTwice | source/csvInterface.py:48-53 | two appends are one append of both row lists |
| CsvInterface.OwnRow | source/csvInterface.py:68-72 | an item under its own keys always projects, to its values in key order |
| CsvInterface.CreateHeader | source/csvInterface.py:11-17 | the store after `buildCsvFromObject`'s header write: only an absent file gets the header (property in `CreateHeaderOnce`) |
| CsvInterface.BuildFromData | source/csvInterface.py:39-53 | the store and outcome of `buildCsvFromData` (properties in `BuildFromDataNoDict`, `BuildFromDataRows`, `BuildFromDataRowAt`, `WriteReadBack`) |
| CsvInterface.AddData | source/csvInterface.py:55-66 | the store and outcome of `addDataToCsv` (properties in `AddDataSkipsFirst`, `AddDataRowAt`) |
| CsvInterface.CreateHeaderOnce | source/csvInterface.py:11-17 | the header is written only when the file is absent, other files are untouched, and a second call is a no-op |
| CsvInterface.BuildFromDataNoDict | source/csvInterface.py:40-45 | StopIteration is raised iff the data holds no dict, and then nothing is written |
| CsvInterface.BuildFromDataPasses | source/csvInterface.py:39-53 | when every dict has the first dict's keys the write passes and the file exists |
| CsvInterface.BuildFromDataOthers | source/csvInterface.py:39-53 | no other file is created or changed |
| CsvInterface.BuildFromDataRows | source/csvInterface.py:39-53 | the file keeps its old rows (or gets the first dict's keys as header) and gains one row per dict, the first dict included |
| CsvInterface.BuildFromDataRowAt | source/csvInterface.py:47-53 | the `i`-th new row is dict `i` under the first dict's keys, even under an old header |
| CsvInterface.BuildFromDataFile | source/csvInterface.py:39-53 | the file is its prior rows followed by the written rows |
| CsvInterface.AddDataSkipsFirst | source/csvInterface.py:55-66 | `n` dicts append `n - 1` rows: the first dict only fixes the keys, and the old rows stay |
| CsvInterface.AddDataRowAt | source/csvInterface.py:61-66 | the new rows are dicts `1..n-1` under the first dict's keys |
| CsvInterface.AddDataFile | source/csvInterface.py:55-66 | the file is its old rows followed by the rows of every dict but the first |
| CsvInterface.FileStore.constructor | source/csvInterface.py:5 | the store starts as the files on disk that `os.path.isfile` and `open` consult |
| CsvInterface.FileStore.BuildCsv | source/csvInterface.py:4-9 | the fixed twenty-column header is written only if the file is absent |
| CsvInterface.FileStore.BuildCsvFromObject | source/csvInterface.py:11-17 | the dict's keys, in order, are written as header only if the file is absent |
| CsvInterface.FileStore.WriteRow | source/csvInterface.py:19-23 | one row of the values in `keys` order is appended, or KeyError is raised and nothing is written |
| CsvInterface.FileStore.WriteAll | source/csvInterface.py:52-53 | the loop appends the rows `Emit` yields and stops at the first KeyError |
| CsvInterface.FileStore.BuildCsvFromData | source/csvInterface.py:39-53 | the store and outcome are `BuildFromData` of the old store |
| CsvInterface.FileStore.AddDataToCsv | source/csvInterface.py:55-66 | the store and outcome are `AddData` of the old store |
| CsvInterface.FileStore.AddObjectToCsv | source/csvInterface.py:68-72 | exactly one row, the item's values in its own key order, is appended, whatever the header |
| CsvInterface.ToRecord | source/csvInterface.py:27-28 | one `DictReader` record: the header names mapped to the row's cells, `None` past the row's end (properties in `ToRecordMembers`, `ToRecordKeys`, `ToRecordValues`) |
| CsvInterface.ToRecordMembers | source/csvInterface.py:27-28 | a read record has the header's fields |
| CsvInterface.ToRecordKeys | source/csvInterface.py:27-28 | with distinct header names a read record's keys are the header, in order |
| CsvInterface.ToRecordValues | source/csvInterface.py:27-28 | field `i` of a read record is cell `i` of the row, or `None` past its end |
| CsvInterface.DataRecords | source/csvInterface.py:27-28 | the records `DictReader` yields for the data rows, blank rows skipped: no more records than rows |
| CsvInterface.Records | source/csvInterface.py:27-28 | the records of a table: its first row is the header, and no header means no records |
| CsvInterface.DataRecordsAppend | source/csvInterface.py:27-28 | reading two row lists is reading each |
| CsvInterface.DataRecordsNoBlank | source/csvInterface.py:27-28 | without blank rows there is one record per row, in order |
| CsvInterface.ExtractData | source/csvInterface.py:25-29 | reading fails with FileNotFoundError iff the file is missing |
| CsvInterface.Index | source/csvInterface.py:79-81 | the dict the loop fills: each record's popped `File` value maps to the rest of it (properties in `IndexSucceeds`, `IndexKeys`, `IndexLastWins`) |
| CsvInterface.IndexSucceeds | source/csvInterface.py:79-81 | building the index succeeds iff every row has `File`, and otherwise raises KeyError("File") |
| CsvInterface.IndexKeys | source/csvInterface.py:79-81 | the index keys are exactly the `File` values of the rows |
| CsvInterface.IndexLastWins | source/csvInterface.py:79-81 | a `File` value maps to the last row that has it, without its `File` field |
| CsvInterface.BuildDataFromCsv | source/csvInterface.py:74-82 | a missing file gives the empty map; otherwise the loop builds `Index` of the file's records |
| CsvInterface.ReadBackRows | source/csvInterface.py:25-29 | rows written from dicts read back as records over the header with the written text |
| CsvInterface.ExtractAfterBuild | source/csvInterface.py:25-53 | after `buildCsvFromData`, `extractData` gives the file's earlier records (none for a new file) followed by the records of the written rows, when an existing file already has the first dict's keys as header |
| CsvInterface.WriteReadBack | source/csvInterface.py:39-53 | `buildCsvFromData` followed by `extractData` gives the file's earlier records unchanged (none for a new file), then one record per dict, over the first dict's keys, holding the text written for each value; an existing file must already have those keys as header |
| Dicts.Get | source/data.py:22-23 | a lookup finds a value iff the key is present |
| Dicts.Set | source/data.py:24-26 | an assignment sets the key and keeps every other key; a new key goes last |
| Dicts.SetTwice | source/data.py:24-25 | a second assignment to a key overrides the first |
| Dicts.SetDistinct | source/data.py:24-25 | assignment keeps the keys distinct |
| Dicts.Remove | source/csvInterface.py:80 | removing a key drops it from the key order and keeps every other field |
| Dicts.Pop | source/csvInterface.py:80 | `pop` returns the key's value and the record without it, or raises KeyError |
| Dicts.WithoutSpec | source/csvInterface.py:80 | the keys left after removal are the other keys |
| Text.Join | source/process_engine.py:53 | `sep.join(xs)` (properties in `Text.SplitJoin`, `ProcessEngine.JoinedEntries`) |
| Text.Split | source/process_engine.py:45 | a split always yields at least one piece |
| Text.SplitPieces | source/process_engine.py:45 | no piece holds the separator |
| Text.JoinSplit | source/process_engine.py:45 | joining the pieces with the separator gives the text back |
| Text.SplitJoin | source/process_engine.py:53 | joining separator-free pieces and splitting again gives the pieces back |
| Text.Strip | source/process_engine.py:45 | a stripped entry has no surrounding whitespace |
| Text.StripPadded | source/process_engine.py:45 | stripping removes exactly the surrounding whitespace |
| Text.StripWithin | source/process_engine.py:45 | stripping only removes characters |
| Text.Contains | source/data.py:18 | the substring test (property in `Data.ContainsOccurs`) |
| Text.BaseName | source/data.py:16 | the base name is the part after the last '/' |
| Text.NatToString | source/csvInterface.py:22-23 | a count is written as decimal digits without a leading zero |
| Text.NatToStringValue | source/csvInterface.py:22-23 | the digits written for a count stand for that count |

## Left out

- The MeshLab and R calls: `process` returns the calls it would make. `R.init()` and the timing of `process`, with its `--- seconds ---` print, are not modelled. The notices of `setValue` are modelled; the `print(fields)` of `buildCsvFromObject` is not.
- The `.ply` search of `glob` is a parameter `plyCount` giving the number of `.ply` files in a folder. The listing `glob(f"{folder}/*.csv")` of `combineData` is a parameter too: the paths, in `glob`'s order.
- `isfloat` is an uninterpreted predicate. `None` makes it raise TypeError.
- ProcessEngine.Engine.SetValue: the `int`/`float` conversion of a non-string setting is not modelled, because every setting is a string in this model.
- The aliasing of the module-level `DEFAULT_SETTINGS` through the default constructor argument is not modelled, because the engine holds a map value.
- The default "algorithms" string is modelled, but that it splits back into exactly `SUPPORTED_ALGORITHMS` is not proved. Comparing long literal strings character by character is beyond the solver's budget here.
- `os.path.normpath` is not modelled: the file name is the base name of the path as given.
- Strings have no Unicode normalisation. Whitespace is the fixed character set `str.isspace` accepts.
- The CSV byte format (quoting, escaping, newlines) is not modelled: a file is a table of string rows. `csv.DictReader` surplus cells (the `restkey` list) are dropped.
- `controlGroup` is unused by `combineData` and is not modelled. The `folder` argument is used only for its CSV listing, which is the `paths` parameter. `analyze()` is not part of the core.
- CsvInterface.WriteReadBack: requires the first dict's keys to be distinct and non-empty, because a Python dict lists each key once and a header-only file reads back as no records. It also requires an existing file to carry those keys as its header; under another header the appended rows are read under that header's names, and that case is not stated.
- Dicts.Record: that a dict lists each key once is not part of the type. The writers are defined for any key list, and the records the model reads and tags are built by assignment, which keeps keys distinct (`Dicts.SetDistinct`).
- ProcessEngine.SimplifyCounts: states the multiplicity of each variant's test as a count in the variant tables. `VariantCounts` gives that count as 2 for `deVries_preserveBoundary` and 1 for the others.
