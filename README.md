# Coros running-watch export: a Dafny model of the parser, the training-log aggregator and the viewer helpers

This project models the deterministic core of a small Python tool that turns
Coros watch exports into JSON and then into one consolidated training log.
The model covers three stages.

- **Parsing one activity folder** (`parse_coros_data.py`):
  - the split table (a CSV file) is whitespace-stripped and cleaned, then
    partitioned into the ordered splits and the one "Summary" record;
  - the TCX document is reduced to lap records and trackpoint records, with
    absent fields dropped, time-only points filtered out and a cap of 10000
    trackpoints;
  - the activity document is assembled, with the metadata file and each
    source (csv, tcx, fit) captured separately: either its data or its error.
- **Aggregating the parsed documents** (`create_training_log.py`): one summary
  per file in sorted file order, running totals of distance, calories and
  seconds, the `HH:MM:SS` total, the average distance and the date range.
  The early returns for a missing or empty directory are modelled too.
- **Viewer helpers** (`view_training_data.py`): `parse_time_to_seconds` and
  `format_pace`.

File reading, `json.load`/`json.dump`, `csv.DictReader`, `ElementTree` and
`parse_fit` are not modelled. They become inputs:
- the rows a reader yields, as `CsvSplits.Row`;
- the elements `find`/`findall` return, as `TcxParser.TcxDocument`;
- reader functions that succeed or fail with a message, as `ActivityAssembly.Readers`;
- a loader from file name to JSON value, where None means the file did not load.

Imperative code stays imperative:
- `_clean_split_row`, `parse_csv_splits`, `parse_tcx` (with its counter and
  `break`), `parse_activity` and the aggregation loop are methods with loops;
- each method is proved equal to a specification function, and the
  properties are proved as lemmas about those functions.

Python's semantics are written out where they matter:
- `str.strip()` uses the `str.isspace()` character set;
- `int()` is optional sign then ASCII digits;
- `float()` is a decimal parse;
- `int(float(x))` truncates toward zero;
- `sorted()` compares by code point;
- an expression that raises (`KeyError`, `TypeError`, `AttributeError`)
  yields None, and in the aggregator that stops the run at that file.

Modules:
- `Wrappers`: Option, Result;
- `Text`: strip, split/join, `int()`/`float()`, digits;
- `JsonValue`: JSON values and the Python operations on them;
- `Paths`: `Path.suffix`/`Path.stem`;
- `NameOrder`: sorting file names;
- `CsvSplits`, `TcxParser`, `ActivityAssembly`: the parser;
- `TrainingLog`: the aggregator;
- `TrainingView`: the viewer helpers;
- `Pipeline`: parser output read by the aggregator.

## Model

| member | source | states |
|---|---|---|
| CsvSplits.CanonicalKeyAt | parse_coros_data.py:55-65 | the key of a header has the header's length; each character is the header's character lower-cased, and a space becomes `_` |
| CsvSplits.CanonicalKeyIsCanonical | parse_coros_data.py:55-65 | a key holds no space and no capital, and canonicalising it again gives the same key, so one header yields one key in every row |
| CsvSplits.CanonicalKey | parse_coros_data.py:55 | `key.lower().replace(' ', '_')`; stated by CanonicalKeyAt and CanonicalKeyIsCanonical |
| CsvSplits.Coerce | parse_coros_data.py:52-65 | the three distance/elevation headers give a float exactly when `float()` parses the text; the seven integer headers give an int exactly when `int()` parses it ("1.5" stays text); every other case keeps the original text |
| CsvSplits.CleanSplitRow | parse_coros_data.py:45-67 | the loop that fills `cleaned` returns the cleaned record of the row |
| CsvSplits.Cleaned | parse_coros_data.py:45-67 | the cleaned record of one row, folded over its cells in header order; what it holds is stated by CleanedKeys, CleanedValue and CleanedHasNoEmptyText, and CleanSplitRow is proved equal to it |
| CsvSplits.CleanedKeys | parse_coros_data.py:48-65 | a key is in the cleaned record exactly when some non-empty cell's header canonicalises to it |
| CsvSplits.CleanedValue | parse_coros_data.py:48-65 | the value under a key is the coerced text of the last non-empty cell with that key |
| CsvSplits.CleanedHasNoEmptyText | parse_coros_data.py:49-50 | no cleaned value is the empty string |
| CsvSplits.StripCellsAt | parse_coros_data.py:33 | stripping keeps each header and strips each present cell |
| CsvSplits.StripCells | parse_coros_data.py:33 | the row with every string cell stripped and missing cells kept as None, same length as the row; each cell is stated by StripCellsAt |
| CsvSplits.Lookup | parse_coros_data.py:35 | `row.get('Split')` on the stripped row: the cell under that header, None when the header is absent (with distinct headers; see Left out); used by Classify, and stated through SummaryIsLastSummaryRow and NoSummaryRow |
| CsvSplits.Classify | parse_coros_data.py:35-38 | a row is the summary exactly when its stripped "Split" cell is "Summary", and a split otherwise; stated by SplitRecordsCount, SummaryIsLastSummaryRow and NoSummaryRow |
| CsvSplits.ParseCsvSplits | parse_coros_data.py:24-43 | the loop returns the split records and the summary record of the rows |
| CsvSplits.SplitRecords | parse_coros_data.py:31-38 | the cleaned rows that are not "Summary" rows, in file order; stated by SplitRecordsAppend, SplitRecordsCount and NoSummaryRow, and ParseCsvSplits is proved to return it |
| CsvSplits.SummaryRecord | parse_coros_data.py:27-36 | the cleaned last "Summary" row, or `{}` when there is none; stated by SummaryIsLastSummaryRow and NoSummaryRow |
| CsvSplits.SplitRecordsAppend | parse_coros_data.py:31-38 | splits keep table order: the splits of two blocks of rows are the two blocks' splits concatenated |
| CsvSplits.SplitRecordsCount | parse_coros_data.py:31-38 | every row that is not a "Summary" row adds exactly one split |
| CsvSplits.SummaryIsLastSummaryRow | parse_coros_data.py:35-36 | the summary is the cleaned last "Summary" row, whatever split rows follow it |
| CsvSplits.NoSummaryRow | parse_coros_data.py:26-43 | without a "Summary" row the summary is `{}` and every row is a split |
| CsvSplits.CleanedStrippedText | parse_coros_data.py:49-65 | cleaning stripped cells keeps every text value stripped |
| CsvSplits.StripCellsStripped | parse_coros_data.py:33 | every present cell of a stripped row is stripped |
| CsvSplits.ParsedTextIsStripped | parse_coros_data.py:31-38 | every text value in the splits and in the summary is whitespace-stripped |
| TcxParser.GetFloat | parse_coros_data.py:168-176 | a number exactly when the child exists, has text, and the text parses as a float; None (never an exception) otherwise |
| TcxParser.GetText | parse_coros_data.py:163-166 | `_get_text`: the child's text, None when the child is missing or has no text; GetFloat and GetInt are stated in its terms |
| TcxParser.GetInt | parse_coros_data.py:178-186 | present exactly when `_get_float` is; the float truncated toward zero |
| TcxParser.CompactHolds | parse_coros_data.py:109-110 | with distinct keys, a present value is stored under its key and an absent one leaves no key |
| TcxParser.CompactHasNoNull | parse_coros_data.py:109-110 | dropping the None entries leaves no null value |
| TcxParser.Compact | parse_coros_data.py:110 | the comprehension that drops None values; stated by CompactHolds and CompactHasNoNull |
| TcxParser.LapFields | parse_coros_data.py:97-107 | the nine candidate lap fields with their reader (`get`, `_get_float`, `_get_int`, `_get_text`); stated by LapRecordShape |
| TcxParser.PositionOf | parse_coros_data.py:126-131 | `{lat, lon}` only when the Position element exists and both coordinates parse; stated by PositionIff |
| TcxParser.Measurements | parse_coros_data.py:133-154 | position, speed, altitude, distance and heart rate, each present only when read; stated by TrackpointKeptIff |
| TcxParser.LapRecordShape | parse_coros_data.py:96-111 | a lap record's keys come from the nine fixed names, it holds no null, and a field is present exactly when its value was found, with that value |
| TcxParser.LapRecords | parse_coros_data.py:96-111 | one lap record per Lap element |
| TcxParser.LapRecord | parse_coros_data.py:97-110 | one lap's record with its absent values dropped; its keys and values are stated by LapRecordShape |
| TcxParser.TrackpointKeptIff | parse_coros_data.py:121-157 | every record has `time`, and it has more than one key exactly when a position, speed, altitude, distance or heart rate was read |
| TcxParser.PositionIff | parse_coros_data.py:126-131 | `position` is present exactly when the Position element exists and both coordinates parse as floats |
| TcxParser.TrackpointRecord | parse_coros_data.py:121-154 | one trackpoint's record, `time` plus the measurements that were read; stated by TrackpointKeptIff and PositionIff |
| TcxParser.Kept | parse_coros_data.py:117-158 | the trackpoint records with more than one key, in document order; stated by KeptStep, KeptAppend, KeptRecordsAreUseful, TimeOnlyDropped and MeasuredKept |
| TcxParser.CappedTrackpoints | parse_coros_data.py:114-159 | the first min(10000, k) of the k kept records; stated by CapKeepsPrefix, and ParseTrackpoints is proved to return it |
| TcxParser.KeptStep | parse_coros_data.py:156-159 | one more trackpoint adds its record exactly when the record has more than one key |
| TcxParser.UsefulAppend | parse_coros_data.py:156-159 | the filter on record size keeps order: filtering two blocks of records gives each block's result concatenated |
| TcxParser.KeptAppend | parse_coros_data.py:117-159 | filtering keeps source order: the kept records of two blocks are each block's kept records concatenated |
| TcxParser.ParseTcx | parse_coros_data.py:69-161 | returns the activity's sport and id, one lap record per lap, and the capped kept trackpoints |
| TcxParser.ParseLaps | parse_coros_data.py:95-111 | the lap loop returns one lap record per Lap element, in document order |
| TcxParser.ParseTrackpoints | parse_coros_data.py:113-159 | the counter-and-break loop returns the first min(10000, k) of the k kept trackpoint records |
| TcxParser.CapOfPrefix | parse_coros_data.py:117-119 | once the kept records of a prefix reach the cap, or the prefix is the whole list, they are the capped list |
| TcxParser.CapKeepsPrefix | parse_coros_data.py:114-159 | the trackpoint list has at most 10000 records and no more than there are trackpoints; every record has `time` and a measurement and is the record of one of the trackpoints; it is the first min(10000, k) kept records, exactly 10000 once k reaches the cap |
| TcxParser.KeptRecordsAreUseful | parse_coros_data.py:156-158 | every kept record has `time` and at least one other key, and is the record of one of the trackpoints |
| TcxParser.TimeOnlyDropped | parse_coros_data.py:156-159 | a trackpoint with nothing besides its time adds nothing |
| TcxParser.MeasuredKept | parse_coros_data.py:156-159 | a trackpoint with a measurement adds its record at the end |
| ActivityAssembly.MetadataValue | parse_coros_data.py:246-256 | no file gives `{}`; an unreadable file gives `{'error': 'Failed to read metadata: ...'}`; a loaded dict is kept; a non-dict is kept unless the verbose `.get` raises, which gives an error entry |
| ActivityAssembly.FilesWithSuffix | parse_coros_data.py:261-263 | a file is listed exactly when its suffix is the one asked for |
| ActivityAssembly.FirstIsEarliest | parse_coros_data.py:278-282 | a format's file is used exactly when the folder holds one, and it is the first such file in the listing |
| ActivityAssembly.FirstWithSuffix | parse_coros_data.py:261-263 | `csv_files[0]` and its siblings on lines 282, 297 and 312: the earliest listed file with the suffix, None when there is none; stated by FirstIsEarliest |
| ActivityAssembly.ParseActivity | parse_coros_data.py:237-322 | the step-by-step assembly returns the activity document of the folder |
| ActivityAssembly.ReadMetadata | parse_coros_data.py:246-256 | the metadata step leaves the metadata value of the folder's metadata file |
| ActivityAssembly.ParseSources | parse_coros_data.py:258-320 | filling the sources dict one format after the other gives the sources of the listing |
| ActivityAssembly.ParseCsvSource | parse_coros_data.py:278-290 | the csv step stores `{file, data}` with the parsed splits, or `{error}` with the reader's message |
| ActivityAssembly.ParseTcxSource | parse_coros_data.py:293-305 | the tcx step stores `{file, data}` with the parsed document, or `{error}` with the reader's message |
| ActivityAssembly.SourceKeys | parse_coros_data.py:277-320 | the sources dict has only the keys `csv`, `tcx` and `fit`, each exactly when a file of that suffix is listed |
| ActivityAssembly.DocumentShape | parse_coros_data.py:239-320 | the document has the four keys `date`, `parsed_at`, `metadata` and `sources`; `date` is the folder name; a source is present exactly when a file of its suffix is |
| ActivityAssembly.SourcesAreIndependent | parse_coros_data.py:277-320 | each source's entry depends only on its own parser, so one parser's failure changes no other entry |
| ActivityAssembly.SourceEntries | parse_coros_data.py:277-320 | each entry is `{file, data}` with the parsed data of the first file, or `{error}` with the parser's message |
| ActivityAssembly.CsvEntry | parse_coros_data.py:278-290 | the csv entry, `{file, data}` with the parsed splits and summary or `{error}` with the reader's message; stated by SourceEntries, and ParseCsvSource is proved to store it |
| ActivityAssembly.TcxEntry | parse_coros_data.py:293-305 | the tcx entry, `{file, data}` with the parsed document or `{error}`; stated by SourceEntries, and ParseTcxSource is proved to store it |
| ActivityAssembly.FitEntry | parse_coros_data.py:308-320 | the fit entry, always `{file, data}`; stated by SourceEntries |
| ActivityAssembly.Sources | parse_coros_data.py:277-320 | the sources dict built from the first file of each suffix; stated by SourceKeys, FirstIsEarliest and SourcesAreIndependent, and ParseSources is proved to build it |
| ActivityAssembly.ActivityDocument | parse_coros_data.py:237-322 | the document `parse_activity` returns; stated by DocumentShape, and ParseActivity is proved equal to it |
| ActivityAssembly.SourceEntry | parse_coros_data.py:283-286 | `{'file': name, 'data': data}`, as on lines 283-286, 298-301 and 313-316; stated by SourceEntries |
| ActivityAssembly.RecordsJson | parse_coros_data.py:40-43 | a list of records as a JSON array, one object per record, the same length |
| ActivityAssembly.CsvJson | parse_coros_data.py:40-43 | the `{splits, summary}` dict `parse_csv_splits` returns; stated by Pipeline.CsvParsed |
| ActivityAssembly.TcxJson | parse_coros_data.py:80-85 | the `{activity_type, activity_id, laps, trackpoints}` dict `parse_tcx` returns; stated by Pipeline.TcxParsed |
| ActivityAssembly.TcxResult | parse_coros_data.py:69-161 | that dict for a document, as a function of its elements; ParseTcx is proved to compute it, and it is stated by Pipeline.TcxParsed and Pipeline.LoggedTcxCounts |
| TrainingLog.SummaryContribution | create_training_log.py:50-98 | an activity adds exactly what its written `summary` yields; an entry without `summary` adds nothing; `date` and `raw_data_files` are copied from the document |
| TrainingLog.CaloriesOf | create_training_log.py:69-72 | what a summary's calories add; stated by ValuesCoerceOrZero and MissingValuesAddNothing |
| TrainingLog.DistanceOf | create_training_log.py:65-68 | what a summary's distance adds; stated by ValuesCoerceOrZero and MissingValuesAddNothing |
| TrainingLog.SecondsOf | create_training_log.py:73-80 | what a summary's time adds; stated by TimeCoercesOrZero and MissingValuesAddNothing |
| TrainingLog.HmsSeconds | create_training_log.py:74-78 | the seconds of a time text whose stripped form has three integer parts, None otherwise; stated by TimeCoercesOrZero, ReadFields and TwoFieldsAreNotHms |
| TrainingLog.HmsParts | create_training_log.py:76-78 | `h, m, s = map(int, parts)` on three parts; stated by ReadFields and TrainingView.AgreesWithLogReader |
| TrainingLog.DataSection | create_training_log.py:60-83 | the `summary` and `splits` an activity gets from its csv data, and the summary's contributions; stated by Pipeline.ParsedDataSection and AnySummaryIsCounted |
| TrainingLog.SummaryPart | create_training_log.py:60-80 | the summary and what its values add, for any summary value; stated by AnySummaryIsCounted and ValuesCoerceOrZero |
| TrainingLog.ValuesCoerceOrZero | create_training_log.py:65-72 | a distance that `float()` rejects, or calories that `int()` rejects, add 0 without raising; values they accept add what they read |
| TrainingLog.TimeCoercesOrZero | create_training_log.py:73-80 | a time adds h*3600 + m*60 + s only when its stripped text has three integer parts; a two-part time, any other number of parts, a part that is not an integer, or a value that is not text adds 0 |
| TrainingLog.MissingValuesAddNothing | create_training_log.py:65-80 | a summary that is not a dict adds nothing; a missing key adds its default, which comes to zero ("00:00:00" reads as 0 seconds) |
| TrainingLog.ZeroTimeReadsZero | create_training_log.py:74-78 | the default time "00:00:00" reads as 0 seconds |
| TrainingLog.AnySummaryIsCounted | create_training_log.py:57-80 | a document with a date and a csv summary, and no tcx source, always summarizes whatever the summary's values are, so the loop never stops at it; it adds exactly what those values coerce to |
| TrainingLog.InvalidSummaryValues | create_training_log.py:65-80 | getdistance="invalid", time="invalid:time" and calories="N/A" each add zero |
| TrainingLog.InvalidSummaryAddsNothing | create_training_log.py:57-80 | a document carrying that summary still summarizes and adds nothing to any total |
| TrainingLog.TwoFieldsAreNotHms | create_training_log.py:75-78 | a two-field "M:S" text is not a time the log counts |
| TrainingLog.SummarizeFile | create_training_log.py:46-100 | one file's activity entry and contributions, None where Python raises; stated by SummaryContribution, AnySummaryIsCounted and InvalidSummaryAddsNothing |
| TrainingLog.CsvSection | create_training_log.py:56-83 | the `summary` and `splits` the csv source adds, and the summary's contributions; stated by SummaryContribution and Pipeline.CsvParsed |
| TrainingLog.TcxSection | create_training_log.py:86-93 | the `tcx_metadata` the tcx source adds, if any; stated by Pipeline.TcxParsed and Pipeline.TcxNotParsed |
| TrainingLog.TcxMetadata | create_training_log.py:87-93 | the type, the id and the trackpoint and lap counts; stated by Pipeline.TcxParsed and Pipeline.LoggedTcxCounts |
| TrainingLog.Collect | create_training_log.py:45-100 | the loop over the sorted files, or the file it raised at; stated by CollectStep, CollectRunning and CollectStopsAtFirstFailure, and AccumulateActivities is proved equal to it |
| TrainingLog.Pad2ReadsBack | create_training_log.py:105 | a `:02d` field has at least two characters, no colon, no surrounding space, and `int()` reads it back as its number |
| TrainingLog.Pad2Width | create_training_log.py:105 | a number in 0..99 pads to exactly two digits |
| TrainingLog.FormatDurationReadsBack | create_training_log.py:105 | the formatted total has three fields: the hours are total // 3600 with no 24-hour wraparound and at least two digits, and the minutes and seconds are in 0..59 with exactly two digits; reading it back as h*3600 + m*60 + s gives the total |
| TrainingLog.Pad2 | create_training_log.py:105 | a `:02d` field; stated by Pad2ReadsBack |
| TrainingLog.FormatDuration | create_training_log.py:105 | the `HH:MM:SS` total; stated by FormatDurationReadsBack and TrainingView.ReadsFormattedDuration |
| TrainingLog.ReadFields | create_training_log.py:73-78 | three colon-free integer fields joined by colons read as h*3600 + m*60 + s |
| TrainingLog.AccumulateActivities | create_training_log.py:45-100 | the loop over the sorted files returns the entries and running totals, or the file at which it raised |
| TrainingLog.AggregateTrainingData | create_training_log.py:12-112 | the function returns the outcome of the aggregation: an early return, a raise at a file, or the log |
| TrainingLog.CollectStopped | create_training_log.py:45-100 | once the loop has raised, later files change nothing |
| TrainingLog.CollectStep | create_training_log.py:45-100 | one more file either stops the loop at that file, when it does not summarize, or appends its entry and adds its distance, calories and seconds |
| TrainingLog.CollectRunning | create_training_log.py:45-100 | a loop that completes has one entry per file in file order, and its totals are the sums of what each entry's summary contributes |
| TrainingLog.CollectStopsAtFirstFailure | create_training_log.py:45-100 | the loop raises exactly when some file does not summarize, and it stops at the first such file |
| TrainingLog.AggregateOutcome | create_training_log.py:18-26 | a missing directory and one without JSON files write nothing; the log is written exactly when every listed file summarizes; a raise names a listed file that does not |
| TrainingLog.SortedSameNames | create_training_log.py:22 | sorting keeps the listed names and their number |
| TrainingLog.TotalsAreSums | create_training_log.py:57-80 | total calories, total distance and total seconds (formatted on line 105) are the sums over the entries' summaries |
| TrainingLog.LogDocumentShape | create_training_log.py:28-37 | `total_activities` is the file count, `activities` holds the loop's entries, and `statistics` is the statistics dict of the final totals |
| TrainingLog.Average | create_training_log.py:107 | the average distance times the file count gives the total distance back |
| TrainingLog.StatisticsShape | create_training_log.py:103-111 | average distance × file count = total distance; the date range runs from the first sorted file's stem to the last's |
| TrainingLog.StatisticsOf | create_training_log.py:103-111 | the statistics of the totals; stated by StatisticsShape, Average and DateRangeEnds |
| TrainingLog.StatisticsJson | create_training_log.py:103-112 | the statistics dict as written; stated by StatisticsJsonShape and StatisticsTimeReadsBack |
| TrainingLog.StatisticsJsonShape | create_training_log.py:103-112 | the dict has exactly the five keys, with the total distance, the total calories and the average distance as accumulated |
| TrainingLog.StatisticsTimeReadsBack | create_training_log.py:105 | `total_time_formatted` is text that the log's own time reader turns back into the total seconds |
| TrainingLog.LogDocument | create_training_log.py:28-37 | the written log; stated by LogDocumentShape |
| TrainingLog.Aggregate | create_training_log.py:12-112 | the outcome of the whole function; stated by AggregateOutcome, and AggregateTrainingData is proved to return it |
| TrainingLog.DateRangeEnds | create_training_log.py:109-110 | the first sorted name is the least listed name, and the last is the greatest |
| TrainingView.ReadTimeText | view_training_data.py:14-17 | a text holding a colon is not falsy and is read through its stripped parts |
| TrainingView.ParseTimeToSeconds | view_training_data.py:12-25 | `parse_time_to_seconds`; its cases are stated by ReadTimeText, ThreePartTime, TwoPartTime, ThreePartsNotIntegers, TwoPartsNotIntegers, OnePartIsNone and ManyPartsAreNone |
| TrainingView.TimeParts | view_training_data.py:18-25 | lines 18-25 on the stripped parts: three or two parts read as a number or 0, any other count as None; stated by ThreePartTime, TwoPartTime, ThreePartsNotIntegers, TwoPartsNotIntegers and ManyPartsAreNone |
| TrainingView.HoursMinutesSeconds | view_training_data.py:19-20 | `int(h) * 3600 + int(m) * 60 + int(s)`, None when a part is not an integer; stated by ThreePartTime and ThreePartsNotIntegers |
| TrainingView.MinutesSeconds | view_training_data.py:22-23 | `int(m) * 60 + int(s)`, None when a part is not an integer; stated by TwoPartTime and TwoPartsNotIntegers |
| TrainingView.HoldsColon | view_training_data.py:14-17 | a text with two or more parts is read through its stripped parts |
| TrainingView.PaddedFields | view_training_data.py:17 | colon-free fields joined by colons, with whitespace around them, split back into the fields after stripping |
| TrainingView.ThreePartTime | view_training_data.py:17-20 | "H:M:S" with integer fields, with or without surrounding whitespace, reads as h*3600 + m*60 + s |
| TrainingView.TwoPartTime | view_training_data.py:21-23 | "M:S" with integer fields, with or without surrounding whitespace, reads as m*60 + s |
| TrainingView.ThreePartsNotIntegers | view_training_data.py:18-25 | any text whose stripped form has three parts, one of which is not an integer (an empty part included, as in ":5:3", "5:3:" or "5 :x:3"), reads as 0 |
| TrainingView.TwoPartsNotIntegers | view_training_data.py:21-25 | any text whose stripped form has two parts, one of which is not an integer, reads as 0 |
| TrainingView.EmptyPartReadsZero | view_training_data.py:17-25 | ":5:3", whose first part is empty, reads as 0 |
| TrainingView.LogIgnoresTwoPartTimes | view_training_data.py:21-23 | a two-part "M:S" time reads as m*60 + s in the viewer but adds 0 to the training log's total time (create_training_log.py:76) |
| TrainingView.OnePartIsNone | view_training_data.py:18-25 | a non-empty text without a colon, other than "N/A", reads as None |
| TrainingView.ManyPartsAreNone | view_training_data.py:18-25 | four or more parts read as None |
| TrainingView.AgreesWithLogReader | view_training_data.py:17-20 | where the training log counts a time, the viewer reads the same seconds |
| TrainingView.ReadsFormattedDuration | view_training_data.py:12-25 | the viewer reads the log's formatted total back as that total |
| TrainingView.PaceRecoversText | view_training_data.py:28-32 | a present pace with whitespace around it is returned without that whitespace |
| TrainingView.PaceIdempotent | view_training_data.py:28-32 | the result is "N/A" or the stripped text, and formatting a non-empty result again gives it back |
| TrainingView.FormatPace | view_training_data.py:28-32 | `format_pace`; stated by PaceRecoversText and PaceIdempotent |
| Pipeline.ParsedDataSection | create_training_log.py:60-83 | a parsed split table's data adds its summary and splits, and the summary's totals |
| Pipeline.CsvParsed | create_training_log.py:57-83 | a `{file, data}` csv entry adds the parsed summary and splits, and the summary's totals |
| Pipeline.CsvNotParsed | create_training_log.py:57 | an absent csv entry, or an `{error}` one, adds no summary and nothing to the totals |
| Pipeline.TcxParsed | create_training_log.py:86-93 | a `{file, data}` tcx entry adds `tcx_metadata` with the type, the id and the two counts |
| Pipeline.TcxNotParsed | create_training_log.py:86 | an absent tcx entry, or an `{error}` one, adds no `tcx_metadata` |
| Pipeline.ParsedActivitySummarizes | create_training_log.py:45-100 | every document `parse_activity` writes summarizes without raising, into the folder's date, the metadata, the sources verbatim and the csv and tcx contributions |
| Pipeline.LoggedTcxCounts | create_training_log.py:86-93 | for a parsed TCX file the log records every lap, and at most 10000 trackpoints, never more than the document has |
| Text.StripPadded | view_training_data.py:17 | stripping removes exactly the whitespace around a text that has none at its ends |
| Text.StripIdempotent | view_training_data.py:32 | stripping twice is stripping once |
| Text.SplitJoin | view_training_data.py:17 | splitting separator-free parts joined by the separator gives the parts back |
| Text.JoinSplit | view_training_data.py:17 | joining the parts of a split gives the text back |
| Text.ParseIntOfString | create_training_log.py:105 | `int()` reads a decimal rendering of a number back as that number |
| Text.IntToStringShape | create_training_log.py:105 | `str()` of an integer is non-empty, has no surrounding whitespace and holds no colon |
| Text.IntTextIsDecimalText | parse_coros_data.py:183 | integer text parses as a float with the same value |
| Text.Truncate | parse_coros_data.py:183 | `int()` of a float truncates toward zero |
| Paths.StemSuffixSplit | parse_coros_data.py:261-263 | stem followed by suffix is the name; a suffix starts with its only dot and has a character after it |
| Paths.StemOfDottedName | create_training_log.py:109-110 | a name `<stem>.<ext>` with a dot-free extension has that stem and the suffix `.<ext>`, so a date file's stem is its date |
| NameOrder.SortNames | create_training_log.py:22 | the names come out sorted and are a permutation of the listing |
| NameOrder.SortedEnds | create_training_log.py:109-110 | the first sorted name precedes every listed name and the last follows every one |

## Left out

- File-system access, `json.load`/`json.dump`, globbing and console output are
  left out (`process_all_activities`, the `main` functions,
  `summarize_activity`, the print statements). The model takes their results
  as parameters.
- The composition in `Pipeline` (`Pipeline.ParsedActivitySummarizes`,
  `Pipeline.CsvParsed`, `Pipeline.TcxParsed`) takes `json.dump` followed by
  `json.load` to give back the same value. This holds for what the parser
  writes: every key is a string, and a finite float is written as its `repr`,
  which reads back as the same float. Floats outside that, such as `inf`, are
  not modelled (see `TcxParser.GetInt` below).
- `parse_fit` is a wrapper over the fitparse library, which is not part of
  this model. Its result is an opaque value supplied by the caller
  (`Readers.parseFit`).
- `csv.DictReader` and `ElementTree` are not modelled. Their outputs are the
  `Row` and `TcxDocument` inputs.
  - `CsvSplits.Row` admits a header that appears twice, which a DictReader
    dict cannot hold: the dict keeps one key, at its first position, with the
    last cell's value. On such a row `CsvSplits.Lookup` takes the first cell,
    and `CsvSplits.Cleaned` also sees the earlier cells, so it can keep an
    earlier non-empty value where Python holds only the last, empty one. For a
    header line whose names are distinct, the two agree.
  - A reader that raises, whether on a file that does not open, malformed XML,
    or a row with more cells than headers (whose `None` key makes
    `_clean_split_row` raise), is the reader's `Failure`.
  - The speed lookup `extensions.find('Speed')` has no namespace. It is an
    optional input, and nothing is assumed about it being found.
- `datetime.now()` is not modelled. The `parsed_at` and `created_at` timestamps
  are parameters.
- `round(..., 2)` and IEEE float arithmetic are not modelled. Distances are
  reals, summed and divided exactly.
- The `in` check on a JSON value is modelled for dict, list and str. `len` is
  modelled for list, dict and str. The remaining JSON types raise in both.
- `int()` accepts an optional sign and ASCII digits only. Underscores and
  non-ASCII digits are not accepted.
- `float()` accepts a sign, digits and at most one point only. Exponents,
  `inf`, `nan` and underscores are not accepted.
- `TcxParser.GetInt` and `TcxParser.GetFloat` read decimal text as an exact
  real, with no overflow to infinity. In Python, a digit string of about 310
  digits or more reads as `inf`. `_get_float` then returns `inf`. In `_get_int`,
  `int(inf)` raises `OverflowError`, which the `except ValueError` on
  parse_coros_data.py:184 does not catch, so `parse_tcx` raises and the tcx
  source becomes an `{error}` entry. The model gives the truncated number and a
  `{file, data}` entry instead.
- `Text.ParseInt` has no digit limit. Python's `int()` raises `ValueError` on
  text of more than 4300 digits. In `CsvSplits.Coerce` such a cell stays text,
  and in `TrainingLog.CaloriesOf` it adds 0. The model reads the number instead.
- `str.lower()` is modelled on ASCII letters only.
- `TrainingView.ParseTimeToSeconds`: a non-string argument is not modelled.
  Its `.strip()` raises `AttributeError` inside the `try` and gives 0; only
  strings or None are modelled.
- `TrainingView.FormatPace`: only strings or None are modelled. Any other
  falsy value also gives "N/A".
- The `if json_files else ...` fallbacks on create_training_log.py:107-110 are
  not modelled. They cannot be reached after the early return on line 24.
- The start value of `total_distance` is an `int` 0 in Python and becomes a
  float at the first summary. The model uses the real 0.0 throughout.
- The unused `--include-gps` flag is not modelled.
- The chunking and index functions are not modelled, because
  create_training_log.py does not define them.
- `raw_data_files` holds the sources exactly as parsed, trackpoints included,
  even though the commented-out `gps_track` line suggests the trackpoint list
  was meant to be omitted. The model keeps what the code does
  (`TrainingLog.SummaryContribution`).
