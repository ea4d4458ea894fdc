# franklin-importer-tools: a Dafny model of the batch bookkeeping

franklin-importer-tools is a command-line tool that helps move a web site into
Franklin (Helix). It offers several commands:

- `urls` extracts the page URLs of a site from its sitemaps.
- `import` fetches those pages, converts them to Word or Markdown documents
  and writes an Excel import report.
- `upload` mirrors the produced folder tree into a Google Drive folder.

A small Drive client scans a Drive folder tree.

This project models the logic that sits between the network, the file system
and the Excel and Drive libraries. The external calls become inputs: a fetch
outcome, a conversion result, a store of Drive folders, a sitemap tree or a
Drive folder tree. The logic modelled is:

- the wave scheduler `processAll` and the poller `waitFor`;
- the memoised folder-path resolver of the upload command, with the pre-order
  walk that feeds it;
- the report rows, which the import command writes through its own copy of
  the row code (src/cmds/import.js:117-155; the `ReportUtil` members model
  both copies), and the report name chooser `whatFileName`, which no command
  modelled here calls;
- the import command's counters, rows and extra columns;
- the URL emitter of the urls command;
- the recursive folder scan of the Drive client.

One module per source file:

| module | file | source |
|---|---|---|
| `ConcurrencyUtil` | concurrency.dfy | src/impl/ConcurrencyUtil.js |
| `Upload` | upload.dfy | src/cmds/upload.js |
| `ReportUtil` | report.dfy | src/impl/ReportUtil.js |
| `Import` | import.dfy | src/cmds/import.js |
| `Urls` | urls.dfy | src/cmds/urls.js |
| `DriveApi` | drive.dfy | src/impl/DriveAPI.js |
| `Elapsed` | elapsed.dfy | the `updateTimer` shared by import.js and urls.js |
| `Strings`, `Options` | strings.dfy, option.dfy | `split`/`join`, integers as text, `Option` |

State that the source mutates is modelled as classes:

| class | state |
|---|---|
| `Scheduler` | `index`, `processed` |
| `Uploader` | `folderIdCache`, `fileCount` |
| `Worksheet` | the worksheet |
| `ImportStatus` | the import status |
| `UrlWriter` | the output file as a string buffer, `totalCounter` |
| `DriveClient` | the `drive` handle |

Each method is proved against a specification function, and lemmas then prove
the source's promises about that function.

Where the source and its evident intent differ, a member models the code as
written and a lemma exhibits the difference. The rest of the model then uses
the corrected definition (see "## Findings"). This affects four things:

- the elapsed-time text;
- the conversion test of the upload command;
- the counter after an escaped import error;
- the auto-filter column letter.

## Model

| member | source | states |
|---|---|---|
| ConcurrencyUtil.WaveSize | src/impl/ConcurrencyUtil.js:16 | a wave launches min(concurrency, remaining) items: at least one when concurrency > 0 and items remain, none when concurrency < 1, never past the end |
| ConcurrencyUtil.Scheduler.constructor | src/impl/ConcurrencyUtil.js:11-13 | both counters start at 0 with nothing launched, and the scheduler invariant holds |
| ConcurrencyUtil.Scheduler.InFlight | src/impl/ConcurrencyUtil.js:30 | the in-flight count `index - processed` never exceeds the concurrency and equals the unsettled plus the lost launches |
| ConcurrencyUtil.Scheduler.Step | src/impl/ConcurrencyUtil.js:15-35 | a turn launches a wave only when the gate `processed >= index` passes; it launches exactly WaveSize items in array order, each call getting (array[index], index); it keeps earlier launches and `processed <= index <= length`; synchronous throws are counted as lost; once one is lost no further item launches |
| ConcurrencyUtil.Scheduler.Settle | src/impl/ConcurrencyUtil.js:19-24 | a settling promise, fulfilled or rejected, increments `processed` exactly once and keeps the invariant |
| ConcurrencyUtil.Scheduler.Run | src/impl/ConcurrencyUtil.js:11-37 | the loop returns exactly when `index` reaches the end, whether or not launches are still unsettled; concurrency < 1 launches nothing; a lost launch stalls the loop for good; the invariant holds throughout |
| ConcurrencyUtil.ReturnsBeforeLastWaveSettles | src/impl/ConcurrencyUtil.js:14-36 | two items with a concurrency of two: one turn launches both in order, the loop condition then fails and the call returns with neither settled |
| ConcurrencyUtil.SynchronousThrowStallsTheLoop | src/impl/ConcurrencyUtil.js:25-33 | a first item whose callback throws synchronously is launched but never processed, so later turns launch nothing and the loop does not return |
| ConcurrencyUtil.WaitFor | src/impl/ConcurrencyUtil.js:44-50 | the callback runs iff some poll returns true, exactly once, as the last event, one delay after the first true poll |
| ConcurrencyUtil.FirstTrue | src/impl/ConcurrencyUtil.js:45 | the position of the first true poll: true there, false before it |
| ConcurrencyUtil.WaitForPollsUntilTrue | src/impl/ConcurrencyUtil.js:44-50 | `condition()` is polled exactly up to its first true answer, with a sleep of `delay` after every poll, before the single callback |
| Elapsed.Render | src/cmds/import.js:197-201 | the text ends in "m" for the hour range and "s" otherwise |
| Elapsed.RoundDiv | src/cmds/import.js:196 | `Math.round(a / b)` for non-negative a: the nearest integer, halves rounded up |
| Elapsed.ElapsedAsWritten | src/cmds/import.js:195-205 | the source's three ranges (up to 60 s, up to 3600 s, beyond): seconds shown exactly, minutes in 1..60 with seconds t % 60, hours at least 1 with minutes up to 60 |
| Elapsed.AsWrittenOverstates | src/cmds/import.js:199-201 | as written, 90 s is shown as "2m 30s" and 7170 s as "2h 60m" |
| Elapsed.AsWrittenDoesNotDenote | src/cmds/import.js:199 | the as-written text for 90 s denotes 150 s |
| Elapsed.Elapsed | src/cmds/import.js:198-202 | the corrected formatter keeps the same three ranges |
| Elapsed.ElapsedDenotes | src/cmds/import.js:198-202 | the corrected text always denotes the elapsed time: exactly for seconds and for minutes with seconds, and to the minute for hours with minutes |
| Elapsed.AgreeBelowHalfMinute | src/cmds/import.js:196-199 | the source and the corrected formatter agree up to 60 s, and up to an hour when fewer than 30 s are left over |
| Elapsed.TimerText | src/cmds/urls.js:12-23 | the timer text ends in "s" or "m"; below 60.5 s it is the rounded seconds followed by "s" |
| Upload.ResolveSegment | src/cmds/upload.js:197-216 | one segment: the key extends relPath by "/name" (or is the name at segment 0); a cache hit only moves the parent; otherwise exactly one lookup, then a create under the current parent when not found; the key then maps to the new parent; old keys are kept and nothing else is added |
| Upload.Resolve | src/cmds/upload.js:192-220 | with no parts the root is returned and neither the cache nor the store is touched |
| Upload.ResolveFromFacts | src/cmds/upload.js:196-217 | the loop from any segment on keeps old keys, caches every later prefix and only those, returns the last prefix's id, and bounds the store calls |
| Upload.ResolveFromCaches | src/cmds/upload.js:198-215 | the cache side of the loop: old entries kept, later prefixes cached, nothing else added |
| Upload.ResolveFromGrows | src/cmds/upload.js:198-219 | old entries kept, every later prefix cached, and the returned id is the one cached under the last prefix |
| Upload.ResolveFromAddsOnlyPrefixes | src/cmds/upload.js:212-215 | the loop adds no key other than a prefix key of the path |
| Upload.ResolveFromCalls | src/cmds/upload.js:201-216 | the store side of the loop: an all-cached rest makes no call; at most one lookup per segment; a create only follows a failed lookup; ids stay allocated |
| Upload.ResolveCachesEveryPrefix | src/cmds/upload.js:198-215 | after a call every prefix key parts[0]/…/parts[i] is cached; earlier entries are unchanged and no other key is added |
| Upload.ResolveReturnsCachedId | src/cmds/upload.js:212-219 | for a non-empty path the returned id is `folderIdCache[full relPath]` |
| Upload.ResolveCachedPathMakesNoCalls | src/cmds/upload.js:201-206 | a path whose prefixes are all cached makes no lookup or create, leaves the cache alone, and yields the cached id under any root |
| Upload.ResolveTwice | src/cmds/upload.js:190-220 | resolving the same path again, under any root, makes zero store calls and returns the same id |
| Upload.ResolveCallBounds | src/cmds/upload.js:208-216 | at most one lookup per segment; creates never exceed failed lookups; created ids are fresh |
| Upload.GoogleDocName | src/cmds/upload.js:233 | the document name is the file name up to its first '.' (the whole name when there is none) |
| Upload.ConvertCheckAsWritten | src/cmds/upload.js:255 | as written, the test assigns the Word mime type and is always true, whatever mime type the store reported |
| Upload.AsWrittenConvertsEveryUpload | src/cmds/upload.js:255-274 | a PNG upload passes the as-written test and fails the intended one; every intended conversion also passes as written |
| Upload.UploadedFiles | src/cmds/upload.js:244-278 | a failed create leaves nothing; a converted Word document leaves only the Google document named GoogleDocName in the same folder; any other upload leaves the file under its own name and mime type |
| Upload.UploadParent | src/cmds/upload.js:234 | a one-part path uploads into the root without touching the cache or store; otherwise into the resolution of all parts but the last |
| Upload.ListLocalPreorder | src/cmds/upload.js:85-108 | `listLocalFiles` reports in pre-order: every entry lies below the listed root, and every deeper entry comes after its own directory's report |
| Upload.ListedPaths | src/cmds/upload.js:90-98 | every reported path is the source joined with the entry's chain of names |
| Upload.ListedRelativeParts | src/cmds/upload.js:290 | the handler's relPath (the source prefix and its separator stripped), split on '/', gives back each entry's chain of names |
| Upload.CountFiles | src/cmds/upload.js:296 | the file count never exceeds the number of reports |
| Upload.FileFolderCached | src/cmds/upload.js:95-98 | when a file is reported, its folder chain is already cached, because its directory was reported earlier |
| Upload.Uploader.constructor | src/cmds/upload.js:190 | an empty `folderIdCache` and a zero file count |
| Upload.Uploader.GetFolderIdByName | src/cmds/upload.js:161-173 | one lookup; the folder of that name under the parent, or none |
| Upload.Uploader.CreateFolder | src/cmds/upload.js:175-188 | one create of a folder with a fresh id under the parent |
| Upload.Uploader.ResolveSegmentStep | src/cmds/upload.js:196-216 | one loop iteration does exactly what ResolveSegment says |
| Upload.Uploader.GetOrCreateFolderByPath | src/cmds/upload.js:192-220 | the loop returns, caches and leaves the store exactly as Resolve says |
| Upload.Uploader.DoUpload | src/cmds/upload.js:229-279 | the file goes into UploadParent's folder, and the files left in the store are exactly UploadedFiles (with the intended conversion test) |
| Upload.Uploader.HandleListed | src/cmds/upload.js:289-298 | a directory is resolved and cached without counting or uploading; a file is counted once and uploaded exactly as DoUpload says, and with its folders cached it makes no store call |
| Upload.Uploader.HandleReportAt | src/cmds/upload.js:289-299 | one report moves the handler's progress one report further |
| Upload.Uploader.HandleDirAt | src/cmds/upload.js:292-294 | a directory report resolves its path and keeps every directory so far cached |
| Upload.Uploader.HandleFileAt | src/cmds/upload.js:295-297 | a file report counts the file and leaves cache and store as they were |
| Upload.Uploader.HandleReports | src/cmds/upload.js:289-299 | over a pre-ordered listing, `fileCount` grows by the number of files; cache and store end as if only the directories had been resolved; every directory ends cached; the files left in the store are exactly UploadsOf the listing: each file report's UploadedFiles in listing order, in UploadParent's folder |
| Upload.UploadsOfCount | src/cmds/upload.js:244-297 | the uploads of a listing hold one file per file report whose create succeeded, so never more than the counted files |
| Upload.Uploader.Handler | src/cmds/upload.js:281-305 | the whole walk: files counted, directories resolved before their contents, uploads making no folder calls, and the store holding exactly the uploads of the listing in order |
| ReportUtil.IntToString | src/cmds/import.js:269 | the text is the integer's decimal digits, after a '-' exactly when it is negative, and reads back as the integer |
| ReportUtil.Stringify | src/impl/ReportUtil.js:35 | `JSON.stringify` of an integer is text denoting that integer, of a boolean "true"/"false", of null "null" and of an object its JSON text |
| ReportUtil.ReplaceFirstEquals | src/impl/ReportUtil.js:28 | `replace(/=/, r)` replaces a leading '=' by r and leaves a string without '=' unchanged |
| ReportUtil.ExtraCell | src/impl/ReportUtil.js:25-36 | a string starting with '=' becomes a formula with "_xlfn." in place of the '=' and value ''; other strings are copied; any other value becomes a text cell holding exactly its `Stringify` text |
| ReportUtil.TruthyCols | src/impl/ReportUtil.js:22-24 | the columns kept are exactly the extra columns whose report value is present and truthy |
| ReportUtil.ExtrasAppend | src/impl/ReportUtil.js:22-38 | the extras of a column list are those of its parts, concatenated in order |
| ReportUtil.ExtrasAreTruthyColumns | src/impl/ReportUtil.js:21-39 | one cell per truthy column, in extraCols order, each the ExtraCell of its value; falsy or missing values are skipped, not padded |
| ReportUtil.NoReportNoExtras | src/impl/ReportUtil.js:21 | a row without a report has no extras |
| ReportUtil.BuildExtras | src/impl/ReportUtil.js:20-39 | the loop pushes exactly the extras, one per truthy column |
| ReportUtil.RowCells | src/impl/ReportUtil.js:41 | a row starts with url, path, file or '', status, redirect or '', followed by its extras |
| ReportUtil.ColumnCodeAsWritten | src/impl/ReportUtil.js:11 | as written, the column letter is a letter only for 1 to 26 headers |
| ReportUtil.AsWrittenPastZ | src/impl/ReportUtil.js:11 | 27 headers give the code of '[' |
| ReportUtil.ColumnName | src/impl/ReportUtil.js:9-12 | the corrected column name is a non-empty word of capital letters |
| ReportUtil.ColumnNameRoundTrip | src/impl/ReportUtil.js:11 | the corrected name reads back to its column number and equals the source's letter for up to 26 headers |
| ReportUtil.HeaderFilter | src/impl/ReportUtil.js:9-12 | the auto-filter runs from A1 to the last header column on row 1 |
| ReportUtil.Worksheet.constructor | src/impl/ReportUtil.js:60 | a new sheet has no auto-filter and no rows |
| ReportUtil.WriteReportWorksheet | src/impl/ReportUtil.js:5-43 | sets the auto-filter over the headers and appends the header row plus one row per record, in order, after the rows already there |
| ReportUtil.SheetRowsShape | src/impl/ReportUtil.js:6-16 | one header row (defaultHeaders then extraCols, in order) plus exactly one row per record, row i+1 being record i |
| ReportUtil.ClashCount | src/impl/ReportUtil.js:71-75 | the count is zero exactly when no `.xlsx` entry starts with `name.` or `name-` |
| ReportUtil.WhatFileName | src/impl/ReportUtil.js:66-82 | concatenate keeps the suggested name; otherwise the name changes iff some clashing report exists, and then becomes `name-(count+1)`; the result always starts with the suggested name |
| ReportUtil.CountedNameMayExist | src/impl/ReportUtil.js:66-82 | counting is not searching: with reports `r.xlsx` and `r-3.xlsx` present, the chosen name is `r-3`, an existing report |
| ReportUtil.CountedNameClashes | src/impl/ReportUtil.js:72-78 | a counted name's `.xlsx` file is itself counted as a clash of the suggested name |
| Import.ValidateOutputType | src/cmds/import.js:75-84 | accepts iff every type is docx or md; otherwise reports the first other type |
| Strings.JoinSplit | src/cmds/import.js:291-295 | splitting a string on a separator and joining the parts with it gives the string back, so `argv.type.split('\|')` loses no part of the argument |
| Import.DefaultTypesValid | src/cmds/import.js:42-45 | the default "docx" is one type, and "md\|docx" validates |
| Import.FixValue | src/cmds/import.js:16-19 | a value starting with "//" gets the page protocol in front; any other value is unchanged |
| Import.FixValueIdempotent | src/cmds/import.js:16-18 | a fixed value no longer starts with "//", so fixing it again changes nothing |
| Import.FixAttribute | src/cmds/import.js:14-20 | every element is fixed for the attribute, and the element count is kept |
| Import.FixLinks | src/cmds/import.js:11-22 | the in-place loops leave the elements as FixLinksSpec says |
| Import.FixLinksIdempotent | src/cmds/import.js:11-22 | a second pass of fixLinks changes nothing |
| Import.FixLinksFixes | src/cmds/import.js:13-20 | after the fix every listed attribute is fixed in every element |
| Import.FixLinksLeavesOthers | src/cmds/import.js:13-20 | attribute sets are unchanged, and values of unlisted attributes or not starting with "//" are left as they were |
| Import.PresentTypes | src/cmds/import.js:107-108 | the types kept are exactly the requested ones present in the result |
| Import.SavedPaths | src/cmds/import.js:105-115 | `path.t` for each requested type present in the result, in requested order |
| Import.SaveOutput | src/cmds/import.js:105-115 | the loop returns SavedPaths; a path is returned iff it is `path.t` for a requested present type t |
| Import.MergeColsFacts | src/cmds/import.js:237-241 | existing columns stay first and in place; every key becomes a column; nothing else is added; no duplicates; known keys change nothing |
| Import.MergeColsIdempotent | src/cmds/import.js:237-241 | merging the same keys twice adds nothing |
| Import.OutcomeRowsShape | src/cmds/import.js:207-272 | redirect: one Redirect row with the final URL; non-ok: one Invalid row; transform or save error: one "Error: " row; success: one Success row per saved file, in order; a failed fetch: no row from processUrl |
| Import.EscapedCountAsWritten | src/cmds/import.js:312-314 | as written, an escaped error raises `imported` to at least index + 1 and never lowers it |
| Import.EscapedCount | src/cmds/import.js:312-314 | the corrected escaped-error path counts one more finished item |
| Import.ImportStatus.constructor | src/cmds/import.js:284-289 | the status starts with no rows, no extra columns and `imported` at 0 |
| Import.ImportStatus.UpdateTimer | src/cmds/import.js:195-205 | `timeStr` becomes the timer text of the elapsed milliseconds |
| Import.ImportStatus.AddExtraCols | src/cmds/import.js:237-241 | the loop appends each key not yet a column, in first-seen order |
| Import.ImportStatus.ProcessUrl | src/cmds/import.js:207-272 | every branch of processUrl adds exactly 1 to `imported` and appends OutcomeRows; `extraCols` becomes MergeCols of the page's report keys (none unless converted); `timeStr` becomes the timer text of the elapsed time for a converted page and is kept otherwise; a failed fetch changes nothing and escapes |
| Import.ImportStatus.AddSuccessRows | src/cmds/import.js:242-250 | one Success row per saved file, in order |
| Import.ImportStatus.AsyncCallback | src/cmds/import.js:306-323 | the callback always resolves, with `imported` one higher; an escaped error adds one "Error: " row, any other outcome its OutcomeRows; `extraCols` and `timeStr` change as in ProcessUrl |
| Import.ImportStatus.ProcessNext | src/cmds/import.js:330-332 | one sequential step extends the processed prefix unless an error escapes |
| Import.ImportStatus.ProcessSequentially | src/cmds/import.js:327-332 | with async off the URLs are processed in order, and the run completes iff no error escapes, returning the first escaped error otherwise; the counter, rows, extra columns and elapsed text are those of the URLs before the first escaped error (all of them when none escapes) |
| Import.ColsAfterFacts | src/cmds/import.js:237-241 | over several pages the extra columns keep the old ones first, gain every report key, gain nothing else, and stay free of duplicates |
| Import.TimerAfterLastConversion | src/cmds/import.js:232-235 | after several pages the elapsed text is that of the last converted page, or unchanged when none converted |
| Import.AsWrittenCountsUnfinished | src/cmds/import.js:312-313 | with two URLs, a failed second fetch settling first sets the counter to the total while the first is still running |
| Import.AsWrittenUndercounts | src/cmds/import.js:312-313 | with three URLs, a failed first fetch settling last leaves the counter at 2, so completion waits for 100 polls |
| Import.CounterCountsFinishes | src/cmds/import.js:306-323 | the corrected counter equals the number of finished callbacks |
| Import.CompletionPolls | src/cmds/import.js:337-344 | poll k answers true iff the counter equals the total or k + 1 >= 100 |
| Import.ReportSavedWithinHundredPolls | src/cmds/import.js:336-352 | the report is saved exactly once, after at most 100 polls, and before the 100th only once every URL is counted |
| Urls.ColonEndsProtocol | src/cmds/urls.js:137-139 | in a mapped path the protocol ends at its first colon |
| Urls.MappedPath | src/cmds/urls.js:139 | the mapped path is the entry's protocol, "//", the sitemap's host name, then the entry's path name |
| Urls.MappedPathSameExactly | src/cmds/urls.js:137-139 | two pages map to the same path iff they agree on protocol and path name; host, port, query and fragment are dropped |
| Urls.PassingEntries | src/cmds/urls.js:68-75 | exactly the entries with a location and a lastmod that pass the filter; a date that does not parse lets none pass |
| Urls.WalkAll | src/cmds/urls.js:39-76 | everything reported passes the filter; a date that does not parse reports nothing |
| Urls.LaterThan | src/cmds/urls.js:71 | the strict lastmod filter keeps at most the given entries |
| Urls.LaterThanAppend | src/cmds/urls.js:71 | the filter distributes over concatenation |
| Urls.PassingEntriesFiltered | src/cmds/urls.js:71 | a document's filtered entries are its unfiltered ones with a strictly later lastmod |
| Urls.WalkAllFiltered | src/cmds/urls.js:39-76 | a filtered walk reports exactly the unfiltered walk's entries with a strictly later lastmod, in the same order, and stops at the same point |
| Urls.StepFiltered | src/cmds/urls.js:63-75 | one sitemap of the walk keeps the filter property |
| Urls.UnavailableReportsNothing | src/cmds/urls.js:40-43 | a non-ok sitemap response reports nothing and is not an error |
| Urls.ChildrenFirst | src/cmds/urls.js:63-75 | a document's child sitemaps are reported, in order, before its own entries |
| Urls.Written | src/cmds/urls.js:145 | falsy mapped paths are skipped, so no more paths are written than mapped |
| Urls.ModeOf | src/cmds/urls.js:120-122 | JSON output iff `--out` is given and ends with ".json"; console output iff `--out` is absent or empty |
| Urls.EmitStep | src/cmds/urls.js:145-163 | one more callback appends exactly that path's piece, numbered after the paths already written |
| Urls.JsonItems | src/cmds/urls.js:151-155 | one array element per written path |
| Urls.JsonTextJoins | src/cmds/urls.js:148-155 | the JSON pieces are the elements joined by ",\n" (no separator before the first) |
| Urls.TextJoins | src/cmds/urls.js:157 | the text pieces are the paths joined by newlines, plus a final newline |
| Urls.TextFileRoundTrip | src/cmds/urls.js:157 | reading the text file back line by line gives the written paths |
| Urls.UrlWriter.constructor | src/cmds/urls.js:120-132 | the output mode follows `--out`; a JSON file starts with "[\n"; the counter starts at 0 |
| Urls.UrlWriter.Emit | src/cmds/urls.js:145-163 | a falsy path changes nothing; a truthy one is printed or appended (with ",\n" before every JSON item but the first, raw when it parses as JSON, else quoted) and counted |
| Urls.UrlWriter.EmitAll | src/cmds/urls.js:136-164 | all callbacks together append FileText of the written paths and count them |
| Urls.UrlWriter.EmitNext | src/cmds/urls.js:136-164 | one callback moves the output one mapped path further |
| Strings.NatToStringValue | src/cmds/import.js:269 | the decimal text of a number, as in "Invalid: <status>" and "Extracted N", denotes that number |
| Urls.UrlWriter.Finish | src/cmds/urls.js:165-168 | a JSON array is closed with "]", and "Extracted N in T" is printed |
| Urls.UrlWriter.WriteAll | src/cmds/urls.js:136-168 | a fresh output ends as FileOf the written paths; `totalCounter` equals the number written |
| Urls.MapAll | src/cmds/urls.js:137-143 | one mapping result per reported entry |
| Urls.WithoutScriptAllWritten | src/cmds/urls.js:139-145 | without a mapping script every reported page is written, in order, as its mapped path |
| Urls.JsonFileIsArray | src/cmds/urls.js:128-166 | the JSON file is "[\n", the items joined by ",\n", then "]"; a walk that threw leaves the array unclosed |
| Urls.TextFileIsLines | src/cmds/urls.js:157 | the text file is the written paths, one per line |
| Urls.ConsoleLeavesNoFile | src/cmds/urls.js:159-160 | console output writes no file |
| Urls.ConsoleWritesNoFile | src/cmds/urls.js:159-160 | no callback writes to a file on the console |
| Urls.Handler | src/cmds/urls.js:104-172 | the command's file, printed lines and `totalCounter` are those of the filtered walk's written paths; the count equals the number of paths written |
| DriveApi.ChildPath | src/impl/DriveAPI.js:119 | a child's path is its name under an empty path, otherwise path + "/" + name |
| DriveApi.Scan | src/impl/DriveAPI.js:109-134 | a failed listing logs exactly once for the folder; an empty root logs once (the ReferenceError), an empty subfolder not at all; nothing escapes; every report is a non-folder entry below the path |
| DriveApi.ScanEntries | src/impl/DriveAPI.js:117-127 | every report of the loop is a non-folder entry whose path ends with its name and lies below the folder's path |
| DriveApi.PrefixOfChild | src/impl/DriveAPI.js:119-122 | a path below a child folder is below its parent |
| DriveApi.DirectFiles | src/impl/DriveAPI.js:124-126 | no more direct files than entries |
| DriveApi.ShallowScanReportsDirectFiles | src/impl/DriveAPI.js:117-127 | a shallow scan reports exactly the folder's direct files, in listing order, with their paths |
| DriveApi.DeepScanFlattens | src/impl/DriveAPI.js:109-134 | a deep scan of a tree whose folders all list and whose callbacks all succeed reports exactly Flatten of the tree, as the first result page of each folder listing gives it: its files in depth-first pre-order, each with the path accumulated through its folders' names |
| DriveApi.UnlistableFolderIsolated | src/impl/DriveAPI.js:122-133 | a subfolder whose listing fails leaves the other entries' reports exactly as if it were absent |
| DriveApi.DriveClient.constructor | src/impl/DriveAPI.js:6 | the handle starts unset and nothing has been reported; the source's handle is one module-level variable shared by all clients, while here each client has its own, so a second client does not see an earlier `init` |
| DriveApi.DriveClient.Init | src/impl/DriveAPI.js:82-98 | the handle is set once authorisation succeeds and is otherwise unchanged |
| DriveApi.DriveClient.ScanFiles | src/impl/DriveAPI.js:109-134 | throws iff the client is uninitialised, then reporting nothing (authCheck sits outside the try); otherwise reports and logs exactly what Scan says |
| DriveApi.DriveClient.ScanEntryAt | src/impl/DriveAPI.js:118-126 | one loop turn advances the reports and logs by that entry's share of the scan |
| DriveApi.DriveClient.VisitFile | src/impl/DriveAPI.js:125 | the callback gets the file and its accumulated path, and throws iff it rejects |
| DriveApi.DriveClient.VisitFolder | src/impl/DriveAPI.js:120-123 | a subfolder is scanned under its own path on a deep scan and skipped otherwise |

## Left out

- The OAuth flow: the token file, the local redirect server, opening a browser and `authorize`. It is interactive I/O. `DriveApi.DriveClient.Init` takes whether authorisation succeeded as a boolean, and the upload handler starts once authorised.
- The Google Drive wire calls (`files.list`, `create`, `copy`, `delete`) and the upload streams. The store is a map from (parent id, name) to folder id with a fresh-id allocator, and each upload's effect is an input (`UploadResult`).
- `printRemoteFileListing` (upload.js) only prints the remote tree to the console.
- `formatFileSize` uses floating-point `toFixed` and only feeds a log line.
- HTML fetching and conversion (fetch with retries, JSDOM, `html2docx`, `html2md`, `sanitizePath`). Each URL comes with its outcome and conversion result as an input.
- Excel workbook reading and writing and the existing-file check (`buildReport`, `saveReport`). The rows written to a sheet are modelled; the file is not.
- gzip decompression and sitemap XML parsing. A parsed sitemap is a tree of child sitemaps and entries with an optional location and an optional lastmod time. `new URL(sitemapURL)` failing on the source argument is not modelled: the host name is an input.
- Wall-clock time, `setTimeout` and `sleep`. Elapsed time is an input in milliseconds, and promise settlement is an event between loop turns.
- Informational console output other than the "Extracted N in T" line and the Drive error log lines.
- `tryJSON` is not defined in any file modelled. It is an input: the set of strings it finds truthy.
- src/impl/args.js, src/impl/entries.js, src/impl/filesystem.js, src/cmds/publish.js and index.js are not part of this model.
- ConcurrencyUtil.Scheduler.Run: settlement is driven only through fulfilled promises. A rejected one has the same effect (`Settle` takes the flag and ignores it). Timing between turns is not modelled.
- Urls.WalkAll: a child sitemap is a URL that the source fetches again with no visited set and no depth limit (urls.js:63-66, 39-53). A sitemap index that lists itself or an ancestor is therefore fetched without end, and the command never writes the closing "]" or prints "Extracted N in T". The sitemap tree of the model is finite, so it excludes this case, and `Urls.Handler` states only runs over finite trees.
- Urls.Handler: the mapping script is a pure function of the mapped path. The reordering an awaited script allows is not modelled. In the source, `processAll` can return before the last wave's awaited callbacks finish, so their paths can land after the closing "]".
- Urls.UrlWriter.constructor: `totalCounter` is module-level and starts at 0 once per process. The model starts it at 0 for each run, which is the command's single run.
- ReportUtil.WriteReportWorksheet: requires at least one header. The source always passes five default headers; with none it would name column '@'.
- Upload.Uploader.GetOrCreateFolderByPath: folder lookups and creates always succeed in the model. In the source they can throw; a directory name holding a single quote, for one, breaks the query built at upload.js:162. Thrown from the handler's directory branch, the error lands in the per-entry catch of `listLocalFiles`, which then skips the recursion, so the whole subtree is never uploaded. Thrown from `doUpload`, the file is skipped after it was counted. Neither path is modelled.
- Upload.ResolveSegment: the cache holds only the keys added to it. The source's cache is a plain object, so `relPath in folderIdCache` also holds for inherited names such as `constructor`, `toString` or `__proto__`. A top-level directory of such a name is a false cache hit whose "id" is a function or object; it is never looked up or created. This is not modelled.
- ReportUtil.ExtraCell: numbers in a report are integers (`Value.Num`). The JSON text of a non-integer number is not modelled.
- ConcurrencyUtil.Scheduler.Step: the concurrency is an integer. A fractional `--async` value such as 1.5 makes the source's inner loop launch waves of ceil(c) items; that is not modelled.
- DriveApi.Scan: a folder's `children` are the first result page of a single `files.list` call. The scan passes no `pageToken` and never reads `nextPageToken` (src/impl/DriveAPI.js:112-116), so entries beyond that page are never scanned or reported. `DriveApi.DeepScanFlattens` means "exactly the files the first pages list", not every file in the folder.
- DriveApi.Scan: a Drive entry carries whether listing it succeeds, and the callback is given as the set of file ids on which it throws. An absent `files` array in a response is treated like an empty one.

## Findings

| source | as written | input that shows it | evidently intended | confidence | as-written member | corrected member |
|---|---|---|---|---|---|---|
| src/cmds/upload.js:255 | `resp.data.mimeType = '…wordprocessingml.document'` assigns instead of comparing, so the test is always true | an upload reported as "image/png" is copied to a Google document and then deleted | convert only when the reported mime type is the Word one (`===`) | not executed | Upload.AsWrittenConvertsEveryUpload | Upload.UploadedFiles |
| src/cmds/import.js:199-201 | minutes and hours are computed with `Math.round` (the same code is at src/cmds/urls.js:16-18) | 90 s is shown as "2m 30s", and 7170 s as "2h 60m" | whole minutes and hours (floor), with the remainder beside them | not executed | Elapsed.AsWrittenDoesNotDenote | Elapsed.ElapsedDenotes |
| src/cmds/import.js:312-313 | an escaped error sets `imported` to `index + 1` instead of counting one more item | two URLs where the second fetch fails first: `imported` becomes 2 = total while the first URL is still running, and the report is saved without its row | `imported += 1`, as in every other branch | not executed | Import.AsWrittenCountsUnfinished | Import.CounterCountsFinishes |
| src/impl/ReportUtil.js:11 | the last auto-filter column is `String.fromCharCode(65 + n - 1)` (the import command's copy at src/cmds/import.js:123 has the same code) | 27 header columns give "[1" | the Excel column name ("AA1") | not executed | ReportUtil.AsWrittenPastZ | ReportUtil.ColumnNameRoundTrip |
