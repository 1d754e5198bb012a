# EchoWing data pipeline, modelled in Dafny

EchoWing collects bird recordings from xeno-canto and cuts them into
segments. It filters the segments with BirdNET, trains a call-type classifier
and evaluates it. This project models the deterministic bookkeeping of that
pipeline and proves what it promises. The rules it covers are:

- which table rows the fetchers keep, and how they fill each call type's
  list up to its quota;
- the retry rule for page fetches and downloads;
- how folders, JSON files and recording titles are named;
- the recording-name grammar, and how recordings are cut into parts;
- mp3-to-wav renaming, and removing files that are not allowed;
- the most-common-species rule for the BirdNET CSV;
- label routing and label encoding in the fine-tuning dataset;
- class balancing, aligned label lists and the 75 % subset;
- padding or cutting a recording to a fixed number of samples;
- the configuration patch applied to saved models;
- true labels, argmax predictions, the mismatch listing and Cohen's kappa in
  the evaluation scripts. The kappa modelled is `cohens_kappa` of
  `Testing/prediction.py`. That script defines it but never calls it, since
  the call is commented out. The kappa actually printed, by
  `Testing/prediction3classes.py`, comes from scikit-learn's
  `cohen_kappa_score`, which is not part of this model.

The I/O around these rules becomes plain values:

- A fetched page is the list of its already-extracted table rows.
- A server is the number of 503 answers it gives before its final answer.
- A directory tree is an `os.walk`-style sequence of `(root, files)`.
- The filesystem is a set of paths, or a map from paths to sample sequences.
- Audio is one sample per millisecond (for cutting) or a sequence of reals
  (for loading).
- Decoders, the network and the BirdNET detector are function parameters.

Modules, one per concern:

- `Wrappers`: `Option` and `Result`.
- `Text`: JavaScript and Python string and path operations. Covers
  `replace` (first match or global), `split`, `strip` (with the white
  space of `str.isspace`, Unicode included), `lower`,
  `os.path.join`, `normpath`, `basename`, `dirname` and `splitext`.
- `Xeno`: table rows, entries, and quotas. Also JavaScript's `Number` on
  the fields of the length cell: white space at both ends is ignored, and
  the rest may be empty (0), a signed decimal literal with fraction and
  exponent, `Infinity`, or an unsigned `0x`, `0o` or `0b` integer. Anything
  else is NaN.
- `Retry`: `fetchWithRetry` and `downloadWithRetry`.
- `Selection`: the `rows.each` row rule shared by the three fetchers.
- `SpeciesFetch`: `getDataFile` of `FileExtraction/getFiles3classes.js` and
  `FileExtraction/getFilesFlightCall.js`.
- `SpeciesDownload`: the directory cleanup and `writeJsonAndDownloadFiles`
  of the same two scripts.
- `PlainFetch`: `getFiles.js`.
- `Segments`: the top-level `shortenFilesIntoSegments.py`.
- `WavSplit`: `FileEditing/shortenFilesIntoSegments.py`.
- `BirdNet`: `birdNETAnalyzer.py`.
- `Finetune`: `finetune.py`.
- `Training`: `Training/train3classes.py` and `Training/train.py`.
- `ConfigPatch`: `train.py`, and the same patch in `Training/train.py`.
- `Evaluation`: the prediction scripts.

In `Training/train.py`, the `defaultdict` creates a class's key only when a
`.wav` file is appended (line 47). So `min` at line 51 ranges over the
non-empty classes only:

- An empty class stays empty.
- The other classes are cut to the smallest non-empty size.
- If every class is empty, `min` of an empty sequence raises `ValueError`.

This is `Training.BalancedSizes`, `Training.DefaultDictSucceeds` and
`Training.NoFilesRaises`.

## Model

| member | source | states |
|---|---|---|
| Retry.FetchWithRetry | FileExtraction/getFiles3classes.js:23-39 | The result and attempt count are those of the retry loop. At most `retries` attempts are made. The loop returns the first non-503 success, and rethrows a 503 on the last attempt and every other error. It falls through to `undefined` exactly when `retries` is 0. A success costs `busy + 1` attempts; a thrown 503 costs all of them. The same code is at FileExtraction/getFilesFlightCall.js:20-33. |
| Retry.OutcomeIsExpected | FileExtraction/getFiles3classes.js:25-38 | The loop's outcome and attempt count equal a closed form. No attempt is made when `retries` is 0. A server still answering 503 at the last allowed attempt makes the loop throw that 503. Otherwise the first non-503 answer decides. |
| Retry.FetchFromClosedForm | FileExtraction/getFiles3classes.js:25-38 | From any attempt before the server stops answering 503, the rest of the loop has the closed-form outcome and the remaining attempt count. |
| Retry.ContinuesWhileBusy | FileExtraction/getFiles3classes.js:30-35 | A server that keeps answering 503 makes the loop use every remaining attempt and then throw the 503. |
| Retry.NeverFallsThrough | FileExtraction/getFiles3classes.js:23-39 | With at least one retry, the fetch never returns `undefined`. So the skip branch at lines 64-68 cannot be taken with the default of 3 retries. |
| Retry.DownloadWithRetry | FileExtraction/getFiles3classes.js:147-179 | The download decides like the fetch. After a success the file exists. After a thrown error the file is gone, because it is deleted after every failed attempt. Same code at FileExtraction/getFilesFlightCall.js:110-133. |
| Xeno.BelowIsUnderCap | FileExtraction/getFiles3classes.js:123 | For a counter within its cap, `typeCounters[Type] < maxAmounts[Type]` holds exactly when the counter is below the cap. The cap is 0 for a missing or non-positive quota. |
| Selection.EmptyOverview | FileExtraction/getFiles3classes.js:48-49 | The initial overview has exactly the listed types as keys, each with an empty list. |
| Selection.AddPageRows | FileExtraction/getFiles3classes.js:92-139 | The `rows.each` loop, proved against `AddRows`. Afterwards every counter equals its list's length, the keys are unchanged, and no list exceeds its quota. |
| Selection.AddRowKeepsCaps | FileExtraction/getFiles3classes.js:123-137 | One row keeps the keys, and keeps every list within its quota. |
| Selection.AddRowsTakes | FileExtraction/getFiles3classes.js:92-139 | After one page, a type's list is its old list followed by that page's qualifying rows of that type, in row order, cut to the quota. |
| Selection.AddRowsKeepsCaps | FileExtraction/getFiles3classes.js:92-139 | A whole page keeps the keys and every list within its quota. |
| Selection.NoneBelowMeansFull | FileExtraction/getFiles3classes.js:55 | When the `while` condition fails, every wanted type's list holds exactly its quota. |
| Xeno.DigitsNumber | FileExtraction/getFiles3classes.js:104 | `Number` of a run of decimal digits is the value they write. The empty string is 0. |
| Xeno.DecimalNumber | FileExtraction/getFiles3classes.js:104 | `Number` of digits, a `.` and digits, with at least one digit in all, is the exact decimal fraction they write. |
| Selection.FirstField | FileExtraction/getFiles3classes.js:104 | The first field of `split(':')` is the text before the first colon, or the whole text when there is no colon. |
| Selection.SecondField | getFiles.js:59 | For a text with one colon, the second field of `split(':')` is the text after it. |
| Selection.TooLongOfMinutes | FileExtraction/getFiles3classes.js:104-107 | A length whose leading field is the number `m` is rejected exactly when `m >= 5`. |
| Selection.TooLongOfDecimal | FileExtraction/getFiles3classes.js:104-107 | Minutes with a decimal fraction are rejected exactly when their exact value is at least 5. |
| Selection.FractionalMinutes | FileExtraction/getFiles3classes.js:104-107 | The length `5.5:00` is rejected and `4.9:00` is kept. |
| Selection.TooLongPlainOfMinutes | getFiles.js:59-62 | In the plain fetcher, whole minutes `m` and a seconds field are rejected exactly when `m > 1`, or `m` is 1 and the seconds are a number above 30. |
| Selection.TooLongPlainOfDecimal | getFiles.js:59-62 | With seconds carrying a decimal fraction, a length at one minute is rejected exactly when the seconds' exact value is above 30. |
| Selection.FractionalSeconds | getFiles.js:59-62 | The length `1:30.5` is rejected and `1:30.0` is kept. |
| Selection.MatchingQualifies | FileExtraction/getFiles3classes.js:96-136 | Every entry a page contributes to type `t` satisfies all of these: it is of the wanted species, it is shorter than five minutes, its stored type is `t` with every space removed, and it records that page. |
| Selection.TakeKeeps | FileExtraction/getFiles3classes.js:123 | Cutting a list of qualifying entries to its quota leaves only qualifying entries. |
| SpeciesFetch.GetDataFile | FileExtraction/getFiles3classes.js:46-145 | The page loop, proved against `Run`. On success the overview has exactly the listed types as keys, and every list is within its quota. |
| SpeciesFetch.RunStep | FileExtraction/getFiles3classes.js:55-141 | While some counter is below its quota, the outcome depends on the page. A page with data rows adds its rows and moves to the next page. A failed fetch throws. A page without a results table, or without data rows, returns the overview built so far. |
| SpeciesFetch.RunCollects | FileExtraction/getFiles3classes.js:55-144 | From any page on, a successful run gives each type the first qualifying entries of the pages read, cut to the quota. |
| SpeciesFetch.CollectsStep | FileExtraction/getFiles3classes.js:92-141 | Reading one data page extends the collected entries by that page's qualifying rows. |
| SpeciesFetch.CollectsWhenFull | FileExtraction/getFiles3classes.js:55 | Once every quota is met, the overview is final. |
| SpeciesFetch.CollectsAtStop | FileExtraction/getFiles3classes.js:76-89 | A page without a table or without data rows ends the run with the overview as it is. |
| SpeciesFetch.SelectionIsFirstQualifying | FileExtraction/getFiles3classes.js:46-145 | On success, each type's list is the qualifying entries of that type, in page order and then row order, cut to the quota. |
| SpeciesFetch.CollectedQualifies | FileExtraction/getFiles3classes.js:96-136 | Every collected entry of a type qualifies and records a page within the range that was read. |
| SpeciesFetch.SelectedEntriesQualify | FileExtraction/getFiles3classes.js:96-136 | Every listed entry of type `t` has all of these: the wanted species, a leading minutes field below 5, stored type `t` without spaces, and a page from `startPage` up to the last page read. |
| SpeciesFetch.ListQualifies | FileExtraction/getFilesFlightCall.js:66-102 | Cutting a type's collected entries to its quota, whatever the quotas, keeps only qualifying entries. |
| SpeciesFetch.RunKeepsKeys | FileExtraction/getFiles3classes.js:55-141 | The loop never adds or removes a key of the overview. |
| SpeciesFetch.ListsWithinQuota | FileExtraction/getFiles3classes.js:123 | On success, every wanted type is a key, and its list is within its quota. |
| SpeciesFetch.QuotasOverview | FileExtraction/getFiles3classes.js:46-145 | On success, the keys are exactly the wanted types, every list is within its quota, and every entry qualifies. |
| SpeciesFetch.ThreeTypeOverview | FileExtraction/getFiles3classes.js:212-213 | With the quotas `main` passes and start page 1, the keys are exactly song, call and alarm call. Each list holds at most 40 entries. Every entry is of the wanted species, shorter than five minutes, stored under its own type without spaces, and from page 1 on. |
| SpeciesFetch.FlightCallOverview | FileExtraction/getFilesFlightCall.js:159-160 | With the quotas `main` passes and start page 1, the keys are exactly song, call, alarm call and flight call. Song, call and alarm call hold at most 40 entries each; flight call holds at most 80. Every entry is of the wanted species, shorter than five minutes, stored under its own type without spaces, and from page 1 on. |
| SpeciesDownload.PrepareDownloadDir | FileExtraction/getFiles3classes.js:15-20 | An existing download directory is removed with everything under it and created anew. A missing one is created. No other path changes. |
| SpeciesDownload.WriteJsonAndDownloadFiles | FileExtraction/getFiles3classes.js:182-207 | The per-type loop, proved against `WriteAll`. |
| SpeciesDownload.DownloadTypeItems | FileExtraction/getFiles3classes.js:197-205 | The item loop of one type, proved against `DownloadItems`. Each `downloadWithRetry` outcome is applied in item order, and an error does not stop the loop. |
| SpeciesDownload.DownloadItemsOutcome | FileExtraction/getFiles3classes.js:197-205 | For the last item with a given title, the mp3 file exists afterwards exactly when its download succeeded. Failures are caught per item, so later items are still downloaded. |
| SpeciesDownload.DownloadItemsElsewhere | FileExtraction/getFiles3classes.js:197-205 | Downloads touch no path other than the items' own mp3 files. |
| SpeciesDownload.WriteTypeResult | FileExtraction/getFiles3classes.js:184-205 | The type's folder and JSON file exist afterwards. The JSON file holds the type's list. Each mp3 file exists exactly when its download succeeded. |
| SpeciesDownload.WriteTypeElsewhere | FileExtraction/getFiles3classes.js:184-205 | Writing a type changes nothing outside that type's folder. |
| SpeciesDownload.WriteAllResult | FileExtraction/getFilesFlightCall.js:135-156 | After all types are written, each type's folder is named after the type with every space removed. It holds the JSON of exactly that type's list, and an mp3 for each successful download. This holds when the type names differ once spaces are removed. |
| SpeciesDownload.SameFolder | FileExtraction/getFiles3classes.js:185-186 | Two folder names without slashes that hold the same path are equal. |
| PlainFetch.GetDataFile | getFiles.js:19-96 | The page loop, proved against `Run`. On success the keys are the four types, and every list holds at most `maxAmount` entries. |
| PlainFetch.RunStep | getFiles.js:28-93 | While some counter is below `maxAmount`, the outcome depends on the page. A delivered page with `tr` rows adds its rows and moves on. A page without rows stops. A failed request propagates its error, because there is no retry. |
| PlainFetch.HeaderOnlyPageContinues | getFiles.js:41-47 | A page whose table holds only header rows does not stop the loop: the next page is read. |
| PlainFetch.HeaderRowsAddNothing | getFiles.js:50-52 | Rows without `td` cells add nothing. |
| PlainFetch.RunEnds | getFiles.js:28-47 | A failed run fails with the answer of the undelivered page where it stopped. |
| PlainFetch.RunFails | getFiles.js:28-47 | The run fails exactly when two things hold. The first page from the start without table rows was not delivered. After the rows of every earlier page, some counter is still below `maxAmount`. |
| PlainFetch.FullAddRow | getFiles.js:76 | Once no counter is below `maxAmount`, a row adds nothing. |
| PlainFetch.FullAddsNothing | getFiles.js:50-88 | Once no counter is below `maxAmount`, a whole page adds nothing. |
| PlainFetch.ReachedWhenFull | getFiles.js:28-93 | Once no counter is below `maxAmount`, going past further pages changes nothing. |
| PlainFetch.RunKeepsKeys | getFiles.js:28-93 | The loop never adds or removes a key of the overview. |
| PlainFetch.PlainOverview | getFiles.js:141 | With the quota `main` passes, the keys are exactly song, call, alarm call and begging call. Each list holds at most 40 entries. Every entry is at most 1:30 long, stored under its own type, and from page 1 on. |
| PlainFetch.RunCollects | getFiles.js:28-93 | A successful run gives each type the first qualifying entries of the pages read, cut to `maxAmount`. |
| PlainFetch.CollectsStep | getFiles.js:50-93 | Reading one page with rows extends the collected entries by its qualifying rows. |
| PlainFetch.CollectsAtEnd | getFiles.js:28-47 | A page without rows, or a met quota for every type, ends the run with the overview as it is. |
| PlainFetch.SelectionIsFirstQualifying | getFiles.js:19-96 | On success, each type's list is the qualifying rows of that type, of any species, in page order and then row order, cut to `maxAmount`. |
| PlainFetch.SelectedEntriesQualify | getFiles.js:54-88 | Every listed entry is at most 1:30 long, stores its type as it appears (spaces kept), and records a page that was read. No species test is applied. |
| PlainFetch.CollectedQualifies | getFiles.js:59-88 | Every collected entry is at most 1:30 long and stores the raw type. |
| PlainFetch.ListQualifies | getFiles.js:76-88 | Cutting the collected entries to `maxAmount` keeps only qualifying entries. |
| PlainFetch.WriteJsonAndDownloadFiles | getFiles.js:99-137 | The per-type loop, proved against `WriteAll`. A failed download leaves its created file behind. |
| PlainFetch.DownloadItems | getFiles.js:113-135 | After the item loop, every item's mp3 file exists. It holds a finished download exactly when the last request written to it was delivered. |
| PlainFetch.AllFilesExist | getFiles.js:113-115 | Every type's folder, its JSON file, and an mp3 file for every entry exist afterwards. `createWriteStream` creates the file whether the download succeeds or not. |
| PlainFetch.FinishedOutcome | getFiles.js:117-134 | For the last item with a given title, its mp3 is completely written exactly when its request succeeded. |
| PlainFetch.FinishedElsewhere | getFiles.js:113-134 | Downloads complete no file other than the items' own mp3 files. |
| PlainFetch.WriteTypeElsewhere | getFiles.js:101-135 | Writing a type changes no JSON file and no completed download outside its folder. |
| PlainFetch.WriteAllResult | getFiles.js:101-111 | Each type's folder and JSON file are named after the raw type, spaces included. The JSON file holds exactly that type's list. |
| Segments.ParseRender | shortenFilesIntoSegments.py:16-21 | Every name built as `base_(m_s)_Country_rest` matches the pattern. The matched base is never longer than the one used to build it (the lazy `.+?`). When the base holds no `_(`, the match returns exactly that base, country and rest. |
| Segments.ParseSound | shortenFilesIntoSegments.py:16-21 | Whenever the pattern matches, the name is `base_(digits_digits)_Letters_rest` with the returned groups. A digit is any Unicode decimal digit, as `\d` matches it; a letter is ASCII only. The base is the shortest one that works. |
| Segments.ParseFrom | shortenFilesIntoSegments.py:17 | The search tries base lengths in increasing order and returns the first that matches. No shorter base matches. |
| Segments.MatchAtRender | shortenFilesIntoSegments.py:17 | At the base length used to build a name, the match succeeds with that name's groups. |
| Segments.NumPartsFacts | shortenFilesIntoSegments.py:24-35 | There are between 1 and 4 parts. A recording is split exactly when it is longer than 50 s. Longer recordings never get fewer parts. Every part of a split recording is at least 25 s long, and at most 40 s when there are 2 or 3 parts. |
| Segments.Slice | shortenFilesIntoSegments.py:39-41 | Each segment holds `len(audio) // num_parts` milliseconds. |
| Segments.SlicesTile | shortenFilesIntoSegments.py:37-41 | The first `k` segments, concatenated, are exactly the first `k * L` milliseconds. So the segments are consecutive and disjoint, and all of them together drop fewer than `num_parts` milliseconds at the end. |
| Segments.SplitNameMatches | shortenFilesIntoSegments.py:43-63 | Round trip: every split name built from an original's groups matches the deletion pattern built from the same groups. The matched fields are the minutes, the seconds and the 1-based part number. |
| Segments.PatternFieldsOf | shortenFilesIntoSegments.py:63 | The deletion pattern accepts exactly the names with digit runs in its three numeric places, and returns those runs. |
| Segments.SplitNamesDiffer | shortenFilesIntoSegments.py:45 | Split names with different part numbers differ. |
| Segments.SplitNameIsNotOriginal | shortenFilesIntoSegments.py:45-50 | A split name never equals the name of the original it came from. |
| Segments.SplitPathsDiffer | shortenFilesIntoSegments.py:45-46 | The exported parts of one original go to distinct paths. |
| Segments.ProcessAudioFiles | shortenFilesIntoSegments.py:6-50 | The walk over all directories, proved against `ProcessWalk`. |
| Segments.ProcessDirectory | shortenFilesIntoSegments.py:9-50 | The loop over one directory's files, proved against `ProcessFiles`. |
| Segments.ProcessOne | shortenFilesIntoSegments.py:10-50 | One file, with its export loop and `splits_created` flag, proved against `ProcessFile`. |
| Segments.ExportsFacts | shortenFilesIntoSegments.py:40-47 | The export loop writes segment `i` to part path `i` and leaves every other path as it was. |
| Segments.ExportParts | shortenFilesIntoSegments.py:39-47 | The export loop, proved against `Exports`: each part is written in turn, and `splits_created` ends up set. |
| Segments.PartsAwayFromOriginal | shortenFilesIntoSegments.py:45-50 | No part path is the original's path, so removing the original keeps every part. |
| Segments.ProcessFileResult | shortenFilesIntoSegments.py:10-50 | For a matching mp3 of at most 50 s, nothing changes. For a longer one, the original is removed, each part path holds its segment, and every other path is unchanged. |
| Segments.IsDoomed | shortenFilesIntoSegments.py:56-64 | A listed file is doomed exactly when it is among the listing's doomed names (`DoomedNames`): an mp3 whose name parses, with some file in the same listing matching its deletion pattern. |
| Segments.FindSibling | shortenFilesIntoSegments.py:64 | The `any` scan answers true exactly when some listed name fully matches the pattern built from the groups. |
| Segments.DeleteInDirectory | shortenFilesIntoSegments.py:55-65 | The loop over one listing, proved against `DeleteFiles`. |
| Segments.DeleteAllParts | shortenFilesIntoSegments.py:52-65 | The walk, proved against `DeleteWalk`. |
| Segments.DeleteFilesResult | shortenFilesIntoSegments.py:53-65 | In a listing of distinct names, the directory ends up without exactly its doomed files. |
| Segments.DoomedPathsMembers | shortenFilesIntoSegments.py:55-65 | The removed paths are exactly the doomed files of the listing. |
| Segments.SplitSiblingDooms | shortenFilesIntoSegments.py:43-65 | An original whose split part lies beside it is removed by `deleteallparts`. |
| WavSplit.WavPathOfJoin | FileEditing/shortenFilesIntoSegments.py:19-22 | The wav path of `root/file` is `root/` followed by the file's name without its extension and then `.wav`. |
| WavSplit.WavIsNotMp3 | FileEditing/shortenFilesIntoSegments.py:22 | A wav path is never an mp3 path, so the removal at line 27 never deletes the new file. |
| WavSplit.Mp3ToWav | FileEditing/shortenFilesIntoSegments.py:14-28 | The walk, proved against `ConvertWalk`. |
| WavSplit.ConvertDirectory | FileEditing/shortenFilesIntoSegments.py:17-28 | The loop over one directory, proved against `ConvertFiles`. |
| WavSplit.ConvertFilesResult | FileEditing/shortenFilesIntoSegments.py:16-28 | In a listing of distinct names, every mp3 is replaced by its wav, and all other files are left alone. |
| WavSplit.RemoveUnused | FileEditing/shortenFilesIntoSegments.py:34-41 | Afterwards a path is present exactly when it was present before and is not a `.wav` in a direct subfolder whose basename is missing from the allowed set. |
| WavSplit.InputSurvivesFilter | FileEditing/shortenFilesIntoSegments.py:34-48 | A CSV row's own input file survives the filter, because its name plus `.wav` is in the allowed set. |
| WavSplit.OutputIsNotInput | FileEditing/shortenFilesIntoSegments.py:48-50 | A split's output path never equals its group's input path. |
| WavSplit.SplitGroup | FileEditing/shortenFilesIntoSegments.py:45-61 | One group's rows, proved against `ProcessGroup`. |
| WavSplit.SplitRowsMembers | FileEditing/shortenFilesIntoSegments.py:49-58 | After the rows of a group, a path is present exactly when either it was present before, or the input existed and some row that decodes writes that output. A row that fails is skipped and the next row is still handled. |
| WavSplit.ProcessGroupResult | FileEditing/shortenFilesIntoSegments.py:45-61 | After a group, the input file is gone. Every other path is present exactly as after its rows. The input is removed once, after all rows, and only if it exists. |
| WavSplit.GroupKeys | FileEditing/shortenFilesIntoSegments.py:44 | The `groupby` keys are the distinct `(SoundType, FileName)` pairs, in ascending order. |
| WavSplit.GroupRows | FileEditing/shortenFilesIntoSegments.py:44-45 | A group holds exactly the rows with its key. |
| WavSplit.EachRowInOneGroup | FileEditing/shortenFilesIntoSegments.py:44-45 | Every row belongs to exactly one group. |
| WavSplit.GenerateSplitFiles | FileEditing/shortenFilesIntoSegments.py:31-61 | The filter pass followed by the group loop, proved against `SplitFiles`. |
| BirdNet.ReadSpeciesList | birdNETAnalyzer.py:12-18 | The reading loop, proved against `SpeciesList`. |
| BirdNet.SpeciesList | birdNETAnalyzer.py:12-18 | The list holds exactly the non-empty stripped lines, as whole lines. It is no longer than the file. The unused split is not applied. |
| Text.StripIdeographicSpace | birdNETAnalyzer.py:15 | `strip` removes Unicode white space beyond Latin-1. The ideographic space U+3000 around `Parus` is one example. |
| BirdNet.CsvFileNameKeepsSuffix | birdNETAnalyzer.py:36-50 | The CSV `FileName` of a result file is the recording's name followed by `_result`. |
| BirdNet.MostCommonIsFirstMaximal | birdNETAnalyzer.py:57 | The chosen name occurs in the list. No name occurs more often. Every name first seen before it occurs strictly less often. |
| BirdNet.MostCommonFromLeads | birdNETAnalyzer.py:57 | The counting scan keeps the leading name from any prefix to the end. |
| BirdNet.CreateCsvFile | birdNETAnalyzer.py:42-61 | The CSV is the header `FileName, Common Name` followed by the rows of the walk. |
| BirdNet.WriteDirectory | birdNETAnalyzer.py:47-61 | The loop over one directory, proved against `DirRows`. |
| BirdNet.DirRowsMembers | birdNETAnalyzer.py:47-61 | A row is written exactly for a `.json` file that has detections and whose most common name is the species. The row is the file's name without extension, followed by that name. |
| BirdNet.NoDetectionsNoRow | birdNETAnalyzer.py:56 | A file with no detections produces no row. |
| BirdNet.DeleteAllJsonFiles | birdNETAnalyzer.py:66-71 | The walk, proved against `DeleteJsonWalk`. |
| BirdNet.DeleteJsonFilesResult | birdNETAnalyzer.py:68-71 | In a listing of distinct names, exactly the `.json` files are removed. |
| BirdNet.JsonPathsMembers | birdNETAnalyzer.py:70-71 | The removed paths are exactly the `.json` files of the listing. |
| Text.NormPathTail | finetune.py:29 | `os.path.normpath` keeps two plain final parts of a path, neither empty nor `.` or `..`, as they are. They follow the normalised parts of the directory before them and the leading slashes `normpath` keeps. |
| Text.NormPathParent | finetune.py:29 | After `normpath`, the directory that holds the last of two plain final parts is named by the first. |
| Finetune.Normalise | finetune.py:25-26 | The name always ends in `.mp3`. `.mp3` is appended exactly when the name did not already end with it. |
| Finetune.NormaliseIdempotent | finetune.py:25-26 | Completing a name twice is the same as completing it once. |
| Finetune.RouteFirstMatch | finetune.py:28-49 | A folder is chosen exactly when the name contains one of the markers. The folder chosen is the first in the order `_alarmcall_`, `_call_`, `_beggingcall_`, `_song_`. Otherwise the result is `ValueError` naming the file. |
| Finetune.AudioPathFolder | finetune.py:29-44 | After `normpath`, the loaded path is the normalised audio directory, then the chosen folder, then the completed name. Its parent directory is therefore the chosen folder. |
| Finetune.Classes | finetune.py:16 | The encoder's classes are the distinct names, in ascending order. |
| Finetune.EncodeLabelsRanks | finetune.py:15-16 | Each code is in range and is the position of the name among the classes. Equal names get equal codes, and the codes keep the order of the names. |
| Finetune.BirdSegmentDataset.constructor | finetune.py:11-16 | The dataset keeps its rows, directory and transform. The label column is the encoding of the common names. |
| Finetune.BirdSegmentDataset.Len | finetune.py:18-19 | `__len__` is the number of annotation rows. |
| Finetune.BirdSegmentDataset.GetItemResult | finetune.py:22-54 | The outcome depends on the row: <ul><li>An index past the end gives `IndexError`.</li><li>A name without a marker gives `ValueError` for the completed name.</li><li>Otherwise the result is the audio loaded from the normalised path in the routed folder, transformed only when a transform was given, and the raw second column as label, not the encoded one.</li></ul> |
| Training.ClassIndices | Training/train3classes.py:38-40 | `label_to_idx` maps the `i`-th class name to `i`, for both class lists. |
| Training.LabelIndexOfDistinct | Training/train.py:40-41 | In a list of distinct names, the index of the `i`-th name is `i`. |
| Training.ListClass | Training/train3classes.py:46-51 | The listing loop, proved against `WavPaths`. |
| Training.WavPathsMembers | Training/train3classes.py:46-51 | Only files ending in `.wav` are collected, each joined to its class directory. |
| Training.CollectSucceeds | Training/train3classes.py:43-51 | Collecting succeeds exactly when every class directory can be listed. |
| Training.PrepareDataLoop | Training/train3classes.py:36-77 | The whole of `prepare_data`, loops included, proved against `PrepareData`. It covers the plain dictionary and the `defaultdict` variant (Training/train.py:38-67). |
| Training.PrepareDataAligned | Training/train3classes.py:65-73 | The path and label lists are aligned. Labels are in range and in ascending class order. Each path is a `.wav` in the directory of its label's class. |
| Training.KeptWithin | Training/train3classes.py:53-62 | Every kept path is one of its class's `.wav` files. |
| Training.BalancedSizes | Training/train.py:49-56 | With balancing, every non-empty class keeps exactly the smallest non-empty size, and empty classes stay empty. With the plain dictionary, every class keeps exactly that size. |
| Training.BalanceFacts | Training/train3classes.py:58-62 | Each class is cut to `min_count` after a shuffle. The kept files are drawn from the class's own files. |
| Training.BalanceFailure | Training/train3classes.py:58-62 | With the plain dictionary, balancing fails exactly when some class is empty, with `KeyError` naming an empty class. With `defaultdict` it never fails. |
| Training.PlainDictRaises | Training/train3classes.py:49-69 | With the plain dictionary, every class directory listed, and some class without `.wav` files, preparation raises `KeyError` for the first such class. This holds without balancing, and with balancing when some class has files. When balancing finds every class empty, `min` raises `ValueError` first (`Training.NoFilesRaises`). |
| Training.DefaultDictSucceeds | Training/train.py:39-64 | With `defaultdict` and every class directory listed (otherwise `os.listdir` raises, `Training.CollectSucceeds`), preparation succeeds. The one exception is balancing when every class is empty. |
| Training.NoFilesRaises | Training/train.py:51 | With balancing and no `.wav` file in any class, `min` raises `ValueError`. |
| Training.MinCount | Training/train.py:51 | `min_count` is the smallest size among the non-empty classes. There is none when all classes are empty. |
| Training.LoadAudio | Training/train3classes.py:80-90 | The result has exactly `target_len` samples: the first `min(len, target_len)` input samples, then zeros. |
| Training.LoadAudioIdempotent | Training/train.py:70-76 | Loading an already loaded recording changes nothing. |
| Training.SamplesValue | Training/train3classes.py:27-31 | `SAMPLES` is 144000. |
| Training.Generator | Training/train.py:80-84 | The pairs are `(load_audio(path), label)` in list order. Their number is that of the shorter list, as with `zip`. |
| Training.Steps | Training/train3classes.py:194-195 | The step count is the number of whole batches of 16. |
| Training.SelectSubset | Training/train3classes.py:165-177 | The subset selection, proved against `Selection`. Each class keeps exactly `int(0.75 * n)` of its `n` members. |
| Training.ExtendPicks | Training/train3classes.py:167-173 | After the class loop, `selected_indices` holds exactly each index that is among the first `int(0.75 * n)` indices of its class. |
| Training.SortIndices | Training/train3classes.py:175 | The sorted list is strictly ascending and has the same members. |
| Training.SubsetPerClass | Training/train3classes.py:165-177 | In the selected labels, each class keeps `int(0.75 * n)` of its `n` members. |
| Training.SelectionIsClassPicks | Training/train3classes.py:167-173 | An index is selected exactly when it is among its own class's first `int(0.75 * n)` indices. |
| Training.AscendingUnique | Training/train3classes.py:175 | Two ascending index lists with the same members are equal. So sorting the class-by-class picks gives `Selection`. |
| Training.SelectUpTo | Training/train3classes.py:165-175 | The selection is ascending, and holds exactly the picked indices. |
| ConfigPatch.PatchFile | train.py:7-17 | A missing attribute fails. Otherwise only `model_config` is rewritten, and every other attribute is unchanged. |
| ConfigPatch.PatchFileWrites | train.py:10-17 | The written configuration is the text with every non-overlapping occurrence of the pattern removed. Without the pattern it is written back unchanged. The assertion holds exactly when the result contains no pattern. |
| ConfigPatch.PatchRemoves | train.py:10-11 | The patch never lengthens the text, and shortens it exactly when the pattern occurs. |
| ConfigPatch.RemovalLength | train.py:11 | The removed length is the pattern's length times the number of occurrences removed. |
| ConfigPatch.AssertionHolds | Training/train.py:100-110 | The assertion holds when no occurrence's tail can be spliced onto text left in front of it. This is the precondition under which one pass removes every occurrence. |
| ConfigPatch.RemovalLeavesNone | train.py:11-17 | Under that precondition, one `replace` pass leaves no occurrence. |
| ConfigPatch.SpliceFormsPattern | train.py:11-17 | One pass is not always enough. On `""groups": 1,groups": 1,` the pass removes one occurrence and splices a new one together, so the assertion fails. |
| Evaluation.IndexOf | Testing/prediction3classes.py:107 | `CLASS_NAMES.index(x)` is defined exactly when `x` is a class, and then gives its first position. |
| Evaluation.TrueLabels | Testing/prediction3classes.py:107 | The labels are defined exactly when every file's directory name is a class. Each label is the position of that name. Otherwise the result is `ValueError` for the first file whose directory is not a class. |
| Evaluation.TrainingPathsKeepTheirLabels | Testing/prediction3classes.py:18-107 | A file listed by `prepare_data` gets back, from its directory name, the label it was trained under. This holds because the class lists of training and evaluation agree. |
| Evaluation.ArgMax | Testing/prediction3classes.py:119 | The result is the index of a highest score. Every earlier score is strictly lower, so it is the first highest. |
| Evaluation.ArgMaxUnique | Testing/prediction3classes.py:119 | The first highest index is the only index with that property. |
| Evaluation.Predictions | Testing/prediction.py:114 | Each prediction is the argmax of its row of scores. |
| Evaluation.Evaluate | Testing/prediction3classes.py:104-127 | The network's output width is a parameter and need not equal the number of class names. On success, all lists are as long as the file list, every label and prediction is a class index, and the labels seen are as many as the class names. An `IndexError` names a network output that has no class name. |
| Evaluation.EvaluateFailures | predictionFlightCall.py:36-55 | A run fails with `ValueError` exactly when some file's directory is not a class. If every directory is a class, a failed load ends the run: with `NameError` in the script that catches the load failure and uses the unbound `model`, and with the load error in the others. A loaded network leads to success, a report failure or an `IndexError`. |
| Evaluation.Finish | Testing/prediction3classes.py:119-127 | A success keeps the labels and predictions, has every prediction a class index, and has as many labels seen as class names. Every failure is a report failure or an `IndexError` at a prediction that is not a class index. |
| Evaluation.FinishEnds | Testing/prediction3classes.py:119-127 | `classification_report` raises exactly when the distinct true and predicted labels are not as many as the class names. Otherwise the listing raises `IndexError` exactly when some prediction is not a class index. It raises at the first such file, after printing the lines of every earlier file. The run succeeds exactly when neither happens. |
| Evaluation.EvaluateAfterLoad | Testing/prediction3classes.py:112-127 | With every directory a class and the network loaded, the run is `Finish` of the true labels and the argmax predictions. A network with no more outputs than class names never causes an `IndexError`. |
| Evaluation.EvaluateOutcome | Testing/predictionFlightCall.py:20-43 | Each file is stripped and loaded to exactly `SAMPLES` samples. It is labelled with the position of its directory's name, and predicted by the first highest score. |
| Evaluation.EvaluateListing | Testing/prediction.py:121-124 | A mistake line is printed exactly for each misclassified file. Scripts that list every file also print one prediction line per file; Testing/prediction3classes.py prints only mistakes. The number of lines is given. |
| Evaluation.ListingLength | Testing/predictionFlightCall.py:48-51 | The listing has one line per file when every prediction is printed, plus one line per mistake. |
| Evaluation.MistakesListed | Testing/prediction3classes.py:124-127 | Every misclassified file has its error line, naming the predicted and the true class. |
| Evaluation.OnlyMistakesListed | Testing/prediction3classes.py:124-127 | Every error line belongs to a misclassified file. |
| Evaluation.PredictionsListed | predictionFlightCall.py:56-59 | When every prediction is printed, each file has its prediction line. Otherwise only error lines appear. |
| Evaluation.ConfusionSums | Testing/prediction.py:61-64 | The confusion matrix counts every sample once: <ul><li>its total is the number of samples;</li><li>its trace is the number of agreements;</li><li>row `a` sums to the samples of true class `a`;</li><li>column `b` sums to the predictions of class `b`.</li></ul> |
| Evaluation.KappaOfLabels | Testing/prediction.py:61-67 | On the confusion matrix of two label lists, kappa is `(p0 - pe) / (1 - pe)`, with `p0` the agreement share and `pe` the chance agreement. Both lie in [0, 1]. There is no value for an empty matrix or when `pe` is 1. |
| Evaluation.KappaOne | Testing/prediction.py:63-66 | Where defined, kappa is at most 1, and equals 1 exactly when every prediction is right. |
| Evaluation.KappaUndefinedForOneClass | Testing/prediction.py:65-66 | When every true and every predicted label is the same class, `pe` is 1 and kappa has no value. |
| Evaluation.AgreementsAll | Testing/prediction.py:64 | All predictions agree exactly when the two label lists are equal. |

## Left out

- HTTP requests, HTML parsing, delays and stream piping are replaced:
  - a page is its already-extracted table rows;
  - a server is a count of 503 answers followed by a final answer;
  - a download is delivered or not.

  A server that alternates between 503 and other answers is covered only up
  to the answer that ends the retry loop.
- Xeno.ToNumber: values are exact rationals, so IEEE double rounding is not
  modelled. A literal with more significant digits than a double holds, such
  as `1.0000000000000001`, can round onto 1 or 5 in JavaScript and then
  compare differently. Literals outside the double range stay large or small
  finite values instead of becoming `Infinity` or 0; against 1, 5 and 30
  they compare the same.
- The JavaScript page loop can run for ever when the site keeps serving full
  pages. The model reads only the given sequence of pages, and what lies
  past it differs by fetcher. In `SpeciesFetch` (the three-type and
  flight-call fetchers) such a page is a results table without data rows.
  In `PlainFetch` it has no results table: a table with only a header row
  would not stop that loop (`PlainFetch.HeaderOnlyPageContinues`). Either
  way the run ends there.
- The `Accept-Language` header, console output and dotenv configuration
  carry no behaviour. They are not modelled.
- Node's `path.join` is modelled as joining with one `/`. The names it joins
  hold no `.` or `..` segments. Python's `files_dir` with its trailing slash
  gives `//` in `FileEditing/shortenFilesIntoSegments.py`; the model uses
  the directory without the slash.
- Segments: `\d` is matched against the decimal digits of Unicode 15.0,
  the table of Python 3.12. Other Python versions add or lack a few scripts.
- Audio decoding, resampling and export are not modelled. This covers
  pydub, librosa, soundfile and torchaudio. The results of `set_channels` and
  `set_frame_rate` are discarded by the source, so nothing is claimed about
  channels or sample rate.
- Segment durations are whole milliseconds. `duration_seconds // 60` and
  `% 60` are computed on those milliseconds, so float rounding is not
  modelled.
- The BirdNET `Analyzer` detection in `createJSONFiles` is not modelled. It
  is an external network; the detections of a result file are a parameter.
- TensorFlow and Keras are not modelled: model loading, layer setup,
  `compile`, `fit` and `predict`, and the `tf.data` shuffle, batch and
  prefetch. The scores of a recording are a parameter.
- scikit-learn is not modelled: `train_test_split`, the ROC and
  precision-recall curves, `random_baseline` and all plotting. Their results
  are not used by the modelled rules. Of `classification_report`, only the
  check that raises `ValueError` is modelled. It raises when the number of
  distinct labels among the true and predicted classes differs from the
  number of `target_names`. The report's numbers are not modelled.
- `confusion_matrix` is modelled over the full class range. scikit-learn's
  matrix covers only the labels that occur. Rows and columns of absent
  labels are zero and do not change kappa's value.
- Scores and kappa use exact reals. numpy's float rounding is not modelled.
  A division by zero in numpy gives a non-finite value; the model gives no
  value there.
- `random.shuffle` is an arbitrary permutation of each class's list.
- Training.SelectSubset: the sort of `selected_indices` is modelled as a
  scan of the index range. The scan gives the sorted list because the picks
  are distinct indices below the list's length. No in-place sort is modelled.
- pandas `read_csv` and `groupby` are replaced by rows with string fields,
  grouped by their `(SoundType, FileName)` key in ascending order. Rows whose
  key is NaN, which pandas drops, are not modelled. Whether a row's cut
  succeeds is a parameter.
- `iloc` with a negative index is not modelled: indices are natural numbers.
- The files' own `createJSONFiles`, `random_baseline` and plotting helpers
  hold no rule beyond the calls above.
