# Export-control dataset pipeline: a verified model of its bookkeeping

The pipeline builds a dataset of export-control cases keyed by SAF number.
Step 2 runs OCR over each case's technical specifications. Step 3 extracts
the text of each case's permit and licence PDFs. A classifier later decides
from those texts whether a licence is needed. Both steps can be resumed and
can run incrementally. Progress lives in a JSON checkpoint that holds:

- the processed ids and the failed ids;
- a per-id snapshot of the files seen;
- counters and a batch number.

This project models that bookkeeping in Dafny and proves what it promises:

- `common.dfy` (`Common`): the Python built-ins the code relies on.
  - `Option`/`Result`, `str.strip()` blankness, `path.split("/")[-1]`,
    `sep.join`, `xs[:limit]`, list comprehensions and `sorted(set)`.
  - An insertion-ordered dict is a sequence of pairs with unique keys.
- `progress.dfy` (`Progress`): the checkpoint record, with its pure update
  functions and the resolver of ids that have new files.
  - The class `StateManager` holds the in-memory state and the file on disk.
- `patterns.dfy` (`Patterns`): `_check_patterns` and `determine_license_need`.
  - The regular-expression search and the lower-casing are parameters.
- `retry.dfy` (`Retry`): the `retry` wrapper loop and the `RetryContext`
  iterator, with the sleeps recorded as a trace of delays.
- `assembly.dfy` (`Assembly`): what both extractors build from their
  per-file results.
  - The texts joined with a separator, the processed file names, and the
    error list, which is `None` when empty.
- `ocr_extractor.dfy` (`OcrExtractor`): `process_file` and the assembly loop
  of `process_saf_files`.
  - Per-file OCR outcomes are a function of the object path.
- `pdf_extractor.dfy` (`PdfExtractor`): the page joining of both libraries,
  `extract` with its `auto` fallback, and `extract_multiple`.
  - A PDF is what each library reads from it: its page texts, or a failure.
- `runs.dfy` (`Runs`): what the step loops do to the checkpoint.
  - `Visit`: skip, mark processed or failed, and checkpoint every
    `batch_size` positions.
  - The incremental skip set, as written and corrected.
- `merge.dfy` (`Merge`): the final incremental merge, which supersedes
  records by SAF number. Modelled as written and corrected.
- `step2.dfy` (`Step2`): the class `Step2TechSpecs`, with its run loop,
  numbered chunk files, chunk loading and cleanup.
- `step3.dfy` (`Step3`): the class `Step3PermitLicense`, with its run loop,
  `_extract_from_directory`, and the partial file it overwrites.

Collaborators are parameters of the operations:

- **Storage.** A download is a function from object path to its data, or
  `None` when it raised. A listing is a function from SAF number to its
  object paths, or a listing failure.
- **OCR.** A function from object path to its outcome.
- **Clock.** The value `now`.
- **Files.** The checkpoint file is a field `disk` of the state manager. The
  parquet files of a step are fields of its class.

Files hold records, not bytes: serialisation is not modelled.

## Model

| member | source | states |
|---|---|---|
| Progress.InitialWellFormed | utils/progress.py:44-57 | The fresh state (empty list and maps, zero counters and batch) is well formed: no id listed twice, and each counter equals the size of what it counts. |
| Progress.WithProcessed | utils/progress.py:67-71 | Adding an id already present changes nothing; otherwise the id is appended. Nothing is ever removed, and `processed_items` stays equal to the list's length. |
| Progress.WithFailed | utils/progress.py:73-76 | `failed[id]` becomes the error and every other entry is unchanged. `failed_items` is the number of keys. Processed list and snapshots are untouched. |
| Progress.WithFiles | utils/progress.py:78-82 | The snapshot of `id` becomes exactly the given list (not a union). Every other id's snapshot is unchanged. |
| Progress.Resolve | utils/progress.py:92-117 | The ids returned are a subsequence of the mapping's keys, so they come in the mapping's iteration order. |
| Progress.ResolveSelects | utils/progress.py:102-117 | An id is returned iff it is a key of the mapping and it either has no snapshot or its current files add something to the snapshot. |
| Progress.RemovalNeverReselects | utils/progress.py:109-115 | An id whose current files are all in its snapshot is never returned, so removing files never reselects. |
| Progress.MarkAllFilesRecords | utils/progress.py:78-82 | After marking every entry of a mapping, each key's snapshot is its current file list. |
| Progress.ResolveCovered | utils/progress.py:102-117 | When every id's files are covered by its snapshot, the resolver returns nothing. |
| Progress.ResolveIdempotent | utils/progress.py:78-82 | After `mark_files_processed(id, mapping[id])` for every id of the mapping, the resolver returns an empty list. |
| Progress.StateManager.constructor | utils/progress.py:15-19 | A new manager holds the step name and the file on disk. Nothing is loaded yet. |
| Progress.StateManager.Load | utils/progress.py:28-35 | The in-memory state becomes the file's contents, or a fresh state when there is no file. |
| Progress.StateManager.Save | utils/progress.py:37-42 | `updated_at` is stamped and the file on disk becomes the in-memory state. |
| Progress.StateManager.Reset | utils/progress.py:127-130 | The state becomes the fresh state and is saved. |
| Progress.StateManager.Exists | utils/progress.py:132-134 | True iff the checkpoint file exists. |
| Progress.StateManager.Delete | utils/progress.py:136-139 | The file is gone and the in-memory state is untouched. |
| Progress.StateManager.GetProcessed | utils/progress.py:59-61 | The set of processed ids; its size is `processed_items` in a well-formed state. |
| Progress.StateManager.GetFailed | utils/progress.py:63-65 | The failed map; its size is `failed_items` in a well-formed state. |
| Progress.StateManager.GetProcessedFiles | utils/progress.py:84-86 | The snapshot of the id, or the empty list when it has none. |
| Progress.StateManager.GetAllProcessedFiles | utils/progress.py:88-90 | The whole snapshot map: it has exactly the ids of the state's snapshot, and agrees with the per-id getter on every id. |
| Progress.StateManager.MarkProcessed | utils/progress.py:67-71 | The new state is the old state with the id added (as `Progress.WithProcessed`). The file on disk is untouched. |
| Progress.StateManager.MarkFailed | utils/progress.py:73-76 | The new state is the old state with the upsert (as `Progress.WithFailed`). |
| Progress.StateManager.MarkFilesProcessed | utils/progress.py:78-82 | The new state is the old state with the snapshot replaced (as `Progress.WithFiles`). |
| Progress.StateManager.SetTotal | utils/progress.py:119-121 | Only `total_items` changes. |
| Progress.StateManager.UpdateBatch | utils/progress.py:123-125 | Only `current_batch` changes. |
| Progress.StateManager.GetSafNumbersWithNewFiles | utils/progress.py:92-117 | The loop returns the resolver's result over the current snapshot. For a dict it returns an id iff the id is new or has new files. |
| Patterns.AnyMatch | config/patterns.py:49-52 | The early-return loop is true iff some pattern matches. |
| Patterns.CheckPatterns | config/patterns.py:44-52 | False for a missing or empty text; otherwise true iff some pattern matches the lower-cased text. |
| Patterns.PatternOrderIrrelevant | config/patterns.py:49-52 | Reordering a pattern list does not change the result. |
| Patterns.DecideFirst | config/patterns.py:71-87 | The loop over the sources returns the decision of the first source that decides, and None iff no source decides. |
| Patterns.LicenseThenPermit | config/patterns.py:38-41 | The classification is the licence text's decision when it has one, otherwise the permit text's. |
| Patterns.NoTextUndetermined | config/patterns.py:72-76 | Both texts missing or empty gives None. |
| Patterns.LicenseRequiredWins | config/patterns.py:72-80 | A licence text matching a "required" pattern gives True, whatever the permit text. |
| Patterns.RequiredBeforeNotRequired | config/patterns.py:78-84 | A text matching both lists is classified True, whichever source holds it. |
| Patterns.UnmatchedFallsThrough | config/patterns.py:72-84 | A licence text matching neither list falls through to the permit text. |
| Retry.Schedule | utils/retry.py:30 | The first n sleeps: the k-th (from 0) is delay·backoff^k. |
| Retry.Retry | utils/retry.py:29-45 | See the list after this table. |
| Retry.RetryContext.constructor | utils/retry.py:90-102 | Starts at attempt 0 with the initial delay and no sleep. |
| Retry.RetryContext.Next | utils/retry.py:107-116 | Hands out 1, 2, …, max_attempts, then stops without change. The first attempt has no sleep; every later one sleeps the current delay, which is then multiplied by backoff. The sleep trace always equals the schedule. |
| Retry.RetryContext.Reset | utils/retry.py:118-121 | Back to attempt 0 and the initial delay. |
| Assembly.EntryCounts | extractors/ocr_extractor.py:82-90 | Each file contributes exactly one text and name, or one error. There are no errors iff every file was accepted. |
| Assembly.EntriesAppend | extractors/pdf_extractor.py:115-124 | Texts, names and errors keep the input order. |
| Assembly.TextsOfAccepted | extractors/ocr_extractor.py:86-88 | Only texts of accepted files are kept. |
| Assembly.Assemble | extractors/ocr_extractor.py:92-93 | The error list is None iff every file was accepted, and is never an empty list. \|processed\| + \|errors\| = \|files\|. No files gives `("", [], None)`. |
| OcrExtractor.ProcessFile | extractors/ocr_extractor.py:41-50 | Never raises. Recognised text comes with no error; an OCR error gives `("", str(e))`; any other exception gives `("", "Unexpected error: …")`. |
| OcrExtractor.FileEntry | extractors/ocr_extractor.py:82-90 | A file is kept iff its error is falsy (None or empty) and its text is not blank. |
| OcrExtractor.EntriesAt | extractors/ocr_extractor.py:75-82 | The i-th verdict is the one on the i-th file's OCR result: `zip(files, results)` keeps file order. |
| OcrExtractor.ProcessSafFiles | extractors/ocr_extractor.py:52-93 | No files gives `("", [], None)`. Otherwise the loop's triple is the assembly of the per-file verdicts. |
| OcrExtractor.KeptTextsNotBlank | extractors/ocr_extractor.py:84-88 | No kept text is blank. |
| OcrExtractor.CleanIffAllRecognized | extractors/ocr_extractor.py:82-93 | There is no error list iff every file was recognised with a non-blank text; then every file is processed. |
| PdfExtractor.NonEmpty | extractors/pdf_extractor.py:31-34 | The non-empty page texts, in page order: a subsequence of the pages holding, copy for copy, every non-empty page and no empty one. |
| PdfExtractor.NonEmptyKeepsEveryPage | extractors/pdf_extractor.py:31-34 | Counted copy by copy, the kept pages are all the pages except the empty ones. |
| PdfExtractor.PageText | extractors/pdf_extractor.py:17-59 | A failed read gives the library's `PDFExtractionError`. Otherwise the `"\n\n"`-join of the non-empty pages, which is blank iff every page is. |
| PdfExtractor.JoinBlank | extractors/pdf_extractor.py:35 | A join with a blank separator is blank iff every part is. |
| PdfExtractor.ExtractWith | extractors/pdf_extractor.py:28-37 | The page loop computes `PdfExtractor.PageText`. |
| PdfExtractor.AutoTextFound | extractors/pdf_extractor.py:77-91 | "auto" yields a non-blank text iff a library read a non-blank page. pdfplumber's text is preferred; PyPDF2's result is the fallback. |
| PdfExtractor.ExtractAuto | extractors/pdf_extractor.py:77-91 | The fallback chain computes the "auto" text and never fails. |
| PdfExtractor.Extract | extractors/pdf_extractor.py:61-93 | Dispatch on the method name. An unknown name is a `ValueError("Unknown extraction method: …")`. |
| PdfExtractor.FileEntry | extractors/pdf_extractor.py:116-124 | A file is kept iff "auto" found text. Otherwise `"<name>: Empty text extracted"`. |
| PdfExtractor.EntriesAt | extractors/pdf_extractor.py:115-124 | The i-th verdict is the one on the i-th input file. |
| PdfExtractor.ExtractMultiple | extractors/pdf_extractor.py:95-127 | The loop's triple is the assembly of the per-file verdicts, in input order. |
| Runs.EffectiveBatchSize | config/settings.py:66 | The batch size is never 0: the configured one, or 100. |
| Runs.Apply | pipeline/step2_tech_specs.py:139-154 | Success marks the id processed with its files as snapshot, leaving failures alone. Failure only records the error. Processed ids are never lost. |
| Runs.VisitWellFormed | pipeline/step2_tech_specs.py:119-166 | The loop keeps the checkpoint's counters consistent and never drops a processed id. |
| Runs.VisitFrame | pipeline/step3_permit_license.py:156-158 | A skipped or unvisited id keeps its snapshot and failure entry. |
| Runs.StepFrame | pipeline/step2_tech_specs.py:139-163 | Processing one id, and the checkpoint after it, leaves every other id's processed status, snapshot and error as they were. |
| Runs.VisitRecords | pipeline/step2_tech_specs.py:119-154 | Every visited id ends up processed with its files, or failed with its error. |
| Runs.SkipAsWritten | pipeline/step2_tech_specs.py:86-92 | The skip set is the loaded processed set when resuming or incremental with a state file, and otherwise empty. |
| Runs.Skip | pipeline/step2_tech_specs.py:86-103 | As written, except that incremental runs skip nothing (see Findings). |
| Runs.IncrementalRunSettles | utils/progress.py:92-117 | After an incremental run that succeeds on every id, the resolver finds nothing left to do. |
| Runs.IncrementalSkipsUpdatedUnit | pipeline/step2_tech_specs.py:119-121 | As written, an id that gained a file is selected but skipped, and stays selected. |
| Runs.LastCheckpoint | pipeline/step2_tech_specs.py:158-159 | The position of the last checkpoint: a non-skipped multiple of the batch size, with none after it, or 0 when there is none. |
| Runs.LastCheckpointVisited | pipeline/step2_tech_specs.py:158-159 | A visited id at a multiple of the batch size becomes the last checkpoint position; any other visited id leaves that position unchanged. |
| Runs.SkippedStep | pipeline/step2_tech_specs.py:119-121 | A skipped id (`continue`) changes neither the state, the file on disk, nor the last checkpoint position. |
| Runs.VisitedStep | pipeline/step2_tech_specs.py:123-163 | A visited id applies its outcome and then the checkpoint at its position. At a multiple of the batch size the file on disk becomes that state; otherwise the file stays as it was. |
| Runs.DiskAfterSnoc | pipeline/step2_tech_specs.py:158-163 | A checkpoint position saves the state reached so far to the file; any other position leaves the file as it was. |
| Runs.VisitPrefix | pipeline/step3_permit_license.py:156-204 | The processed list at an earlier position is a prefix of the one at a later position. |
| Runs.DiskBehindState | pipeline/step3_permit_license.py:200-204 | After the loop the checkpoint file is the old file, or a saved state whose processed list is a prefix of the one in memory. |
| Merge.DropKeys | pipeline/step2_tech_specs.py:182-183 | Rows whose key is dropped are removed; all others are kept, in order. |
| Merge.DropKeysKeeps | pipeline/step2_tech_specs.py:182-183 | The filter keeps every copy of each row whose key is not dropped, and invents none. |
| Merge.Supersede | pipeline/step2_tech_specs.py:182-185 | The new rows are the suffix. The prefix is a subsequence of the existing rows with no new SAF number, holding every copy of each existing row whose SAF number is not new. |
| Merge.SupersedeUniqueKeys | pipeline/step3_permit_license.py:218-221 | If keys were unique in each table, they are unique after the merge. |
| Merge.MergeAsWritten | pipeline/step2_tech_specs.py:179-190 | An empty new table always gives an empty output. |
| Merge.Merged | pipeline/step2_tech_specs.py:179-190 | Non-incremental, or no existing output: the new table. Otherwise the new rows are the suffix and the prefix is the existing rows in order with every superseded row dropped and every other copy kept; with nothing new the existing output is kept (see Findings). |
| Merge.MergeAgreesOnNewRecords | pipeline/step3_permit_license.py:215-226 | When there are new records, the corrected merge is the merge as written. |
| Merge.EmptyIncrementalRunWipesOutput | pipeline/step3_permit_license.py:215-228 | As written, an incremental run with nothing new replaces an existing output with an empty one. |
| Step2.RecordOf | pipeline/step2_tech_specs.py:129-138 | The record of one SAF number. It has no OCR error list iff every file was recognised with non-blank text. |
| Step2.NewRecordsKeys | pipeline/step2_tech_specs.py:119-139 | The records are those of the visited ids whose listing worked, in loop order. |
| Step2.FilterListed | pipeline/step2_tech_specs.py:119-139 | Those ids are exactly the visited ids whose listing worked, in order. |
| Step2.NewRecordsUnique | pipeline/step2_tech_specs.py:119-139 | Distinct ids give records with distinct SAF numbers. |
| Step2.Selected | pipeline/step2_tech_specs.py:79-102 | The mapping's keys up to the limit. In incremental mode, a subsequence of the resolver's output (so in mapping order) holding a limited key iff it is new or has new files. |
| Step2.IncrementalSelection | pipeline/step2_tech_specs.py:95-98 | Among the limited keys, one is selected iff the resolver says it needs work. |
| Step2.SelectedDistinct | pipeline/step2_tech_specs.py:95-98 | The selected ids are distinct. |
| Step2.ConcatExtend | pipeline/step2_tech_specs.py:209-215 | Writing a chunk at the next free number appends its rows to what loading the chunks returns. |
| Step2.VisitedRecords | pipeline/step2_tech_specs.py:129-163 | A visited id's record joins the pending ones. At a checkpoint, the chunks plus the pending rows are every record so far; otherwise the chunks stay those up to the last checkpoint. |
| Step2.Step2TechSpecs.constructor | pipeline/step2_tech_specs.py:20-35 | A fresh step over the given state file and output directory. |
| Step2.Step2TechSpecs.SavePartialResults | pipeline/step2_tech_specs.py:198-207 | An empty batch writes nothing. Otherwise the rows go to the first free chunk number, no existing chunk is overwritten, and loading the chunks gains exactly those rows. |
| Step2.Step2TechSpecs.LoadAllPartialResults | pipeline/step2_tech_specs.py:209-215 | The concatenation of all chunks in chunk order. |
| Step2.Step2TechSpecs.CleanupPartialResults | pipeline/step2_tech_specs.py:217-223 | No chunk is left. |
| Step2.Step2TechSpecs.ProcessOne | pipeline/step2_tech_specs.py:123-154 | One SAF number: the checkpoint update of its outcome, and its record when the listing worked. |
| Step2.Step2TechSpecs.Checkpoint | pipeline/step2_tech_specs.py:158-163 | The batch is set and the state saved (the file on disk is the new state), then the pending records are flushed to a chunk. |
| Step2.Step2TechSpecs.ProcessAt | pipeline/step2_tech_specs.py:119-166 | One position of the loop, extending the checkpoint fold, the file on disk (`Runs.DiskAfter`), the flushed chunks and the flushed-plus-pending records by that position. |
| Step2.Step2TechSpecs.VisitAt | pipeline/step2_tech_specs.py:123-163 | A visited position extends the checkpoint fold, the file on disk, the chunks and the flushed-plus-pending records by that position. |
| Step2.Step2TechSpecs.VisitOne | pipeline/step2_tech_specs.py:123-163 | The outcome is applied and the pending records gain this id's record. At a multiple of the batch size the state is saved to the file on disk and the pending records go to a new chunk; otherwise neither changes. |
| Step2.Step2TechSpecs.ProcessAll | pipeline/step2_tech_specs.py:119-166 | The checkpoint after the loop is the fold `Runs.Visit`; the file on disk is the state saved at the last checkpoint, and the chunks hold exactly the records up to that checkpoint. Flushed chunks plus pending records are exactly the new records. |
| Step2.Step2TechSpecs.Prepare | pipeline/step2_tech_specs.py:79-109 | Loads or resets the state, selects the ids, records the total, and deletes the chunks on a fresh start. The skip set is the corrected `Runs.Skip`, not lines 88 and 103 as written (see Findings). |
| Step2.Step2TechSpecs.Finish | pipeline/step2_tech_specs.py:168-192 | The final save and flush. The output is the corrected merge `Merge.Merged` of the existing output with all chunks, not lines 179-190 as written (see Findings), and no chunk remains. |
| Step2.Step2TechSpecs.Run | pipeline/step2_tech_specs.py:51-196 | No mapping fails. An empty mapping returns nothing and changes nothing. Otherwise the checkpoint, chunks and output are those of the selected ids (see Findings for the two corrections). |
| Step3.Downloaded | pipeline/step3_permit_license.py:66-74 | The downloaded files in path order; empty iff every download failed. |
| Step3.DirectoryText | pipeline/step3_permit_license.py:46-78 | No paths gives `(None, [], None)`; no download gives `(None, [], ["All files failed to download"])`. The text is None iff no file downloaded. |
| Step3.DirectoryClean | pipeline/step3_permit_license.py:75-78 | There is no error list iff some file downloaded and every downloaded file had a non-blank page. |
| Step3.RecordOf | pipeline/step3_permit_license.py:160-180 | The record of one SAF number. Each text is None iff none of that directory's files downloaded. |
| Step3.AllIds | pipeline/step3_permit_license.py:106-112 | The union of the permit and licence keys, strictly sorted. |
| Step3.Combined | pipeline/step3_permit_license.py:130-134 | In set order, each id's permit files followed by its licence files. |
| Step3.Selected | pipeline/step3_permit_license.py:112-143 | The sorted ids up to the limit. In incremental mode, exactly those of them that are new or have new files, as a subsequence of the resolver's output and so in set order. |
| Step3.IncrementalSelection | pipeline/step3_permit_license.py:128-143 | The incremental selection is distinct and picks an id iff it needs work. |
| Step3.NewRecordsKeys | pipeline/step3_permit_license.py:156-180 | One record per visited SAF number, in loop order. |
| Step3.FilterOut | pipeline/step3_permit_license.py:156-158 | The ids not skipped, in order. |
| Step3.PartialIsPrefix | pipeline/step3_permit_license.py:201-204 | The partial file holds its old contents or a prefix of this run's records, including the resumed ones. |
| Step3.VisitedRecords | pipeline/step3_permit_license.py:160-204 | A visited id's record is appended to the records so far. At a multiple of the batch size, the partial file becomes all of those records; otherwise it stays as it was. |
| Step3.VisitedRecorded | pipeline/step3_permit_license.py:182-186 | Every visited SAF number is processed, with its permit files then its licence files as snapshot. |
| Step3.Step3PermitLicense.constructor | pipeline/step3_permit_license.py:18-31 | A fresh step over the given state file and output files. |
| Step3.Step3PermitLicense.ExtractFromDirectory | pipeline/step3_permit_license.py:46-78 | The download loop and extraction compute `Step3.DirectoryText`. |
| Step3.Step3PermitLicense.CombineMappings | pipeline/step3_permit_license.py:130-134 | The loop builds `Step3.Combined`: in set order, each SAF number with its permit files then its licence files. |
| Step3.Step3PermitLicense.SavePartialResults | pipeline/step3_permit_license.py:234-239 | Overwrites the partial file with all results, unless there are none. |
| Step3.Step3PermitLicense.LoadPartialResults | pipeline/step3_permit_license.py:241-247 | The partial file's records, or none. |
| Step3.Step3PermitLicense.ProcessOne | pipeline/step3_permit_license.py:160-186 | Both directories are extracted, and the id is marked processed with `permit_files + license_files`. |
| Step3.Step3PermitLicense.Checkpoint | pipeline/step3_permit_license.py:200-204 | The batch is set and the state saved (the file on disk is the new state), then the partial file is overwritten with every record so far, unless there are none. |
| Step3.Step3PermitLicense.ProcessAt | pipeline/step3_permit_license.py:156-207 | One position of the loop, extending the checkpoint fold, the file on disk (`Runs.DiskAfter`), the records and the partial file by that position. |
| Step3.Step3PermitLicense.VisitAt | pipeline/step3_permit_license.py:160-204 | A visited position extends the checkpoint fold, the file on disk, the records and the partial file by that position. |
| Step3.Step3PermitLicense.VisitOne | pipeline/step3_permit_license.py:160-204 | The id is processed and its record appended. At a multiple of the batch size the state is saved to the file on disk and the partial file is overwritten with all records; otherwise neither changes. |
| Step3.Step3PermitLicense.ProcessAll | pipeline/step3_permit_license.py:156-207 | The checkpoint is the fold `Runs.Visit`, and the file on disk the state saved at the last checkpoint. Results are the resumed ones plus one record per visited id. The partial file is as at the last checkpoint. |
| Step3.Step3PermitLicense.Prepare | pipeline/step3_permit_license.py:112-147 | Loads or resets the state, selects the SAF numbers, and records the total. The skip set is the corrected `Runs.Skip`, not lines 119-143 as written (see Findings). |
| Step3.Step3PermitLicense.Run | pipeline/step3_permit_license.py:80-232 | No mapping fails. No SAF numbers returns nothing and changes nothing. Otherwise the checkpoint, the partial file and the merged output are those of the selected SAF numbers, with the corrected skip set and merge in place of lines 119-158 and 215-228 as written (see Findings). |

`Retry.Retry` (utils/retry.py:29-45) ensures:

- the call is made at most `max_attempts` times;
- every attempt but the last raised a retryable exception;
- the first value returned is returned;
- a non-retryable exception propagates at once;
- if all attempts raise, the last exception is re-raised, and no attempt at
  all means `raise None`;
- the sleeps are the first `attempts − 1` delays of the schedule.

## Left out

- Reading and writing JSON, parquet and the filesystem. Files are fields that
  hold records.
  - A corrupt checkpoint file, which would make `json.load` raise, is not
    modelled.
  - The "Document mapping not found" message is modelled without the path
    it contains.
- Timestamps are opaque values, and one run uses a single `now`.
- `ProgressTracker` and all logging: console output only.
- Concurrency.
  - `asyncio.gather`, the semaphore and the lazily created semaphore field of
    the OCR extractor are not modelled.
  - OCR outcomes are taken in file order, as the code re-pairs them with
    `zip`.
- `process_saf_files_sync` and the `directory` argument: the listing is
  already that of the right directory.
- `retry_async` is modelled by `Retry.Retry`: its loop is the same loop with
  `asyncio.sleep`.
- Delays are reals rather than Python floats.
  - Rounding is not modelled.
  - The `ValueError` that `time.sleep` raises for a negative delay is not
    modelled.
- The regular-expression engine, Unicode lower-casing and the Russian pattern
  lexicon are parameters (`search`, `lower`, the two pattern lists).
- PyPDF2 and pdfplumber internals.
  - A PDF is the page texts each library reads, or a read failure.
  - A page whose text is `None` is the empty text.
- The `BATCH_SIZE` environment override is not modelled. A configured batch
  size is a parameter; when absent or 0 it is 100.
- `StateManager` mutators called before `load` or `reset` are excluded by
  their precondition, because every call site loads or resets first. On the
  empty dict `mark_processed` and `mark_failed` raise `KeyError`, while
  `save`, `mark_files_processed`, `set_total` and `update_batch` succeed.
- The missing `processed_files` key of an old state file reads as an empty
  snapshot.
- Listing errors. `core/minio_client.py` returns an empty listing on
  `S3Error`; the model's `ListingFailed` stands for any other exception
  raised while listing, which makes the step 2 unit `Failed`.
- The `except` branch of the step 3 loop is not modelled: no modelled
  collaborator raises there. Every step 3 unit succeeds.
- The `except PDFExtractionError` branch of `extract_multiple` is not
  modelled: `extract(…, "auto")` never raises.
- Step2.Step2TechSpecs.LoadAllPartialResults: concatenates the chunks in
  numeric order. The code sorts the chunk file names as strings, so the two
  differ from eleven chunks on (`chunk_10` sorts before `chunk_2`). A
  chunk directory with gaps in its numbering is not modelled.
- The legacy `step2_tech_specs_partial.parquet` file is a flag that the
  cleanup clears. Its contents are not read.
- Step3.Selected: the iteration order of the set of all SAF numbers is a
  parameter (`order`), required to enumerate that set.
- `step1`, `step4`, `main.py`, `diagnostic.py`, the database and HTTP
  clients, and configuration parsing are not part of this model.

## Findings

| source | as written | input that shows it | evidently intended | confidence | as-written member | corrected member |
|---|---|---|---|---|---|---|
| pipeline/step2_tech_specs.py:86-121 (also pipeline/step3_permit_license.py:119-158) | In incremental mode the skip set is every id ever processed, loaded from the state file. An id the resolver selects because it gained files is therefore skipped, never reprocessed, and stays selected on every later run. | State after a run over `A: ["a/1.pdf"]`; then an incremental run over `A: ["a/1.pdf", "a/2.pdf"]`. | Incremental runs skip nothing. Resuming still works, because an id reprocessed by an interrupted run is not selected again. | not executed; high | Runs.SkipAsWritten, Runs.IncrementalSkipsUpdatedUnit | Runs.Skip, Runs.IncrementalRunSettles |
| pipeline/step2_tech_specs.py:179-192 (also pipeline/step3_permit_license.py:215-228) | When the new table is empty, the `else` branch writes it over the existing output, even in incremental mode. | An incremental run that finds no SAF number with new files, with an existing output `[("2024-00001", …)]`. | Keep the existing output when there is nothing new. | not executed; high | Merge.MergeAsWritten, Merge.EmptyIncrementalRunWipesOutput | Merge.Merged, Merge.MergeAgreesOnNewRecords |
