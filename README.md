# Financial report assistant: a verified model of its core

The system converts uploaded annual-report PDFs to markdown with the MinerU
command-line tool. It streams the progress of each conversion job to its
owner, splits the markdown into chunks and enriches them with evidence from
MinerU's content blocks for a search index, and extracts "key: value" facts
into a database. It answers questions over the retrieved chunks with an LLM.

This project models that core in Dafny, one module per source file:

- `Jobs` (src/jobs.py): the job registry, the jobs and `publish_event`, as
  classes whose methods update fields in place.
- `JobEvents` (events.dfy): the bounded subscriber queues.
- `Runner` (runner.dfy): the line loop of `_run_cmd_stream`.
- `Jobs.Registry.ConvertJob`: the fallback over candidate commands.
- `Jobs.Registry.Sweep`: the TTL sweeper.
- `Converter` (src/converter.py): MinerU mode normalisation, candidate
  commands, markdown search, CLI resolution and the `convert_pdf` attempt
  loop.
- `Api` (src/api.py): the job-side request logic. This covers ownership
  checks, event subscription, job registration in `convert_endpoint`,
  asset path containment and the SPA prefix rule.
- `AutoReader` (src/finance_parsing/mineru_auto_reader.py): the choice of
  MinerU output files.
- `Chunking` (src/indexing/chunking.py): heading detection, the heading
  stack, the overlapping window splitter and chunk numbering.
- `Blocks`, `Tables`, `Images` (src/indexing/mineru_blocks.py): metadata
  flattening, text normalisation, the block text index and span lookup,
  chunk enrichment, and table-row and image-context documents.
- `LogConfig` (src/utils/logger/config_loader.py): configuration shape,
  validation, environment overrides, path resolution and fallback.
- `Auth` (src/auth.py): base64url without padding (section 5 of RFC 4648),
  the JWS compact serialisation (section 7.1 of RFC 7515) with the `exp`
  check (section 4.1.4 of RFC 7519), and bearer header checks.
- `History` (src/history.py): the JSONL history record and the backwards
  block reader.
- `Normalizer` (src/db/normalizer.py): number parsing, fact lines, the
  company upsert and report ingestion.
- `Qa` (src/qa/service.py): titles, API key and base URL resolution,
  labelled sources and the answer.
- `Gpu` (src/utils/gpu.py): nvidia-smi CSV parsing and device priority.
- `Config` (src/config.py): environment parsing and the settings cache.
- `Text` and `Values`: shared string helpers and Python-like JSON values.

These become parameters of the model:

- the clock (`now`);
- environment variables (a map);
- the file system (lists of path and mtime records, predicates for
  existence);
- subprocess output (the lines a run prints and its exit code);
- HMAC, JSON, YAML and TOML parsing, HTML table parsing, the vector search
  and the chat completion (function parameters).

## Model

| member | source | states |
|---|---|---|
| AutoReader.Select | src/finance_parsing/mineru_auto_reader.py:26-27 | the files a glob pattern matches are exactly the listed files that match it, none added |
| AutoReader.PickLatest | src/finance_parsing/mineru_auto_reader.py:18-21 | no result exactly for an empty list; otherwise a listed path whose mtime is the greatest |
| AutoReader.PickLatestFirstOfNewest | src/finance_parsing/mineru_auto_reader.py:21 | the stable descending sort returns the newest path listed first among equal mtimes |
| AutoReader.FindAutoOutput | src/finance_parsing/mineru_auto_reader.py:24-51 | an error with the source's message exactly when there is no markdown; otherwise a markdown file, auto_dir its directory, images_dir set exactly when `<auto_dir>/images` exists |
| AutoReader.FindAutoOutputPrefersAuto | src/finance_parsing/mineru_auto_reader.py:26-29 | with any markdown under an `auto` directory the result is one of those and the newest of them |
| AutoReader.FindAutoOutputPrefersTxt | src/finance_parsing/mineru_auto_reader.py:26-29 | without `auto` markdown, any markdown under a `txt` directory makes the result one of those and the newest of them |
| AutoReader.FindAutoOutputPrefersOcr | src/finance_parsing/mineru_auto_reader.py:26-29 | without `auto` and `txt` markdown, any markdown under an `ocr` directory makes the result one of those and the newest of them |
| AutoReader.FindAutoOutputFallsBackToAny | src/finance_parsing/mineru_auto_reader.py:31-32 | without auto, txt and ocr markdown the newest markdown anywhere is chosen |
| AutoReader.FindAutoOutputSideFiles | src/finance_parsing/mineru_auto_reader.py:42-43 | the content-list JSON is found in the markdown's own directory and is the newest there |
| AutoReader.FindAutoOutputModelJson | src/finance_parsing/mineru_auto_reader.py:43 | model_json is set exactly when some `*_model.json` lies in the markdown's own directory, and is then the newest of those |
| Converter.NormalizeMode | src/converter.py:45-53 | a mode is kept exactly when its stripped, lower-cased form is one of auto, ocr, txt, and then it is that form |
| Converter.NormalizeModeIdempotent | src/converter.py:45-53 | normalising a normalised mode changes nothing |
| Converter.ModeOrAuto | src/converter.py:56 | the mode passed to MinerU is always a known mode, the normalised one when there is one |
| Converter.CandidateCommands | src/converter.py:55-62 | three commands sharing `cli -p pdf -o out`; the second adds the pipeline backend and the mode, the third the vlm-transformers backend |
| Converter.FirstExisting | src/converter.py:23-25 | no index exactly when no candidate exists; otherwise the first existing candidate |
| Converter.ResolveCli | src/converter.py:15-28 | with no interpreter-directory candidate present, the `which` result when non-empty, else the bare name |
| Converter.ResolveCliPrefersInterpreterDir | src/converter.py:15-25 | an existing interpreter-directory candidate wins over `which`, and it is the first one listed |
| Converter.LaunchedCommand | src/converter.py:32-33 | only a bare, non-empty program name is replaced; the arguments are kept |
| Converter.RunCmd | src/converter.py:30-43 | a missing program gives (False, "", "command not found"); an error escapes exactly when launching raises; success means exit code 0 with that output |
| Converter.SelectNamed | src/converter.py:68 | exactly the files whose lower-cased name contains the lower-cased basename |
| Converter.SearchMd | src/converter.py:64-70 | nothing exactly when out_dir holds no markdown; otherwise a markdown file: the newest whose name contains the basename (case ignored) when there is one, else the newest markdown |
| Converter.SearchNewestSpec | src/converter.py:64-78 | a file is found exactly when one matches; a name hit is preferred and is the newest hit, otherwise the newest match is returned |
| Converter.AnyMarkdownIff | src/converter.py:65 | the recursive markdown test holds exactly when some file is markdown |
| Converter.SearchMdFinds | src/converter.py:64-70 | search_md returns a file exactly when out_dir holds any markdown |
| Converter.FirstWithMd | src/converter.py:83-91 | no index exactly when no temporary directory exists with markdown in it; otherwise the first such one |
| Converter.SearchDefaultMd | src/converter.py:80-91 | nothing exactly when no temporary directory exists with markdown in it; otherwise search_md's pick in the first such directory, as a full path |
| Converter.TryFromStopsAtFirstOk | src/converter.py:97-101 | the commands are tried in order, every attempt but the last failed, and stopping early means the last attempt succeeded |
| Converter.LocateOutput | src/converter.py:102-104 | auto markdown first, then any markdown in out_dir, then the temporary directories |
| Converter.TryCommands | src/converter.py:96-101 | the attempt loop produces exactly the attempts of TryFrom, or the exception that escaped |
| Converter.ConvertPdf | src/converter.py:94-108 | the markdown path found after the attempts, or the RuntimeError listing every attempt when none is found, or the escaped exception |
| JobEvents.Stamp | src/jobs.py:40-42 | the payload keeps every key of the event and adds job_id and ts only where the event lacks them |
| JobEvents.ApplyEvent | src/jobs.py:48-58 | each field is updated exactly when the payload carries a value of the accepted kind, and stays otherwise; updated_at is always the current time |
| JobEvents.ApplyEventIdempotent | src/jobs.py:48-58 | publishing the same payload twice leaves the record as publishing it once |
| JobEvents.ApplyEventIgnoresStamp | src/jobs.py:40-42 | the job_id and ts that publish_event fills in never change the record |
| JobEvents.ApplyAllAppend | src/jobs.py:39-58 | applying two runs of events in turn is applying their concatenation |
| JobEvents.ApplyAllLastStage | src/jobs.py:48-49 | the last event carrying a string stage decides the job's stage |
| JobEvents.TerminalStageNotSticky | src/jobs.py:48-49 | a log event after "done" moves the stage away from "done" |
| JobEvents.LogPayload | src/jobs.py:69-73 | a log event has type, stage and message, a percent exactly when one is given, and never ok, error or md_path |
| JobEvents.ProgressPayload | src/jobs.py:131-195 | a progress event carries its stage, percent and ok, an error exactly when given, and md_path when given |
| JobEvents.KeepNewest | src/jobs.py:60-67 | the newest n items, in order, and all of them when there are at most n |
| JobEvents.Offer | src/jobs.py:60-67 | an unbounded queue appends; a bounded queue within capacity keeps the newest items after appending |
| JobEvents.KeepNewestStep | src/jobs.py:62-66 | dropping the oldest and then appending equals appending and keeping the newest |
| JobEvents.OfferAllKeepsNewest | src/jobs.py:60-67 | a bounded queue that starts within capacity always holds exactly the newest events offered |
| JobEvents.OfferAllAppend | src/jobs.py:60-67 | offering two runs of events in turn is offering their concatenation |
| JobEvents.Stamps | src/jobs.py:40-42 | one stamped payload per event |
| JobEvents.StampsAppend | src/jobs.py:40-42 | stamping distributes over concatenation |
| Runner.DigitRun | src/jobs.py:110 | the digit run starting at i stays inside the line |
| Runner.DigitRunMaximal | src/jobs.py:110 | the run is all digits and is not followed by another digit |
| Runner.SkipSpaces | src/jobs.py:110 | the skip stops inside the line, at or after i |
| Runner.SkipSpacesMaximal | src/jobs.py:110 | only whitespace is skipped, and all of it |
| Runner.FindPercent | src/jobs.py:110 | a match position lies inside the line, at or after the start |
| Runner.FindPercentLeftmost | src/jobs.py:110-111 | `(\d{1,3})\s*%` matches at the result, nowhere before it, and nowhere at all when there is no result |
| Runner.TruncDiv | src/jobs.py:113 | int() of the quotient: truncation toward zero for either sign of the dividend |
| Runner.MapPercent | src/jobs.py:113-114 | the mapped percent always lies in [0, 99] |
| Runner.MapPercentTruncates | src/jobs.py:113-114 | 42% in the conversion stage maps to 38 and 100% to 85 |
| Runner.ScanLineLogs | src/jobs.py:104-121 | one line publishes at most one event, for that non-blank line and stage; a percent is attached exactly when last_sent advances by at least the step |
| Runner.ScanLineErrors | src/jobs.py:105-108 | every line enters the transcript; a marker line is kept exactly when fewer than ten are held |
| Runner.ScanPercentsBounded | src/jobs.py:110-117 | every percent a run publishes lies in [0, 99] |
| Runner.ScanPercentsIncrease | src/jobs.py:77-117 | with step at least 1 the published percents strictly increase and never exceed last_sent |
| Runner.ScanOutput | src/jobs.py:104-127 | the transcript is every line, chomped, in order |
| Runner.ScanLogsNonBlank | src/jobs.py:119-121 | every published line is non-blank and belongs to the run's stage |
| Runner.ScanErrorsBounded | src/jobs.py:107-108 | at most ten marker lines are kept, each a marker line |
| Runner.ScanErrorsIff | src/jobs.py:107-108 | marker lines are kept exactly when the transcript has one |
| Runner.RanResultOk | src/jobs.py:126-127 | a run succeeds exactly when the tool exited with 0 and printed no marker line; the hint is absent exactly when there is none |
| Runner.RunCmdStream | src/jobs.py:75-127 | a missing program and a failed start give their fixed failure results and one ERROR event; a run gives the scanned result |
| Jobs.Channel.constructor | src/jobs.py:30 | a subscriber queue starts empty with its capacity |
| Jobs.Channel.Put | src/jobs.py:61-67 | the queue becomes Offer of the old queue: appended, or the oldest item dropped first when full |
| Jobs.Channel.Take | src/api.py:331-332 | the oldest payload is removed and returned; an empty queue yields nothing and stays empty |
| Jobs.JobState.constructor | src/jobs.py:17-30 | a record with the given fields, created and updated now, with no subscribers |
| Jobs.JobState.Apply | src/jobs.py:48-58 | the record's fields become ApplyEvent of the old ones; the subscribers are untouched |
| Jobs.Swept | src/jobs.py:198-210 | never more names are deleted than there are entries |
| Jobs.SweptExactly | src/jobs.py:198-210 | every name deleted is an expired, removable directory other than logs, and every such directory is deleted |
| Jobs.BackendCommand | src/jobs.py:135-142 | the explicit backend command adds `-b b` to the base arguments, and `-m mode` only for pipeline |
| Jobs.JobCommands | src/jobs.py:134-142 | the three default commands, preceded by the explicit backend's command exactly when a non-blank backend is given; every command names a program |
| Jobs.AttemptOfSucceeds | src/jobs.py:156-160 | an attempt ends the loop exactly when the tool started, exited with 0, printed no marker line and left markdown |
| Jobs.Attempts | src/jobs.py:147-162 | one attempt per command |
| Jobs.AttemptsAt | src/jobs.py:147-156 | attempt i is what running command i observes |
| Jobs.FirstSuccessFrom | src/jobs.py:147-160 | a successful attempt found from i lies between i and the end |
| Jobs.FirstSuccessFromSpec | src/jobs.py:147-160 | no success found exactly when none follows i; otherwise the first success after i |
| Jobs.FirstSuccessSpec | src/jobs.py:147-160 | the loop stops at the first successful attempt, and runs all of them when none succeeds |
| Jobs.AttemptFails | src/jobs.py:147-160 | a failed attempt passes the search for the first success on to the next command |
| Jobs.AttemptWins | src/jobs.py:156-160 | the first successful attempt ends the loop after i + 1 commands, and its result is the last one seen |
| Jobs.AttemptsExhausted | src/jobs.py:147-162 | with no success every command is run and the last command's result is the one reported |
| Jobs.LogEvents | src/jobs.py:117-121 | one log event per published line, in order |
| Jobs.StampsNextAttempt | src/jobs.py:147-162 | publishing attempt i after the first i attempts publishes the first i + 1 |
| Jobs.FailureMessage | src/jobs.py:169-175 | the layout hint when the log names ModelWrapper, else the network hint for the three network errors, else the generic hint |
| Jobs.Attempted | src/jobs.py:147-162 | between one and all commands are run |
| Jobs.ConvertStamps | src/jobs.py:129-196 | the start, attempt and ending phases together publish the conversion's body and then its terminal event |
| Jobs.ApplyDone | src/jobs.py:195 | the done event leaves the record at done, 100, ok true and the markdown path |
| Jobs.ApplyError | src/jobs.py:177 | the error event leaves the record at error, 100, ok false and the message |
| Jobs.ConvertFinalStatus | src/jobs.py:129-196 | whatever came before, a finished conversion leaves percent 100, and done with the path when some attempt succeeded, error with the classified message otherwise |
| Jobs.DoneRecordShape | src/jobs.py:178-196 | a success history record names md and device, a failure record names the error, and ok says which |
| Jobs.ConvertRecordOk | src/jobs.py:158-196 | the history record says ok exactly when some command succeeds |
| Jobs.ConvertPercents | src/jobs.py:131-195 | every event before the terminal one carries a percent in [0, 99] or none; the terminal one carries 100 |
| Jobs.PercentsBelowDoneAppend | src/jobs.py:131-185 | percents below 100 are kept under concatenation |
| Jobs.LogEventsPercents | src/jobs.py:117 | relayed log lines carry percents in [0, 99] |
| Jobs.AttemptLogsBounded | src/jobs.py:156 | one attempt's events carry percents in [0, 99] |
| Jobs.AttemptsPercents | src/jobs.py:147-162 | the events of any number of attempts carry percents in [0, 99] |
| Jobs.Registry.constructor | src/jobs.py:32 | the registry starts empty and valid |
| Jobs.Registry.Get | src/jobs.py:35-37 | a record exactly when the id is registered, and it is that record |
| Jobs.Registry.Register | src/api.py:405-420 | the new record is filed under its id, fresh, with its fields and no subscribers; the registry stays valid |
| Jobs.Registry.Publish | src/jobs.py:39-67 | for a registered job the record becomes ApplyEvent of the stamped payload and every queue Offer of it; nothing else changes; an unknown id changes nothing |
| Jobs.Deliver | src/jobs.py:60-67 | every subscriber queue, in order, is offered the payload exactly once |
| Jobs.Registry.Emit | src/jobs.py:39-67 | publishing events in turn leaves the record and every queue reflecting all the stamped payloads so far |
| Jobs.Registry.RunAttempt | src/jobs.py:148-156 | one attempt publishes its banner and the tool's log lines and observes attempt i |
| Jobs.Registry.RunAttempts | src/jobs.py:145-162 | the loop publishes the events of the attempts up to the first success, reports whether one succeeded, and returns the last run's result |
| Jobs.Registry.FinishConvert | src/jobs.py:164-196 | the ending publishes collect and done, or the error, and yields the history record |
| Jobs.Registry.ConvertJob | src/jobs.py:129-196 | the record and every queue reflect exactly the stamped body and terminal event of the conversion; the history record and conversion.log follow the attempts |
| Jobs.Registry.RunConvert | src/jobs.py:129-196 | the conversion body keeps the registry valid, changes only this job's record and queues, and leaves them reflecting exactly what it published; its outcome follows the attempts |
| Jobs.Registry.Sweep | src/jobs.py:198-210 | nothing is deleted when output_root is missing; otherwise the swept names are deleted and exactly they leave the registry |
| Api.OwnedJob | src/api.py:312-313 | refused exactly when the job is unknown or owned by another user: 404 when unknown, 403 when foreign; otherwise that job's record |
| Api.StatusBodyReplays | src/api.py:314-319 | the status body reproduces the record's stage, percent, ok and error, and published back to the record changes nothing |
| Api.JobStatus | src/api.py:310-319 | refused exactly as the owner check refuses; otherwise the body reports the record's stage and percent |
| Api.Subscribe | src/api.py:321-329 | an owned job gains one fresh, empty queue of capacity 1000 at the end of its subscribers and the stream starts with its snapshot; a refusal changes nothing |
| Api.NextFrame | src/api.py:330-332 | the oldest queued payload as a message, or a keepalive when the queue is empty |
| Api.IndexOf | src/api.py:335 | the position of the first occurrence of the queue |
| Api.RemoveFirst | src/api.py:335 | list.remove drops exactly one entry |
| Api.RemoveFirstExactly | src/api.py:335 | in a list without duplicates, removal keeps every other queue and only those, and no duplicates |
| Api.Unsubscribe | src/api.py:333-335 | the queue is removed only while the record is registered and the queue listed; otherwise nothing changes; the record's fields never change |
| Api.PathName | src/api.py:351 | the stored name contains no separator |
| Api.Clean | src/api.py:630 | the components pathlib keeps are never empty or "." |
| Api.Parts | src/api.py:630 | the components of a path are non-empty, not ".", and separator-free |
| Api.PathNameOfJoin | src/api.py:351-359 | the name of `dir/name` is name, for a separator-free name |
| Api.UploadName | src/api.py:351 | the stored name has no separator and defaults to upload.pdf |
| Api.ThreadCallAsWritten | src/api.py:461-475 | the thread call as written does not bind to the parameters of _convert_job |
| Api.StartConvert | src/api.py:351-481 | an invalid mode gives 400 and changes nothing; a dedup hit removes the new job directory and registers the earlier job at done, 100, ok true, with no history record and no thread; otherwise a queued job is registered, the convert.start history record with user, job_id, pdf, backend, mode, sha256, size_bytes and source_file_mtime_ms is returned, and so is a thread call that binds |
| Api.WalkPlain | src/api.py:643 | resolving a path without ".." only appends its components |
| Api.ReplaceChar | src/api.py:625 | every backslash becomes a slash and nothing else changes |
| Api.AssetCandidate | src/api.py:629-656 | a candidate always lies inside base_dir or inside images_dir |
| Api.JobAsset | src/api.py:585-661 | an empty path is refused, a foreign job gets 403, an unknown unowned job 404; a served file exists and lies inside base_dir or images_dir of the job's MinerU output |
| Api.RelativeAssetServed | src/api.py:642-646 | a relative path without ".." naming a file under base_dir is served from there |
| Api.RelativeAssetFromImages | src/api.py:649-656 | when nothing exists under base_dir, a relative path without ".." is looked up under images_dir |
| Api.SpaHandlerAsWritten | src/api.py:666-672 | 404 exactly for paths starting with api/, docs or openapi; otherwise the file the operating system finds for `static_dist_dir / full_path`, exactly when the lookup succeeds and names a file, with no containment check; else index.html when present, else the not-ready page |
| Api.Lookup | src/api.py:669-670 | a lookup that succeeds ends at the lexical resolution of the components |
| Api.LookupPlain | src/api.py:669-670 | without "..", the lookup always succeeds and only appends the components |
| Api.LookupThroughMissing | src/api.py:669-670 | "name/.." below a directory that does not exist finds nothing, although lexically the two cancel out |
| Api.SpaHandlerServesOutside | src/api.py:668-670 | the absolute full_path "/etc/passwd" makes the handler serve /etc/passwd, outside the static directory ["srv", "dist"] |
| Api.SpaHandler | src/api.py:666-672 | the same answers, except that a file is served only when the path found lies inside the static directory |
| Api.SpaHandlerAgreesInside | src/api.py:668-670 | for a relative path without "..", the file named is the static directory plus the path's components, and both handlers answer the same |
| Api.AbsoluteNotReserved | src/api.py:667 | an absolute full_path never starts with a reserved prefix |
| Chunking.HashRun | src/indexing/chunking.py:23-28 | the count covers exactly the leading "#"s: all are "#" and the next character is not |
| Chunking.LevelOf | src/indexing/chunking.py:21-29 | the heading level always lies in [1, 6] |
| Chunking.HeadingLevel | src/indexing/chunking.py:21-29 | the counting loop returns the clamped length of the leading "#" run |
| Chunking.HeadingText | src/indexing/chunking.py:32-35 | the title has no surrounding whitespace |
| Chunking.HashRunIs | src/indexing/chunking.py:23-28 | a run of m "#"s followed by something else counts m |
| Chunking.HeadingRoundTrip | src/indexing/chunking.py:16-35 | a line of level "#"s, a space and a stripped title is a heading whose level count is level and whose text is the title |
| Chunking.WindowsBounds | src/indexing/chunking.py:47-52 | every window is a non-empty slice of the text, at most max_chars long |
| Chunking.WindowTexts | src/indexing/chunking.py:49 | one stripped piece per window |
| Chunking.NonEmptyOnly | src/indexing/chunking.py:53 | exactly the non-empty pieces are kept |
| Chunking.SplitWithOverlap | src/indexing/chunking.py:38-53 | the parts are SplitPieces of the text |
| Chunking.CutWindows | src/indexing/chunking.py:45-52 | the loop appends the stripped slice of every window, in order |
| Chunking.WindowStep | src/indexing/chunking.py:48-52 | a turn that does not reach the end appends the stripped slice [start, start + max_chars) and restarts max(0, end - overlap) characters in |
| Chunking.LastWindow | src/indexing/chunking.py:48-51 | the turn whose window reaches the end of the text appends the stripped rest of the text and ends the loop |
| Chunking.WindowTextsBounded | src/indexing/chunking.py:49 | every stripped window is at most max_chars long |
| Chunking.SplitPiecesBounded | src/indexing/chunking.py:38-53 | every piece is non-empty and at most max_chars long |
| Chunking.SplitPiecesShort | src/indexing/chunking.py:39-43 | a blank text gives no pieces; a text that fits gives itself, stripped |
| Chunking.WindowsChain | src/indexing/chunking.py:46-52 | the windows start at 0, end at the end of the text, are max_chars long except the last, and each starts overlap characters before the previous end |
| Chunking.ChunkId | src/indexing/chunking.py:79 | the id is "c" followed by at least six digits |
| Chunking.ChunkIdInjective | src/indexing/chunking.py:79 | distinct counters give distinct ids |
| Chunking.ChunkMetadataFacts | src/indexing/chunking.py:81-83 | the metadata keeps every base key and sets only chunk_id and headings |
| Chunking.Titles | src/indexing/chunking.py:77 | one title per stacked heading |
| Chunking.ScanLine | src/indexing/chunking.py:87-105 | a heading flushes the buffer as a section, records the heading titles in force, and empties the buffer; any other line leaves sections, titles and stack alone and at most appends itself (or "" for a blank) |
| Chunking.Kept | src/indexing/chunking.py:95-96 | the pops never remove more than the stack holds |
| Chunking.KeptFacts | src/indexing/chunking.py:95-96 | exactly the top headings of the same or a deeper level are popped |
| Chunking.PushHeading | src/indexing/chunking.py:95-97 | the pop loop and append produce Push of the stack |
| Chunking.PushFacts | src/indexing/chunking.py:95-97 | the stack stays strictly nested, the new heading is on top, and beneath it are exactly the shallower headings, in order |
| Chunking.PoppedBelow | src/indexing/chunking.py:95-96 | the kept headings are exactly the shallower ones |
| Chunking.Texts | src/indexing/chunking.py:84 | one text per chunk |
| Chunking.NewChunks | src/indexing/chunking.py:78-85 | one chunk per piece |
| Chunking.NewChunksSnoc | src/indexing/chunking.py:78-85 | one more piece appends one more chunk, numbered next |
| Chunking.Flush | src/indexing/chunking.py:71-85 | the chunks of the section's pieces are appended, numbered on, and the counter is the chunk count |
| Chunking.AppendChunks | src/indexing/chunking.py:78-85 | the loop appends one chunk per piece, numbered on from the counter |
| Chunking.FlushKeepsNumbering | src/indexing/chunking.py:71-85 | after a flush the chunks are still numbered consecutively from 0 with well-formed metadata and bounded texts, and the texts are extended by the pieces |
| Chunking.AppendKeepsNumbering | src/indexing/chunking.py:78-85 | appending pieces keeps the numbering and extends the texts by exactly those pieces |
| Chunking.AppendTexts | src/indexing/chunking.py:84 | the texts of appended chunks are appended |
| Chunking.Feed | src/indexing/chunking.py:87-105 | one line of the loop: the scan state moves as ScanLine says, and the chunks are those of the flushed sections, each under the heading titles in force when it was flushed |
| Chunking.ChunkMarkdown | src/indexing/chunking.py:56-108 | the chunks are those of the markdown's sections under their heading titles; they are numbered c000000 on, carry the base metadata with their id and headings, are non-empty and at most max_chars long, and their texts are the pieces of the sections, in order |
| Chunking.SectionTitles | src/indexing/chunking.py:71-107 | one list of heading titles per section |
| Chunking.AllChunksSnoc | src/indexing/chunking.py:71-85 | flushing one more section appends the chunks of its pieces, numbered on, under its titles |
| Chunking.AllChunksFacts | src/indexing/chunking.py:71-108 | the chunks of all sections are numbered from 0 with well-formed metadata and bounded texts, and their texts are the pieces of the sections in order |
| Chunking.AllChunksHeadings | src/indexing/chunking.py:77-97 | every chunk carries the heading titles in force when its section was flushed, and its text is a piece of that section |
| Chunking.ScanLineShape | src/indexing/chunking.py:87-105 | one line keeps every buffer free of headings, leading blanks and doubled blanks |
| Chunking.ScanLinesShape | src/indexing/chunking.py:87-107 | no section holds a heading line, starts with a blank line or holds two blank lines in a row |
| Chunking.NonBlankAppend | src/indexing/chunking.py:100-105 | filtering blank lines distributes over concatenation |
| Chunking.ScanLineText | src/indexing/chunking.py:87-105 | one line adds its text to the buffer exactly when it is neither a heading nor blank |
| Chunking.ScanKeepsText | src/indexing/chunking.py:87-107 | no text is lost or reordered: the non-blank lines of the sections are the body lines of the input |
| Chunking.ScanTextSoFar | src/indexing/chunking.py:87-105 | the sections so far and the buffer hold exactly the body lines read so far |
| Chunking.FileMetadata | src/indexing/chunking.py:119-120 | a base source_path is kept; otherwise the file's path is added; every base key is kept |
| Chunking.ChunksFromMarkdownFile | src/indexing/chunking.py:111-121 | the chunks are those of the file's markdown under their heading titles, with the base metadata plus the file's path as source when the base has none |
| Blocks.Strs | src/indexing/mineru_blocks.py:33-37 | str() of every item, one for one |
| Blocks.FlattenValue | src/indexing/mineru_blocks.py:28-39 | every flattened value is a scalar, and a scalar is kept as it is |
| Blocks.FlattenMetadata | src/indexing/mineru_blocks.py:26-40 | the same keys, every value a scalar, every scalar value kept |
| Blocks.FlattenIdempotent | src/indexing/mineru_blocks.py:26-40 | flattening flat metadata changes nothing |
| Blocks.FlattenBlankHeadings | src/indexing/mineru_blocks.py:32-34 | headings whose items are all blank flatten to None |
| Blocks.FlattenHeadings | src/indexing/mineru_blocks.py:32-34 | headings with a non-blank item flatten to the stripped non-blank items joined by " / " |
| Blocks.BlankDropped | src/indexing/mineru_blocks.py:33 | only blank items gives no parts |
| Blocks.NonBlankKept | src/indexing/mineru_blocks.py:33 | a non-blank item gives some part |
| Blocks.MakeDocument | src/indexing/mineru_blocks.py:43-50 | the document keeps the text and the metadata keys, and every metadata value is a scalar |
| Blocks.ChunksToDocuments | src/indexing/mineru_blocks.py:53-58 | one document per chunk, in order, each make_document of the chunk's text and metadata |
| Blocks.ChunkDocumentsKeepIds | src/indexing/mineru_blocks.py:53-58 | the documents of chunked markdown keep each chunk's non-empty text and its chunk_id, with flat metadata |
| Blocks.DictItems | src/indexing/mineru_blocks.py:97 | never more blocks than list items |
| Blocks.DictItemsExactly | src/indexing/mineru_blocks.py:97 | exactly the dict items of the list are kept |
| Blocks.LoadContentListBlocks | src/indexing/mineru_blocks.py:90-100 | no blocks without a content-list file or when it does not read as a list; otherwise exactly its dict items |
| Blocks.ReplaceNbsp | src/indexing/mineru_blocks.py:63 | every non-breaking space becomes a space and nothing else changes |
| Blocks.NormText | src/indexing/mineru_blocks.py:61-65 | normalised text is lower-cased and its only whitespace is the plain space |
| Blocks.WordsKeep | src/indexing/mineru_blocks.py:64 | the words of a text keep the properties of its characters |
| Blocks.JoinKeep | src/indexing/mineru_blocks.py:64 | folded words joined by single spaces make normalised text |
| Blocks.WordsOfJoin | src/indexing/mineru_blocks.py:64 | splitting words joined by single spaces gives back those words |
| Blocks.WordsOfWord | src/indexing/mineru_blocks.py:64 | a word followed by whitespace is split off whole |
| Blocks.PrefixLength | src/indexing/mineru_blocks.py:64 | the non-space prefix of a word followed by the rest is the word |
| Blocks.NormTextIdempotent | src/indexing/mineru_blocks.py:61-65 | normalising normalised text changes nothing |
| Blocks.PageOf | src/indexing/mineru_blocks.py:233-234 | a page is the block's page_idx when that is an int, else None |
| Blocks.BboxOf | src/indexing/mineru_blocks.py:235 | a bbox is the block's bbox when that is a list, else None |
| Blocks.HtmlToText | src/indexing/mineru_blocks.py:68-71 | blank HTML has no text |
| Blocks.BlockTexts | src/indexing/mineru_blocks.py:111-112 | one normalised text per block |
| Blocks.OffsetPrefix | src/indexing/mineru_blocks.py:110-117 | appending parts moves no earlier offset |
| Blocks.OffsetsExtend | src/indexing/mineru_blocks.py:113-117 | one more part moves no offset |
| Blocks.OffsetFront | src/indexing/mineru_blocks.py:110-117 | each offset is the first part's length plus one plus the offset in the rest |
| Blocks.PartAtOffset | src/indexing/mineru_blocks.py:113-119 | each part sits at its offset in the joined text |
| Blocks.OffsetsIncrease | src/indexing/mineru_blocks.py:113-117 | offsets strictly increase |
| Blocks.Starts | src/indexing/mineru_blocks.py:113 | the start of every part is its offset in the joined text |
| Blocks.StartsIncrease | src/indexing/mineru_blocks.py:113-117 | the starts strictly increase, as bisection needs |
| Blocks.IndexedStep | src/indexing/mineru_blocks.py:113-117 | one more part keeps the starts at the offsets |
| Blocks.SpannedStep | src/indexing/mineru_blocks.py:116 | one more part keeps each span over its part's text |
| Blocks.IndexTexts | src/indexing/mineru_blocks.py:106-119 | the loop returns the texts joined by newlines, their offsets and their spans |
| Blocks.BuildBlockTextIndex | src/indexing/mineru_blocks.py:103-119 | the index is the normalised block texts joined by newlines, with their start offsets and spans |
| Blocks.IndexFacts | src/indexing/mineru_blocks.py:103-119 | each block's text sits at its start in the joined text, and the next block starts one past its end |
| Blocks.BisectRight | src/indexing/mineru_blocks.py:125 | the split point has every element at most x before it and every element above x after it |
| Blocks.BlockAt | src/indexing/mineru_blocks.py:122-128 | a block found is an index of the starts |
| Blocks.BlockAtGreatest | src/indexing/mineru_blocks.py:122-128 | the block found is the last one starting at or before i; none for a negative i or when all start after it |
| Blocks.IndexToBlockIdx | src/indexing/mineru_blocks.py:122-128 | the bisection returns BlockAt of the position |
| Blocks.BlockAtIs | src/indexing/mineru_blocks.py:125-128 | the last start at or before i is the block found |
| Blocks.BlockAtNone | src/indexing/mineru_blocks.py:126-127 | no block is found when every block starts after i |
| Blocks.BlockAtSpan | src/indexing/mineru_blocks.py:122-128 | a position inside a block's span maps back to that block |
| Blocks.FirstProbe | src/indexing/mineru_blocks.py:142 | the first probe is the first 200 characters, or the whole text |
| Blocks.LastProbe | src/indexing/mineru_blocks.py:143 | the last probe is the last 200 characters, or the whole text |
| Blocks.PageNumbers | src/indexing/mineru_blocks.py:164-165 | no more pages than blocks in the span |
| Blocks.MinOf | src/indexing/mineru_blocks.py:181 | the least element of a non-empty list |
| Blocks.MaxOf | src/indexing/mineru_blocks.py:182 | the greatest element of a non-empty list |
| Blocks.ImageOf | src/indexing/mineru_blocks.py:175-177 | at most one image path, non-empty and stripped |
| Blocks.ImagePaths | src/indexing/mineru_blocks.py:173-177 | every image path gathered is non-empty and stripped |
| Blocks.CollectImagePaths | src/indexing/mineru_blocks.py:173-177 | the loop gathers ImagePaths of the span |
| Blocks.StrList | src/indexing/mineru_blocks.py:183-185 | one string value per string |
| Blocks.BlockMetaKeys | src/indexing/mineru_blocks.py:179-185 | enrichment adds the block bounds, pages and types, and img_paths only when there are image paths; every other key is kept |
| Blocks.BlockMetaPages | src/indexing/mineru_blocks.py:181-182 | page_start and page_end are the least and greatest integer page, or both None |
| Blocks.BlockMetaLists | src/indexing/mineru_blocks.py:166-185 | block_types holds the distinct types, sorted; img_paths the distinct paths, sorted |
| Blocks.WriteBlockMeta | src/indexing/mineru_blocks.py:162-185 | the metadata writes produce EnrichedMeta of the span |
| Blocks.ProbeRange | src/indexing/mineru_blocks.py:144-161 | a found range is ordered and inside the blocks |
| Blocks.ChunkRange | src/indexing/mineru_blocks.py:138-161 | a found range is ordered and inside the blocks |
| Blocks.FindChunkRange | src/indexing/mineru_blocks.py:138-161 | the probe search returns ChunkRange of the chunk text |
| Blocks.EnrichedFound | src/indexing/mineru_blocks.py:160-185 | a chunk found in a range gets exactly that range's metadata |
| Blocks.EnrichChunk | src/indexing/mineru_blocks.py:138-185 | one chunk becomes Enriched of it |
| Blocks.ShortChunkUntouched | src/indexing/mineru_blocks.py:142-151 | a chunk whose normalised text is shorter than 30 characters is left as it is |
| Blocks.UnfoundChunkUntouched | src/indexing/mineru_blocks.py:144-151 | a chunk neither of whose probes occurs in the block text is left as it is |
| Blocks.EnrichedRange | src/indexing/mineru_blocks.py:160-180 | only the metadata changes, and a changed chunk records an ordered block range inside the blocks |
| Blocks.EnrichEach | src/indexing/mineru_blocks.py:137-185 | every chunk of the array is replaced by its enriched form |
| Blocks.EnrichChunksWithBlocks | src/indexing/mineru_blocks.py:131-185 | without blocks nothing changes; otherwise every chunk is enriched against the index of the blocks |
| BlockTables.CellCap | src/indexing/mineru_blocks.py:199 | a set, non-empty FRA_TABLE_CELL_CAP is read as an int, None standing for the ValueError |
| BlockTables.CellsDisabledByDefault | src/indexing/mineru_blocks.py:195-198 | without FRA_TABLE_CELL_INDEX no cell documents are enabled |
| BlockTables.CellCapDefault | src/indexing/mineru_blocks.py:199 | an unset or empty FRA_TABLE_CELL_CAP gives 2000 |
| BlockTables.KeptRows | src/indexing/mineru_blocks.py:223 | exactly the rows with a non-blank cell are kept |
| BlockTables.StripAll | src/indexing/mineru_blocks.py:230 | every header cell stripped, one for one |
| BlockTables.BodyRows | src/indexing/mineru_blocks.py:227-231 | with at least two kept rows the body drops the header row; otherwise it is every row |
| BlockTables.HeaderFor | src/indexing/mineru_blocks.py:242-283 | the header of a column is never empty: the header cell when non-empty, else col_<n> |
| BlockTables.Pairs | src/indexing/mineru_blocks.py:240-246 | no more pairs than cells |
| BlockTables.NonBlankCells | src/indexing/mineru_blocks.py:251 | exactly the non-blank cells are kept |
| BlockTables.RowPairs | src/indexing/mineru_blocks.py:240-246 | the cell loop produces Pairs of the row |
| BlockTables.PairsNonEmpty | src/indexing/mineru_blocks.py:244-246 | a non-blank cell gives a pair |
| BlockTables.JoinStartsWith | src/indexing/mineru_blocks.py:249 | a join starts with its first part |
| BlockTables.NotBlankAt | src/indexing/mineru_blocks.py:253 | a text with a non-space character strips to something non-empty |
| BlockTables.RowTextOfKeptRow | src/indexing/mineru_blocks.py:239-255 | every kept row has pairs and a non-empty row text, so the fallback join and the skip never apply |
| BlockTables.PairsHead | src/indexing/mineru_blocks.py:240-249 | the first pair is header: value of some non-blank column |
| BlockTables.NonBlankMap | src/indexing/mineru_blocks.py:275-278 | no more cell documents than cells |
| BlockTables.TableOf | src/indexing/mineru_blocks.py:202-225 | a table block yields a non-empty list of rows, each with a non-blank cell |
| BlockTables.TableDocuments | src/indexing/mineru_blocks.py:188-306 | an error exactly when FRA_TABLE_CELL_CAP is not an int |
| BlockTables.EmitCells | src/indexing/mineru_blocks.py:274-304 | the cell loop of one row produces CellsStep |
| BlockTables.EmitNonBlank | src/indexing/mineru_blocks.py:275-304 | the loop appends the documents of the non-blank cells and stops at the cap |
| BlockTables.CappedAt | src/indexing/mineru_blocks.py:302-304 | when the documents up to a column reach the cap, they are all that is added |
| BlockTables.NonBlankMapPrefix | src/indexing/mineru_blocks.py:275-278 | the documents of the first columns are a prefix of those of the whole row |
| BlockTables.EmitRows | src/indexing/mineru_blocks.py:239-304 | the row loop produces RowsAcc of the body |
| BlockTables.EmitTable | src/indexing/mineru_blocks.py:202-304 | one block of the loop produces BlockStep |
| BlockTables.TableDocumentsFromBlocks | src/indexing/mineru_blocks.py:188-306 | the method returns TableDocuments of the blocks and environment |
| BlockTables.CellCount | src/indexing/mineru_blocks.py:200-302 | the cell count never exceeds the document count |
| BlockTables.CellCountAppend | src/indexing/mineru_blocks.py:302 | cell counts add up over concatenation |
| BlockTables.CellCountAll | src/indexing/mineru_blocks.py:302 | a list of cell documents counts all of them |
| BlockTables.NonBlankMapAll | src/indexing/mineru_blocks.py:275-301 | a maker of cell documents yields only cell documents |
| BlockTables.CellDocIsCell | src/indexing/mineru_blocks.py:284-301 | a cell document is marked mineru_table_cell |
| BlockTables.CellDocsAreCells | src/indexing/mineru_blocks.py:275-301 | every document of a row's cell loop is a cell document |
| BlockTables.RowDocIsNoCell | src/indexing/mineru_blocks.py:257-271 | a row document is not a cell document |
| BlockTables.CappedCounted | src/indexing/mineru_blocks.py:274-304 | the counter equals the cell documents emitted and never exceeds the cap |
| BlockTables.RowDocCounted | src/indexing/mineru_blocks.py:268-272 | a row document leaves the cell count as it is |
| BlockTables.RowStepCounted | src/indexing/mineru_blocks.py:239-304 | one row keeps the counter equal to the cell documents; without cells it stays put |
| BlockTables.RowsAccCounted | src/indexing/mineru_blocks.py:239-304 | the rows of a table keep the counter equal to the cell documents |
| BlockTables.BlocksAccCounted | src/indexing/mineru_blocks.py:202-304 | all blocks keep the counter equal to the cell documents; none without cells |
| BlockTables.TableCellCap | src/indexing/mineru_blocks.py:195-304 | a call emits at most max(cap, 0) cell documents, and none when the cell index is off |
| BlockTables.EveryRowDocumented | src/indexing/mineru_blocks.py:239-272 | every kept body row gets its row document, before any of its cell documents |
| BlockImages.ImagePathOf | src/indexing/mineru_blocks.py:317-319 | a usable image path is the block's img_path, a str that is not blank |
| BlockImages.CheckNeighbour | src/indexing/mineru_blocks.py:342-351 | one turn of the neighbour loop keeps block j exactly when it is another block, on the image's page when that is known, of type text and with non-blank text, which it keeps stripped |
| BlockImages.NonBlankParts | src/indexing/mineru_blocks.py:353-354 | exactly the non-blank parts are kept |
| BlockImages.Somes | src/indexing/mineru_blocks.py:316-374 | never more documents than blocks |
| BlockImages.CollectNeighbours | src/indexing/mineru_blocks.py:340-351 | the neighbour loop returns the stripped texts of the neighbours in the window, in order |
| BlockImages.EmitImage | src/indexing/mineru_blocks.py:316-374 | one block of the loop produces ImageDoc of it |
| BlockImages.ImageDocumentsWith | src/indexing/mineru_blocks.py:314-376 | the loop returns the documents of the blocks that have one, in order |
| BlockImages.ImageDocumentsFromBlocks | src/indexing/mineru_blocks.py:309-376 | the method returns ImageDocuments of the blocks |
| BlockImages.NeighbourTextsExactly | src/indexing/mineru_blocks.py:341-351 | a neighbour text is exactly the stripped, non-empty text of a text block in the window, other than the image, on the image's page when it has one |
| BlockImages.WindowReach | src/indexing/mineru_blocks.py:341-343 | a neighbour is another block at most two blocks from the image |
| BlockImages.WindowCovers | src/indexing/mineru_blocks.py:341 | every block within two of the image is in the window |
| BlockImages.ImageDocFacts | src/indexing/mineru_blocks.py:316-374 | a document comes from a non-blank str img_path; its text is the image prefix and a non-empty context; its metadata names the block index, the kind and the stripped path |
| BlockImages.NoImageDoc | src/indexing/mineru_blocks.py:317-357 | a block without a usable image path or with an empty context gives no document |
| BlockImages.SomesFrom | src/indexing/mineru_blocks.py:316-374 | every document comes from one position |
| BlockImages.ImageDocsFrom | src/indexing/mineru_blocks.py:316-374 | every image document is the document of one of the blocks |
| Auth.Sextet | src/auth.py:15 | a base64url digit has a value below 64 and is an ASCII character other than "=", "." and whitespace |
| Auth.SextetOfEncodeChar | src/auth.py:11-15 | decoding the digit of a 6-bit value gives that value back |
| Auth.Pads | src/auth.py:14 | n "=" characters |
| Auth.EncodeDataDigits | src/auth.py:11 | the unpadded encoding has only base64url digits, 4 per 3 bytes plus the partial group |
| Auth.UrlEncode | src/auth.py:10-11 | stripping the padding leaves the unpadded digits: no "=" and only base64url digits |
| Auth.StripPads | src/auth.py:11 | rstrip of "=" removes exactly the padding |
| Auth.UrlDecode | src/auth.py:13-15 | a non-ASCII text is refused as .encode("ascii") refuses it |
| Auth.DecodeGroup | src/auth.py:15 | decoding a group of four digits yields its three bytes |
| Auth.DecodeTwo | src/auth.py:15 | the padded encoding of two bytes decodes to them |
| Auth.DecodeOne | src/auth.py:15 | the padded encoding of one byte decodes to it |
| Auth.DecodeData | src/auth.py:15 | the padded encoding of any bytes decodes to them |
| Auth.UrlRoundTrip | src/auth.py:10-15 | decoding undoes encoding for every byte string |
| Auth.PadsRestored | src/auth.py:14 | the padding _b64url_decode adds back is exactly the padding the encoder stripped |
| Auth.AsciiEncode | src/auth.py:21-30 | the ASCII bytes exist exactly for an ASCII text and are its code points |
| Auth.HeaderPart | src/auth.py:18-19 | the encoded header is 36 base64url digits with no "." |
| Auth.UrlDigitsAscii | src/auth.py:21 | base64url text is ASCII |
| Auth.JwtDecode | src/auth.py:25-29 | a token that does not split into three parts is an invalid token |
| Auth.JwtEncode | src/auth.py:17-23 | the token has three dot-separated parts: the fixed HS256 header and a payload part that decodes to the payload's JSON |
| Auth.CheckPayload | src/auth.py:35-39 | an accepted payload is not expired |
| Auth.SignedCompact | src/auth.py:25-39 | a well-signed three-part token is judged by its payload alone |
| Auth.EncodeParts | src/auth.py:17-23 | a token is three dot-free parts: the header, the encoded payload and the encoded HMAC over the first two |
| Auth.SignatureCheckedFirst | src/auth.py:30-34 | a three-part token whose signature does not match is refused as a bad signature, whatever its payload |
| Auth.CompactSplit | src/auth.py:23-27 | splitting header.payload.signature on "." gives its three parts |
| Auth.JwtRoundTrip | src/auth.py:17-39 | a token that has not expired decodes to the payload it was made from |
| Auth.JwtExpires | src/auth.py:36-38 | an integer exp in the past makes a correctly signed token expire |
| Auth.CurrentUser | src/auth.py:41-55 | a missing header is refused as missing; every refusal is a 401; an accepted subject is non-empty |
| Auth.BearerToken | src/auth.py:47 | the text after the scheme and one space is the token |
| Auth.BearerAccepted | src/auth.py:41-55 | a fresh token for a non-empty subject, sent with any casing of Bearer, authenticates that subject |
| Auth.TokenStripped | src/auth.py:47 | a token has no surrounding whitespace |
| History.Record | src/history.py:10 | the record holds every field of the event, plus ts set to now unless the event has its own |
| History.LastNewline | src/history.py:30 | rpartition splits at the last newline: none follows it |
| History.LastBelow | src/history.py:29-30 | the last newline below e, or -1 |
| History.LastBelowFacts | src/history.py:29-30 | what is found is a newline, and none follows it below e; -1 means there is none |
| History.LastBelowUnique | src/history.py:29-30 | a newline with none after it below e is the one found |
| History.LinesPrefix | src/history.py:24-40 | the lines of a prefix depend on those bytes alone |
| History.Reversed | src/history.py:24-40 | reversal keeps the length |
| History.NewestFirstSnoc | src/history.py:11-40 | appending one record line puts it first in the newest-first order |
| History.TrailingNewline | src/history.py:32 | a newline at the very end adds no line |
| History.LinesExtended | src/history.py:11-12 | bytes written later do not change the lines of an earlier prefix |
| History.RecordLine | src/history.py:12-30 | the record just appended is the text after the file's second-to-last newline |
| History.CutStep | src/history.py:25-30 | the buffer is the unread slice of the file, and it holds a newline exactly when one lies in that slice |
| History.LinesCut | src/history.py:30-34 | taking the line after a newline moves it from the unread part to the collected lines |
| History.CutLast | src/history.py:30-36 | one rpartition turn shortens the buffer to the text before its last newline and moves the text after it, when not empty, to the collected lines, keeping collected lines + unread lines unchanged |
| History.LeadingFragment | src/history.py:24-40 | after the block loop the collected lines are a prefix of the file's lines newest first, and all of them when fewer than limit were collected |
| History.NewestFirstOfFile | src/history.py:7-40 | a file written only by append_history yields its records newest first, one per line |
| History.CutLines | src/history.py:29-38 | the inner loop moves whole lines from the buffer to the list and stops at the limit or when no newline is left |
| History.HistoryFile.constructor | src/history.py:16 | a history file starts absent and empty |
| History.HistoryFile.Append | src/history.py:7-12 | the file exists and gains the serialised record and a newline; nothing else changes |
| History.HistoryFile.ReadLines | src/history.py:18-40 | the lines read are a prefix of the file's lines newest first, none for a negative limit, at most limit + 1, and all of them when fewer than limit were read |
| History.HistoryFile.Read | src/history.py:14-51 | no file gives no events; otherwise the lines read are a prefix of the file's lines newest first (all of them when fewer than limit), the result is the parsed, keyed, sorted and cut events of those lines, and when the file has fewer than limit lines the events are exactly those of all its lines |
| History.ReadAll | src/history.py:41-51 | with fewer lines than limit, the events returned are exactly the parsed events, in some order |
| History.SortEvents | src/history.py:50 | sorting by ts keeps every event, as a multiset |
| History.InsertEvents | src/history.py:50 | inserting an entry adds exactly its event |
| History.FromLinesPrefix | src/history.py:41-49 | events parsed from a prefix of the lines come from the lines |
| History.StampedFromLines | src/history.py:41-50 | every event that survives parsing and keying is the object of a line |
| History.SortedEvents | src/history.py:50-51 | the sorted, cut list is newest first and holds only the parsed events |
| History.Parsed | src/history.py:41-49 | every event is the JSON of a stripped line, and there are no more events than lines |
| History.ParseLines | src/history.py:41-49 | the parsing loop returns Parsed of the lines |
| History.Stamped | src/history.py:50 | each event paired with its ts key; an error exactly when an event is not an object or its ts is not a str |
| History.Insert | src/history.py:50 | inserting keeps the list sorted newest first and adds exactly that entry |
| History.ConsDescending | src/history.py:50 | an entry not older than the rest can go first |
| History.InsertFirst | src/history.py:50 | an entry not older than any other goes first |
| History.InsertLater | src/history.py:50 | an older entry is placed after the head |
| History.SortByTs | src/history.py:50 | the result is sorted newest first and is a permutation of the input |
| History.Events | src/history.py:50-51 | the events in the order of their keyed pairs |
| History.Take | src/history.py:51 | a prefix of the list, limit long when there are that many |
| Config.CorsOrigins | src/config.py:40-41 | every configured CORS origin is non-empty, stripped of whitespace and free of commas |
| Config.CorsOriginsOfJoin | src/config.py:40-41 | a list of clean origins written comma-separated is read back unchanged |
| Config.DefaultCorsOrigins | src/config.py:40-41 | with FRA_CORS_ORIGINS unset the origins are the two local development servers on port 5173 |
| Config.DeviceResolved | src/config.py:44-48 | the device is lower case and never "auto"; "auto" (in any case) becomes "cuda" when CUDA is available and "cpu" otherwise; any other value is kept lower-cased; resolving twice changes nothing |
| Config.UseModelscopeIff | src/config.py:64 | use_modelscope holds exactly when FRA_USE_MODELSCOPE is "true" in some letter case; the default "True" enables it and "1" does not |
| Config.IntEnv | src/config.py:49 | an integer setting succeeds exactly when the variable's text (or its default) parses as an int, and otherwise fails naming that variable and text |
| Config.ReadNumbersErrors | src/config.py:49-63 | only a variable actually set can make get_settings fail, with its own text; with nothing set the integers are 0, 86400, 10485760, 10 and 24 |
| Config.ReadNumbersDefaults | src/config.py:49-63 | with nothing set the integers are 0, 86400, 10485760, 10 and 24 |
| Config.IntEnvRefusesSetOnly | src/config.py:49 | with an integer default only a variable actually set can fail, with its own unparsable text |
| Config.BuildNormalises | src/config.py:40-66 | built settings have clean CORS origins, an upper-case log level and a resolved lower-case device |
| Config.Build | src/config.py:38-66 | the five integers are the ones read; unless set, the history file and the log directory lie under the output root |
| Config.Load | src/config.py:33-67 | get_settings fails exactly when an integer variable fails to parse, naming a variable that is set and its unparsable text; otherwise the settings are built from the integers read |
| Config.LoadDefaults | src/config.py:38-67 | with an empty environment loading succeeds with the documented defaults (admin/admin, INFO, ModelScope on, 24-hour TTL, device by CUDA availability, output root "output") |
| Config.SettingsCache.constructor | src/config.py:31 | the settings slot starts empty |
| Config.SettingsCache.Get | src/config.py:33-37 | once settings are cached they are returned whatever the environment now says; otherwise they are loaded and kept only when loading succeeds |
| Gpu.Fields | src/utils/gpu.py:26 | a CSV line gives one field per comma-separated part, each stripped |
| Gpu.ParseLine | src/utils/gpu.py:26-42 | a line with fewer than three fields is skipped; a blank memory field raises; otherwise the entry carries the line's position, its stripped name and driver version |
| Gpu.Outcomes | src/utils/gpu.py:25-42 | each line's outcome is taken at its own position, one per line |
| Gpu.OutcomesWellIndexed | src/utils/gpu.py:25-42 | an entry parsed from the line at position i carries index i |
| Gpu.CollectSound | src/utils/gpu.py:25-42 | every collected entry is the one its own line gives, at that line's position, in increasing line order |
| Gpu.CollectComplete | src/utils/gpu.py:25-42 | every line that yields an entry appears in the collected list |
| Gpu.ParseLines | src/utils/gpu.py:23-44 | the loop over the stripped non-blank lines yields exactly the entries collected from their outcomes |
| Gpu.CollectOutcomes | src/utils/gpu.py:25-44 | the loop appends each entry, skips short lines and gives nothing once a line raised, as the collection states |
| Gpu.SmiInfo | src/utils/gpu.py:11-47 | the nvidia-smi GPU list is absent when the process failed, returned non-zero or printed nothing, and is non-empty when present |
| Gpu.QueryNvidiaSmi | src/utils/gpu.py:11-47 | the loop over the stripped non-blank lines computes exactly the nvidia-smi GPU list, losing it all when a memory field is blank |
| Gpu.CrashIsFinal | src/utils/gpu.py:13-46 | once a line raised, the whole nvidia-smi query yields nothing |
| Gpu.SmiInfoEntries | src/utils/gpu.py:23-44 | each reported GPU comes from a non-blank output line with at least three fields, at that line's index, in order, and no such line is missed |
| Gpu.CudaEntriesSound | src/utils/gpu.py:92-110 | the CUDA GPU list holds the devices whose properties could be read, each with its own index, memory in MiB and "major.minor" capability; it is non-empty when any device could be read |
| Gpu.ListCudaDevices | src/utils/gpu.py:92-110 | the loop over the device count lists exactly the readable devices, each under its own index |
| Gpu.GetGpuStatus | src/utils/gpu.py:50-141 | CUDA decides the device when available, MPS only without CUDA, otherwise "cpu"; backends list cuda then mps; the nvidia-smi list stands in for the GPUs only when torch listed none; the torch entry is torch's version exactly when torch is importable; the cuda entry holds cuda availability, the CUDA version when it is a non-empty string, and cuDNN availability; the rocm entry is the HIP version when that is a non-empty string |
| Gpu.SmiEntries | src/utils/gpu.py:131-133 | the nvidia-smi entries are taken over one for one, in order |
| Normalizer.Uncomma | src/db/normalizer.py:17 | removing commas leaves no comma and only characters of the input |
| Normalizer.FirstNumber | src/db/normalizer.py:18 | the number search finds the first position where a digit, or a minus sign before a digit, starts, and reports none only when there is no such position |
| Normalizer.RunEnd | src/db/normalizer.py:18 | the greedy run of digits and dots ends at a character that is neither, so the negative lookahead for a digit always holds |
| Normalizer.NumberToken | src/db/normalizer.py:18-20 | the matched token is a digit or a minus sign before a digit, followed by digits and dots; there is no match exactly when no position starts a number |
| Normalizer.ParseNumber | src/db/normalizer.py:16-24 | a text in which no position starts a number (after the commas are dropped) parses to nothing |
| Normalizer.ParseNumberNoDigits | src/db/normalizer.py:16-24 | a text without digits holds no number |
| Normalizer.CommasIgnored | src/db/normalizer.py:17 | a comma anywhere in the value text does not change the parsed number |
| Normalizer.ParseNumberOfNat | src/db/normalizer.py:16-24 | the decimal digits of a natural number, alone or after a minus sign, parse back to that number |
| Normalizer.FactOfLine | src/db/normalizer.py:105-123 | a line without ":" or "：" gives no fact; a fact has a non-empty stripped key and value text, the number parsed from its value text and the chunk's heading; with ":" present the key holds no ":" |
| Normalizer.FactOfLineRoundTrip | src/db/normalizer.py:105-123 | a line written "key: value" with a clean key and value gives exactly that key and value back |
| Normalizer.LineFacts | src/db/normalizer.py:104-124 | a chunk yields at most one fact per line, each coming from one of its lines |
| Normalizer.SourceHeading | src/db/normalizer.py:100-103 | a source heading exists only when the chunk's metadata holds a non-empty "headings" list |
| Normalizer.ChunkFacts | src/db/normalizer.py:96-124 | every collected fact is well formed: non-blank key and value text, value_num parsed from the value text |
| Normalizer.CollectFacts | src/db/normalizer.py:96-124 | the nested loop over chunks and lines collects exactly the facts of the chunks, in order |
| Normalizer.CollectLineFacts | src/db/normalizer.py:104-124 | the inner loop over one chunk's lines collects exactly the facts of those lines, in order |
| Normalizer.CompanyCode | src/db/normalizer.py:147 | the company code is the stripped given code, or "UNKNOWN" when it is missing or blank; it is never empty |
| Normalizer.Database.constructor | src/db/normalizer.py:11 | the companies, reports and facts tables start empty |
| Normalizer.Database.UpsertCompany | src/db/normalizer.py:27-36 | only the companies table changes, as the upsert function states |
| Normalizer.Database.Ingest | src/db/normalizer.py:39-126 | a job without auto output changes nothing and fails with that error; otherwise the company is upserted, the job's report row is written or replaced, and the job's facts are replaced by the fact rows of its markdown, other jobs untouched |
| Normalizer.Database.Store | src/db/normalizer.py:27-126 | a successful ingestion upserts the company, writes the job's report row and replaces only that job's facts by the fact rows of its markdown |
| Normalizer.Upserted | src/db/normalizer.py:27-36 | upserting adds the code and keeps every other company; a company that already has a name keeps it; a given non-empty name is always present afterwards |
| Normalizer.UpsertedIdempotent | src/db/normalizer.py:27-36 | upserting the same company twice is the same as upserting it once |
| Normalizer.MarkdownFacts | src/db/normalizer.py:91-124 | the chunks are the markdown's chunks at 800 characters without overlap, and the facts are those of the chunks |
| Normalizer.MarkdownFactsFacts | src/db/normalizer.py:96-124 | every fact of a markdown text is well formed, and its source heading is the list of heading titles in force when one of the markdown's sections was flushed, joined by " / ", or none when that list is empty |
| Normalizer.SourceHeadingOfChunk | src/db/normalizer.py:100-103 | a chunk's source heading is its heading titles joined by " / ", or none when it has none |
| Normalizer.ChunkFactsHeadings | src/db/normalizer.py:96-124 | every fact's source heading is the heading titles of one of the chunks, joined by " / ", or none when that chunk has none |
| Qa.LastThree | src/qa/service.py:28 | `hs[-3:]` is the last min(3, len) items |
| Qa.TitleParts | src/qa/service.py:28-30 | the title parts are the non-None items whose text is not blank |
| Qa.PickTitle | src/qa/service.py:25-32 | a title exists only for a non-empty "headings" list and is never empty |
| Qa.JoinPartsEmpty | src/qa/service.py:30-31 | the joined title is empty exactly when no heading part survives, so `t or None` gives None only then |
| Qa.PickTitleOfStrings | src/qa/service.py:25-32 | headings made of non-blank strings give their last three joined by " / " |
| Qa.FirstSet | src/qa/service.py:39-43 | `getenv(a) or getenv(b) or ...` yields a non-empty value of one of the variables, and nothing exactly when none is set non-empty |
| Qa.NormalizeProvider | src/qa/service.py:36 | the provider name is lower case and no longer than given |
| Qa.FirstSetPrefers | src/qa/service.py:39-43 | the earliest variable set to a non-empty value wins |
| Qa.KeyVariables | src/qa/service.py:35-60 | every provider's key search ends with FRA_LLM_API_KEY |
| Qa.ResolveApiKey | src/qa/service.py:35-60 | the API key is the first provider-specific variable set, and the provider's own "Missing API key" error when none is |
| Qa.ApiKeyFallback | src/qa/service.py:42-59 | FRA_LLM_API_KEY always yields a key, and is the key for providers other than the qwen family and openai |
| Qa.DashscopeKeyFirst | src/qa/service.py:38-47 | DASHSCOPE_API_KEY wins for qwen, dashscope and aliyun |
| Qa.ResolveBaseUrl | src/qa/service.py:63-71 | an explicit base URL is used, stripped of whitespace and backticks; otherwise the DashScope endpoint for the qwen family, else none |
| Qa.StripTicks | src/qa/service.py:65 | the result neither starts nor ends with a backtick |
| Qa.BaseUrlUnquoted | src/qa/service.py:64-65 | a URL wrapped in backticks and spaces resolves to the bare URL |
| Qa.InfoDict | src/qa/service.py:142-149 | the per-job file record has exactly the six keys, with the report id and file name |
| Qa.FileInfoOf | src/qa/service.py:144 | the file name is the last path component of the markdown path |
| Qa.FilesOfFacts | src/qa/service.py:141-149 | every looked-up job is in the file map, holding its last row |
| Qa.BuildFileMap | src/qa/service.py:141-149 | the loop builds exactly the file map of the rows |
| Qa.FoundJobIds | src/qa/service.py:163-165 | the job ids to look up are sorted, distinct, non-empty and exactly those of the results |
| Qa.NonEmptyOnly | src/qa/service.py:165 | dropping empty ids keeps order and every other id |
| Qa.SourceTitle | src/qa/service.py:202-203 | the title joins the non-empty file name and heading title; it is absent only when both are |
| Qa.LabelInjective | src/qa/service.py:219 | different result positions carry different [S<i>] labels |
| Qa.SourceOf | src/qa/service.py:192-220 | each source is a "chunk" with a stripped snippet, metadata merged with its job's file record when there is one, and a context block built from its label, title and snippet |
| Qa.BuildSources | src/qa/service.py:189-220 | one source and one context block per result, labelled from [S1] in result order |
| Qa.BlockLabelled | src/qa/service.py:219-220 | a context block starts with its label and ends with the snippet |
| Qa.UserPrompt | src/qa/service.py:103-104 | the user message starts with the strict flag as "true" or "false" and the question header, and ends with the context header and the stripped context blocks joined by blank lines |
| Qa.ReplyText | src/qa/service.py:116-117 | the answer is the stripped reply, or the "not enough data" sentence when the reply is empty or blank |
| Qa.AnswerQuestion | src/qa/service.py:189-237 | with no results the canned answer and no model call; otherwise one call with temperature 0.0 when strict, the normalised provider (default qwen) and a prompt holding the question and all context blocks; the answer is never empty |
| LogConfig.ParseBool | src/utils/logger/config_loader.py:33-41 | None gives the default; the listed true and false tokens (case and surrounding whitespace ignored) give true and false; anything else gives the default |
| LogConfig.ParseBoolCaseless | src/utils/logger/config_loader.py:36 | an upper-cased flag reads the same as the original |
| LogConfig.StripUpper | src/utils/logger/config_loader.py:36 | stripping and changing case commute |
| LogConfig.ParseBoolPadded | src/utils/logger/config_loader.py:36 | leading whitespace does not change a flag |
| LogConfig.Suffix | src/utils/logger/config_loader.py:45 | a file suffix is empty or starts with a dot |
| LogConfig.FormatOf | src/utils/logger/config_loader.py:48-63 | a parser exists exactly for .json, .yaml, .yml and .toml |
| LogConfig.Shape | src/utils/logger/config_loader.py:65-69 | a configuration with a `logging` object is kept as is; a bare dictConfig with version, handlers and root is wrapped as version 1 of the python adapter; anything else is refused; an accepted result always has a `logging` object |
| LogConfig.LoadConfigFile | src/utils/logger/config_loader.py:44-69 | an unknown suffix is refused naming it; a loaded configuration comes from a known suffix whose parser succeeded; an object root is shaped as above; a YAML or TOML root that is not an object is refused with the source's message; a JSON root goes through the unchecked shape test below |
| LogConfig.JsonShape | src/utils/logger/config_loader.py:48-69 | an object root is shaped as above; a list root loads exactly when it holds "version", "handlers" and "root" but not "logging", a string root exactly when it contains those words but not "logging", and either is then wrapped as a bare dictConfig; any other root fails |
| LogConfig.NonObjectRootFallsBack | src/utils/logger/config_loader.py:242-256 | a parsed root that is not an object always leads init_logging to the built-in configuration |
| LogConfig.ValidateConfig | src/utils/logger/config_loader.py:72-95 | the configuration is accepted exactly when the version is a positive int, the adapter is known, and `logging` is an object of version 1 with object root and handlers and a known root level |
| LogConfig.WrappedValid | src/utils/logger/config_loader.py:65-95 | a wrapped bare dictConfig is valid exactly when its own version, root, handlers and level are |
| LogConfig.IntOverride | src/utils/logger/config_loader.py:135-144 | an integer override replaces only its key, and only when it applies and int() accepts the text; otherwise the handler is unchanged |
| LogConfig.Moved | src/utils/logger/config_loader.py:128-132 | a relative handler file name is replaced by the absolute, resolved name of its base name in the log directory; an absolute one and every other entry are kept |
| LogConfig.InLogDir | src/utils/logger/config_loader.py:132 | the moved file name is always absolute |
| LogConfig.InLogDirParts | src/utils/logger/config_loader.py:132 | the moved name reads back as the log directory plus the base name; an empty base name gives the directory and ".." its parent |
| LogConfig.MovedIdempotent | src/utils/logger/config_loader.py:128-132 | moving a handler twice is moving it once |
| LogConfig.LogDirAgainstCwd | src/utils/logger/config_loader.py:114 | a set but empty FRA_LOG_DIR names the working directory, and a relative one without ".." a directory below it |
| Api.ResolvedNamed | src/utils/logger/config_loader.py:114 | resolving against a directory of plain names gives plain names, and the empty path resolves to the directory itself |
| Api.WalkNamed | src/utils/logger/config_loader.py:132 | resolving cleaned components from plain names gives plain names |
| Api.PathText | src/utils/logger/config_loader.py:132 | str() of a resolved path starts with the separator |
| Api.PartsOfPathText | src/utils/logger/config_loader.py:132 | the text of a resolved path reads back as its components |
| LogConfig.OverrideNonRotating | src/utils/logger/config_loader.py:123-146 | a handler that is not a rotating file handler only has its file name moved |
| LogConfig.OverrideRotating | src/utils/logger/config_loader.py:134-144 | on a rotating file handler integer overrides set maxBytes and backupCount and leave the other entries as moved |
| LogConfig.OverrideNotInteger | src/utils/logger/config_loader.py:136-144 | override values that int() refuses leave the handler's own values |
| LogConfig.TimedIsRotating | src/utils/logger/config_loader.py:135-140 | a TimedRotatingFileHandler class also ends in RotatingFileHandler, so it receives maxBytes too and the second test of the backupCount condition adds nothing |
| LogConfig.OverrideAll | src/utils/logger/config_loader.py:120-146 | the overridden handlers have the same names |
| LogConfig.OverrideRoot | src/utils/logger/config_loader.py:107-112 | a non-empty FRA_LOG_LEVEL sets the root level, stripped and upper-cased; otherwise the root is unchanged |
| LogConfig.Overridden | src/utils/logger/config_loader.py:102-148 | the overrides change only the `logging` entry and keep it overridable |
| LogConfig.OverriddenFacts | src/utils/logger/config_loader.py:102-148 | every other `logging` entry and every other root entry is kept, and the same handlers are named |
| LogConfig.OverriddenValid | src/utils/logger/config_loader.py:102-148 | a valid configuration stays valid after the overrides when FRA_LOG_LEVEL is unset or names a known level |
| LogConfig.ApplyEnvOverrides | src/utils/logger/config_loader.py:102-148 | the copy it returns is exactly the overridden configuration |
| LogConfig.OverrideHandlers | src/utils/logger/config_loader.py:123-146 | the loop over handler names overrides every handler |
| LogConfig.OverrideOne | src/utils/logger/config_loader.py:124-146 | the loop body overrides one handler as the override function states; non-object handlers are kept |
| LogConfig.MoveFile | src/utils/logger/config_loader.py:128-132 | a relative filename becomes the resolved, absolute name of its base name in the log directory; an absolute one and every other entry are kept |
| LogConfig.SetInt | src/utils/logger/config_loader.py:135-144 | the key is set to int(text) only when the override is set, applies to the class and int() accepts the text; otherwise the handler is unchanged |
| LogConfig.DefaultDict | src/utils/logger/config_loader.py:159-201 | the built-in configuration has a `logging` object with object root and handlers |
| LogConfig.DefaultConfig | src/utils/logger/config_loader.py:151-201 | building the built-in configuration fails exactly when FRA_LOG_MAX_BYTES or FRA_LOG_BACKUP_COUNT is not an integer |
| LogConfig.DefaultConfigOfEmptyEnv | src/utils/logger/config_loader.py:151-201 | with no variables set the built-in configuration uses the default directory resolved against the working directory, INFO, 10485760 bytes and 10 backups |
| LogConfig.DefaultDictValid | src/utils/logger/config_loader.py:151-201 | the built-in configuration passes validation whenever its level is a known one |
| LogConfig.DefaultDictFiles | src/utils/logger/config_loader.py:175-192 | the built-in file handlers write fra.log and fra-access.log directly inside the resolved log directory |
| LogConfig.ProfilePath | src/utils/logger/config_loader.py:227-233 | the first of the profile's files that exists, in extension order, else its .json file |
| LogConfig.ConfigPath | src/utils/logger/config_loader.py:222-225 | an explicit path (argument, else FRA_LOG_CONFIG_PATH) wins |
| LogConfig.ResolveConfigPath | src/utils/logger/config_loader.py:222-233 | the loop over .json, .yaml, .yml and .toml finds exactly the configured path |
| LogConfig.ChosenConfig | src/utils/logger/config_loader.py:242-254 | an existing file that loads and validates is used; anything else falls back to the built-in configuration |
| LogConfig.InitLogging | src/utils/logger/config_loader.py:236-263 | init_logging fails only when the built-in configuration fails; whenever a configuration is chosen, it is the one applied after the environment overrides; the manager watches the file only when it exists and FRA_LOG_HOT_RELOAD (default true) allows it |
| LogConfig.InitLoggingFallsBack | src/utils/logger/config_loader.py:242-256 | a missing, unparsable or invalid file with no variables set gives the overridden built-in configuration |

## Left out

- Threads, `_JOBS_LOCK`, the hot-reload watcher (src/utils/logger/config_loader.py:259-284) and the periodic cleanup loop: each operation is modelled as atomic and the concurrency itself is not modelled.
- Subprocess spawning, its environment and timeouts (src/jobs.py:82-95, src/converter.py:30-43): a run is the lines it prints and its exit code, or "not found".
- The file system (rglob, stat, resolve with symlinks, rmtree, copy, zip, reading and writing files): these are lists of path and mtime records and existence predicates. A deletion is the removal of a record, and writes are returned values.
- HMAC-SHA256, JSON, YAML and TOML parsing and serialisation, and BeautifulSoup HTML parsing: these are function parameters with no properties assumed beyond the ones each lemma requires.
- SQLAlchemy, SQLite and Chroma: the database is an in-memory class holding the companies, reports and facts tables. The vector search and the report lookup of the QA service are parameters.
- The LLM client call and the writing of the QA question and answer rows (src/qa/service.py:85-117, 239-259): the model's reply is a parameter. The database write after answering is not modelled, because its failure is swallowed and it does not affect the response.
- `find_pdfs` (src/converter.py:12-13): a directory glob with no logic of its own.
- `job_result`, `job_auto_bundle`, `job_pdf` and the other HTTP endpoints of src/api.py beyond the ones in the table: they are file serving and zip building over the file system.
- FastAPI/SSE transport, real timeouts and wall-clock time: the 15-second wait is modelled as one look at the queue, and an empty queue gives a keepalive.
- elapsed_ms in job logs and events: it is wall-clock arithmetic.
- `QaConfig` float and integer parsing of the LLM settings, and the float interval of the reload watcher: only the provider and temperature that reach the request are modelled.
- Runner.MapPercent: the source computes `int((pct/100.0)*span)` in floating point, and the model uses the integer `pct*span/100` truncated toward zero. For the only call site, span 80, both agree for every percent 0-999.
- Normalizer.ParseNumber: float() is modelled over exact reals, so rounding to double precision is not captured.
- Text.Lower and Text.Upper change ASCII letters only, and `\d` in the patterns is the ASCII digits. Python's Unicode case mapping and Unicode digits are not modelled.
- Text.ParseInt: Python's int() also accepts underscores between digits, which the model refuses.
- History.HistoryFile.Read: an event whose "ts" is not a string is modelled as the error TsNotText. Python fails only when such a value is compared with a string while sorting.
- Chunking.ChunkMarkdown and Chunking.ChunksFromMarkdownFile require maxChars > 0 and overlap < maxChars, because the source's window loop may not terminate otherwise.
- Blocks.IndexToBlockIdx requires strictly increasing starts, which the block text index always produces.
- Runner.RunCmdStream: `step` is a parameter holding the already-parsed value of FRA_PROGRESS_PERCENT_STEP (src/jobs.py:76). A value that int() refuses raises ValueError in the conversion thread, and nothing in `_convert_job` catches it, so the job keeps its last stage and gets no terminal event. That path is not modelled.
- Jobs.Registry.ConvertJob: tool runs are a map from command to run, so two equal commands in the attempt list see the same run. The explicit backend can repeat a default command; the source would start that process a second time, and the second run may differ.
- Jobs.Registry.ConvertJob returns the history record and the conversion.log text instead of writing them to files.
- LogConfig.ConfigPath: `expanduser().resolve()` of an explicit path is not modelled; the path is used as given.
- LogConfig.MoveFile / LogConfig.DefaultDict: `resolve()` is modelled lexically against the working directory, which is a parameter; symbolic links on the way are not followed. `_ensure_log_dir_exists` (src/utils/logger/config_loader.py:98) creates the directory as a side effect and is not modelled.
- Api.SpaCandidate: the disk is a set of files and directories with no symbolic links; a path that exists is not checked to have existing parent directories.
- LogConfig.InitLogging: `dictConfig` itself is not modelled. The model returns the configuration it would be given.
- Gpu.GetGpuStatus: the torch probes that raise are given already replaced by the source's fallback (False, or no devices), and `platform.system()` is a parameter.
- The `publish_event` stages are not sticky: a terminal stage can be overwritten by a later event, and no contract claims otherwise.
- With FRA_LOG_MAX_BYTES set, `_apply_env_overrides` also gives a TimedRotatingFileHandler a `maxBytes` entry, because its class name ends in "RotatingFileHandler" (LogConfig.TimedIsRotating). Whether dictConfig then refuses the handler depends on the logging library and is not modelled.

## Findings

| source | as written | input that shows it | evidently intended | confidence | as-written member | corrected member |
|---|---|---|---|---|---|---|
| src/api.py:668-670 | `static_dist_dir / full_path` is served whenever it names an existing file, and an absolute full_path or ".." components take it outside the static directory | the request path "//etc/passwd", whose full_path is "/etc/passwd" | only files inside the static directory are served | not executed | Api.SpaHandlerServesOutside | Api.SpaHandler |
| src/api.py:461-475 | the conversion thread calls `_convert_job` (src/jobs.py:129) with six positional arguments and eight keywords it has no parameters for, so the call raises TypeError in the thread and the job stays "queued" | any accepted upload that is not a dedup hit | the thread call binds to the parameters of `_convert_job` | not executed | Api.ThreadCallAsWritten | Api.StartConvert |
