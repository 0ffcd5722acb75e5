# ActivityWatch TSJ: a verified model of its protocols and arithmetic

The repository collects 1C business data, watches servers, and turns both into briefs and operator decisions. This
project models the parts of it that carry state, a protocol or arithmetic, and proves what they promise.

- **File ingest** (`Ingest*.dfy`). One cycle derives event files from landed documents, postings and audit files,
  loads every ready file into raw and then core tables, and archives it. A cycle is the sequence of its effects; a
  crash is any prefix of that sequence. The theorems are about every crash of every cycle (loads never run ahead,
  nothing leaves unloaded, what is lost and what is not), about complete cycles (conservation of rows), and about
  histories in which files arrive and age (exactly once without crashes, and at most once more per crash).
  `IngestCycle` is the imperative program; it is proved to leave exactly the state of that model.
- **Incremental extraction** (`EventLog.dfy`, `Windows.dfy`). Two cursor protocols that persist across runs. The
  event-log server is an oracle: all that is known of it is the contract `Answers`. The log may grow while a run pages.
- **Guardian bot** (`Incident*.dfy`, `Confirmation.dfy`, `LongMessage.dfy`, `Dlp*.dfy`).
  The failure quorum, incidents, paced healing, operator timeout, two-stage confirmations, message splitting and the
  DLP mode switch. The classes are proved step by step against state machines, and the theorems are about whole runs.
- **Portfolio analytics** (`Forecast.dfy`, `DailySeries.dfy`, `Brief*.dfy`, `WeeklyTrend.dfy`). Least squares and
  its projection, gap filling, the delta between two briefs, and the weekly report.
- **Address allocation** (`TunnelAllocator.dfy`), **rule log** (`RuleLog.dfy`), **check digits** (`CheckDigits.dfy`).

`Text.dfy`, `TextOrder.dfy`, `Options.dfy`, `Dictionaries.dfy` (insertion-ordered dictionaries) and `Collapsing.dfy`
(last-write-wins logs) hold what the others share.

Several properties that one would expect hold only under a condition; each is then given as an equivalence, for all
inputs:

- a cycle without archive directory and without deletion loads every non-empty file again in each cycle
  (`IngestExact.LoadedAgainIffNotRetired`), and one unreadable ready file stops the cycle
  (`IngestDerived.CompletesIff`);
- events left landed by a crash are written over, and lost, when another source file of the same stem arrives
  (`IngestDerived.ReachesCoreIff`, `IngestSafety.NothingLostIff`, `IngestDerived.NewNamesakeLosesEvents`); without such
  a file they survive every crash (`IngestDerived.EventsSurvive`);
- an event-log run that finds nothing in the second its cursor already points into forgets what it has of that second
  (`EventLog.EmptyRunKeepsPosition`, `EventLog.SameSecondRepeats`);
- windows that were answered but never saved can leave a gap before the first saved one when no start is configured
  (`Windows.UnsavedStartCoveredIff`);
- a pfSense change whose executor raises stays confirmed and can be applied again (`Confirmation.ExecutedAgainIff`);
- after a switch to enforcement the rules can still read as mixed or as monitoring (`DlpPolicy.EnforceReads`);
- the forecast stays behind the fitted trend by half a window (`Forecast.ProjectionLagsTrend`);
- an address allocation whose offset does not fit the block can leave the block (`TunnelAllocator.LeavesBlockIff`);
- more new cases can lower the significance of a change (`BriefDelta.MoreCasesLessSignificanceIff`);
- day-over-day differences do not add up to the week's after a day without summary (`WeeklyTrend.TelescopesIff`);
- a rule without an id whose signal type starts with white space is switched under another id (`RuleLog.SwitchedIdIff`);
- ten-digit tax numbers with control digit 0 have undetected errors and insurance numbers with checksum 00 can have one
  (`CheckDigits.TenIsProtectedIff`, `CheckDigits.SnilsIsProtectedIff`), while twelve-digit tax numbers have none
  (`CheckDigits.TwelveIsProtected`).

## Model

| member | source | states |
|---|---|---|
| IngestSafety.OrderlyCycle | adk-rust/crates/aw-1c-ingest/src/main.rs:406-469 | At every point of a cycle and for every non-empty file, core inserts never exceed raw inserts, and neither archiving nor leaving the landing directory exceeds core inserts. |
| IngestSafety.ConservedForever | adk-rust/crates/aw-1c-ingest/src/main.rs:144-151 | Over any sequence of cycles, each cut off anywhere and with any arrivals in between: core loads of a file never exceed its raw loads, and a non-empty archived file has at least one of each per archiving. |
| IngestSafety.LoadedOnlyAfterDerived | adk-rust/crates/aw-1c-ingest/src/main.rs:754-806 | A documents, postings or audit file is inserted, archived or removed only after the file derived from it was written in the same cycle with as many rows. |
| IngestSafety.BuildPlanComplete | adk-rust/crates/aw-1c-ingest/src/main.rs:754-806 | A completed derivation stage has written the derived file of every ready source file. |
| IngestSafety.NothingLost | adk-rust/crates/aw-1c-ingest/src/main.rs:406-469 | A ready non-empty file, of whatever name, that no ready source derives other rows onto is, after any prefix of a cycle, still landed unchanged or newly in the core tables. |
| IngestSafety.NothingLostIff | adk-rust/crates/aw-1c-ingest/src/main.rs:1012-1032 | That condition is exact: when derivation can run to its end, the file survives every cut of the cycle exactly if no ready source derives other rows onto it. |
| IngestSafety.NothingLostEver | adk-rust/crates/aw-1c-ingest/src/main.rs:144-151 | The same over any number of crashed cycles, while files only arrive and grow old enough in the landing directory and in no round a source derives other rows onto the file. |
| IngestDerived.EventsSurvive | adk-rust/crates/aw-1c-ingest/src/main.rs:754-806 | Over any history of crashed cycles, while files arrive and grow old enough, and as long as no ready source of its stem but the unchanged file itself is found, a documents, postings or audit file is landed itself, or the events derived from all its rows, by the rules of one of the cycles, are landed or in the core tables; so they are when the cycle stopped after the source was archived. |
| IngestDerived.ProgramEventsSurvive | adk-rust/crates/aw-1c-ingest/src/main.rs:1372-1378 | The same for the program's own enrichment, with cycles at any times: a blank timestamp reads as the time of its cycle. |
| IngestDerived.ReachesCoreIff | adk-rust/crates/aw-1c-ingest/src/main.rs:1012-1032 | A complete cycle adds a ready non-empty landed file, of whatever name, to the core tables exactly once if the last source that derives onto it derives the same rows or there is none, and otherwise not at all; it is then no longer landed either. |
| IngestDerived.BuiltAt | adk-rust/crates/aw-1c-ingest/src/main.rs:754-806 | Whatever was landed, a completed derivation leaves at a derived name what the last ready source of that name gave, in the order of file names, and every other path as it was. |
| IngestRows.EachRowIsDerived | adk-rust/crates/aw-1c-ingest/src/main.rs:754-806 | A completed derivation leaves at a derived name exactly one row per row of the last ready source of that name: row `i` is derived from row `i` of the source, with the indexes of what was landed. |
| IngestRows.LandedPosting | adk-rust/crates/aw-1c-ingest/src/main.rs:910-950 | With the program's rules, landed row `i` of a postings file carries the posting's own fields of row `i`; who and what it is about it takes from the last ready document row, in order of file names and rows, with its registrar as id, else with its number, and if there is neither, from the posting. |
| IngestRows.LandedDocument | adk-rust/crates/aw-1c-ingest/src/main.rs:872-908 | Landed row `i` of a documents file carries the fields of the document in row `i`. |
| IngestRows.LandedChange | adk-rust/crates/aw-1c-ingest/src/main.rs:952-985 | Landed row `i` of an audit file carries the change of audit row `i`, about the document found in the same way. |
| IngestRows.CompanyFollowsNewest | adk-rust/crates/aw-1c-ingest/src/main.rs:808-831 | The company index of a landing directory knows an infobase by the key of its ready company row with the greatest timestamp, the last one of equals in order of file names and rows. |
| IngestRows.UnmentionedIsUnknown | adk-rust/crates/aw-1c-ingest/src/main.rs:814-817 | It knows no infobase without a name and none that no ready company row mentions. |
| IngestDerived.NewNamesakeLosesEvents | adk-rust/crates/aw-1c-ingest/src/main.rs:1012-1032 | The file that is lost: events left by a crash, and a new source of the same name with another number of rows. The next cycle runs to its end and the events are neither loaded nor landed. |
| IngestSafety.CoreOnlyGrows | adk-rust/crates/aw-1c-ingest/src/main.rs:442-459 | No cycle, crashed or not, takes a load out of the core tables. |
| IngestDerived.CompletesIff | adk-rust/crates/aw-1c-ingest/src/main.rs:419-435 | What is landed before a cycle decides whether it runs to its end: exactly when no ready file that derivation reads is unreadable, and no ready file of its datasets is, except one that derivation writes over. An unreadable one among the files that derivation reads prevents every load of the cycle. |
| IngestExact.CompleteCycleLoadsOnce | adk-rust/crates/aw-1c-ingest/src/main.rs:406-469 | A completed cycle inserts each ready non-empty file of its datasets, derived ones included, exactly once, raw and core, and nothing else. |
| IngestExact.CompleteCycleLeaves | adk-rust/crates/aw-1c-ingest/src/main.rs:1217-1243 | A completed cycle that archives or deletes takes away exactly the ready files of its datasets, derived ones included, and leaves every other file as it was. |
| IngestExact.CompleteCycleArchives | adk-rust/crates/aw-1c-ingest/src/main.rs:1217-1243 | A completed cycle adds each ready file of its datasets, empty and derived ones included, to the archive exactly once if there is one, and nothing otherwise. |
| IngestExact.DatasetsOfCycle | adk-rust/crates/aw-1c-ingest/src/main.rs:406-418 | A cycle loads the one dataset that it is given, or all of them. |
| IngestHistory.ExactlyOnce | adk-rust/crates/aw-1c-ingest/src/main.rs:329-339 | Over any crash-free cycles that archive or delete (or are dry runs), each configured in its own way, while other files arrive, age, change and leave: a landed non-empty file that only the cycles touch and no source derives onto is loaded into the core tables exactly once if some cycle of its dataset finds it old enough, and not at all otherwise. |
| IngestHistory.OnceMorePerCrash | adk-rust/crates/aw-1c-ingest/src/main.rs:406-469 | Over any such cycles, crashed ones included, it is loaded at most once more than there are cycles that were cut off by a crash or an error. |
| IngestHistory.BoundIsAttained | adk-rust/crates/aw-1c-ingest/src/main.rs:442-459 | That bound is exact: for every number of crashes there is a history in which they come between loading and retiring the file, so that it is loaded once by each of them and once more. |
| IngestExact.OnceWithoutArrivals | adk-rust/crates/aw-1c-ingest/src/main.rs:144-151 | When nothing arrives or ages between them, any number of complete cycles with archive or deletion add each ready non-empty file, derived ones included, to the core tables exactly once, and nothing else. |
| IngestExact.OneCycleIsEnough | adk-rust/crates/aw-1c-ingest/src/main.rs:144-151 | Further complete cycles over the same landing directory change nothing after the first. |
| IngestExact.LoadedAgainIffNotRetired | adk-rust/crates/aw-1c-ingest/src/main.rs:1224-1241 | Two complete cycles insert a ready file whose name is not that of a derived file twice exactly when files are neither archived nor deleted, and once otherwise. |
| IngestTotals.DerivedWeight | adk-rust/crates/aw-1c-ingest/src/main.rs:1012-1032 | After the derivation stage a derived file has as many rows as the last ready source of its name, whatever was landed under that name before. |
| IngestTotals.BuiltTotal | adk-rust/crates/aw-1c-ingest/src/main.rs:754-806 | The rows landed for a dataset after derivation are those landed before, less the files that derivation wrote over, plus those of the last ready source of every derived name. |
| IngestTotals.RowConservation | adk-rust/crates/aw-1c-ingest/src/main.rs:406-469 | From every landing directory, also one that a crash left, a complete cycle adds to the core rows of a dataset exactly the ready rows landed in it, less those of files that derivation wrote over, plus the rows of the last ready source of every derived name. |
| IngestTotals.DistinctStemsConserve | adk-rust/crates/aw-1c-ingest/src/main.rs:406-469 | With distinct stems, core business events grow by exactly the ready document rows plus posting rows plus business-event rows landed before, less what was written over, which is nothing when no derived file was left; document changes likewise with audit rows. |
| Ingest.TargetInjective | adk-rust/crates/aw-1c-ingest/src/main.rs:1000-1010 | Two source files share a derived file name only if they are of one dataset and have the same stem. |
| Ingest.TargetIsNamedAfter | adk-rust/crates/aw-1c-ingest/src/main.rs:1000-1010 | The file derived from `base.extension` has the prefix of its dataset, then `base`, then `.jsonl`. |
| TextOrder.AtMostIff | adk-rust/crates/aw-1c-ingest/src/main.rs:325 | Texts are ordered by their first difference, a text after its own beginnings; so files are taken and timestamps compared. |
| IngestEvents.NewestIsNewest | adk-rust/crates/aw-1c-ingest/src/main.rs:808-831 | The company index holds, for each infobase, the entity key of the sighting with the greatest normalised timestamp, the later one of equals, and nothing for an infobase never mentioned. |
| IngestEvents.BuildCompanyIndex | adk-rust/crates/aw-1c-ingest/src/main.rs:808-831 | The loop over company rows builds that index, with timestamps and entity keys normalised as the program is given to. |
| IngestEvents.OwnerOfRow | adk-rust/crates/aw-1c-ingest/src/main.rs:1298-1330 | A row is owned by whom it names, else by the company known by its infobase, else by its base id, its base path or its infobase, in this order. |
| IngestEvents.LastWinsIsLast | adk-rust/crates/aw-1c-ingest/src/main.rs:833-870 | A document index holds under a key exactly the data of the last document row with that key. |
| IngestEvents.BuildDocumentIndex | adk-rust/crates/aw-1c-ingest/src/main.rs:833-870 | The loop over document rows builds both indexes, by id and by number. |
| IngestEvents.PostingFollowsLastDocument | adk-rust/crates/aw-1c-ingest/src/main.rs:910-950 | The event of a posting has company, organisation, department, document id, number, type, user and counterparty, and without one of its own the operation, of the last ready document row with its registrar as id, or, if there is none, of the last one with its document number. |
| IngestEvents.PostingWithoutDocument | adk-rust/crates/aw-1c-ingest/src/main.rs:910-950 | If there is neither, it has company, organisation, department, document number, document type, user (or author) and counterparty of the posting row, and its registrar as document id. |
| IngestEvents.FirstOfIsFirst | adk-rust/crates/aw-1c-ingest/src/main.rs:1403-1409 | Of several fields the first non-blank one counts. |
| IngestEvents.WrittenIsFirst | adk-rust/crates/aw-1c-ingest/src/main.rs:1363-1368 | A timestamp is made of the first field that is there, blank or not. |
| IngestCycle.IngestCycle.Run | adk-rust/crates/aw-1c-ingest/src/main.rs:121-151 | The program, with a budget of effects after which it crashes, leaves exactly the state of the model's cycle cut off there. |
| IngestCycle.IngestCycle.BuildBusinessExports | adk-rust/crates/aw-1c-ingest/src/main.rs:754-806 | The derivation loops carry out the model's derivation plan. |
| IngestCycle.IngestCycle.RunDatasets | adk-rust/crates/aw-1c-ingest/src/main.rs:406-469 | The loops over datasets and files carry out the model's plan, although each directory is listed only when its turn comes. |
| IngestCycle.IngestCycle.LoadFile | adk-rust/crates/aw-1c-ingest/src/main.rs:419-466 | One file: read, insert raw, insert core, retire; an empty file is only retired. |
| IngestCycle.IngestCycle.WriteGenerated | adk-rust/crates/aw-1c-ingest/src/main.rs:1012-1032 | Writes the derived file with ready age, or removes it when there is no event. |
| IngestCycle.IngestCycle.ArchiveOrDelete | adk-rust/crates/aw-1c-ingest/src/main.rs:1217-1243 | Moves by rename, or by copy and removal across file systems, or deletes, or leaves the file. |
| EventLog.Extractor.Extract | clickhouse-1c/etl/extract_1c_mcp_toolkit.py:457-531 | One object over any number of runs, each killed before landing, killed before saving, or finished: a run starts at the saved cursor, if there is one; unless it is a further one of the cursor's second that finds nothing, it extracts one stretch of the log from there to a position that covers everything visible up to `end_date`, although the log grows between pages; and the saved cursor and the landed rows stay those of the history of runs that the results below are about. |
| EventLog.WhereRunsStart | clickhouse-1c/etl/extract_1c_mcp_toolkit.py:457-470 | A run starts at the saved cursor; without one at the configured second, else the lookback before its own end. |
| EventLog.PageIsNext | clickhouse-1c/etl/extract_1c_mcp_toolkit.py:438-454 | Under the server's contract a page is the next stretch of the log and its cursor points behind it, in the whole log and not only in the part the page was answered from. |
| EventLog.EmptyRunKeepsPosition | clickhouse-1c/etl/extract_1c_mcp_toolkit.py:525-530 | The cursor written by an empty run points at the same event exactly when the old one was not already inside that second. |
| EventLog.SameSecondRepeats | clickhouse-1c/etl/extract_1c_mcp_toolkit.py:525-530 | A log and a cursor for which it does not: the event would be extracted twice. |
| EventLog.ExactlyOnce | clickhouse-1c/etl/extract_1c_mcp_toolkit.py:457-531 | Over any sequence of such runs, unsaved ones included, the saved pages together are one contiguous stretch of the log, from where the first saved run started to the last saved cursor: each event once, in order, without a gap. |
| EventLog.ConfiguredOrigin | clickhouse-1c/etl/extract_1c_mcp_toolkit.py:464-465 | With a configured start that stretch begins there, however many runs were not saved before. |
| EventLog.LandedOnceIff | clickhouse-1c/etl/extract_1c_mcp_toolkit.py:515-531 | Rows are landed before the state is saved: all landed rows together are what the saved runs extracted, each event once, exactly when no run landed rows without saving; otherwise there are more by as many as such runs landed. |
| EventLog.AdvancingRunsCanStart | clickhouse-1c/etl/extract_1c_mcp_toolkit.py:457-466 | If the first run can start and the clock moves on by a second between runs, every run can, so that they form such a history. |
| EventLog.NothingLeftBehind | clickhouse-1c/etl/extract_1c_mcp_toolkit.py:473-531 | After a saved run, every event that was in the log when it started and happened by its end lies before the saved cursor. |
| EventLog.NothingMissing | clickhouse-1c/etl/extract_1c_mcp_toolkit.py:473-531 | So it has been extracted by a saved run, unless it lies before where the first saved run started. |
| Windows.Extractor.Run | clickhouse-1c/etl/extract_1c_mcp_toolkit.py:552-566 | A run asks each dataset for its window in turn; the cursors of all are saved only if none raised; over any number of runs the cursors and the answered requests stay those of the rounds that the results below are about. |
| Windows.SecondsAreWhole | clickhouse-1c/etl/extract_1c_mcp_toolkit.py:332-353 | Windows and cursors are in the whole second that the clock is in. |
| Windows.NoGap | clickhouse-1c/etl/extract_1c_mcp_toolkit.py:332-353 | Over any runs with a clock that does not run backwards, aborted ones included, every instant from the first saved window's start to the saved cursor lies in an answered window. |
| Windows.OverlapIsLookback | clickhouse-1c/etl/extract_1c_mcp_toolkit.py:336-340 | Each window after a save starts exactly the lookback before the saved cursor and reaches it. |
| Windows.ConfiguredStart | clickhouse-1c/etl/extract_1c_mcp_toolkit.py:341-342 | With a configured start the first window of all and the first saved one start at the same instant, so aborted first runs leave no gap. |
| Windows.UnsavedStartCoveredIff | clickhouse-1c/etl/extract_1c_mcp_toolkit.py:341-346 | Through any runs, from the start of the first answered window to the saved cursor every instant is covered exactly when a start is configured or no two consecutive answers up to the first saved run are further apart than the windows overlap. |
| Windows.UnsavedPairCoveredIff | clickhouse-1c/etl/extract_1c_mcp_toolkit.py:343-346 | For one answered run that was not saved and a saved one: exactly when a start is configured or the saved window reaches back to the first run. |
| Windows.StateIsPerDataset | clickhouse-1c/etl/extract_1c_mcp_toolkit.py:430-434 | The persisted cursor of a dataset is determined by its own saved runs. |
| Windows.RequestIsVisitWindow | clickhouse-1c/etl/extract_1c_mcp_toolkit.py:398-435 | The windows of `NoGap` are the ones that `Run` asks for. |
| Incidents.SignatureIsSet | proxmox/tsj_guardian_bot.py:2298-2299 | Two failure lists have the same signature exactly when they hold the same failures. |
| Incidents.TrailingRunIsLongest | proxmox/tsj_guardian_bot.py:2434-2440 | The streak count is the length of the longest stretch of equal failures at the end of the history. |
| Incidents.DeferFollowsQuorum | proxmox/tsj_guardian_bot.py:2406-2457 | A failing cycle with nothing pending is put off exactly while the quorum is on, no file system is critical and fewer than `quorum` cycles in a row had these failures. |
| Incidents.StepKeeps | proxmox/tsj_guardian_bot.py:2722-2812 | Every operation keeps: a pending incident has failures and a zero streak, the streak counts the trailing run and stays below the quorum, unforced attempts are paced, at most one fallback. |
| Incidents.RunKeeps | proxmox/tsj_guardian_bot.py:2722-2812 | So every state that any sequence of operations reaches has these properties. |
| Incidents.OpensIffQuorum | proxmox/tsj_guardian_bot.py:2749-2768 | Over whole runs, an incident opens exactly on a failing cycle with nothing pending when the last `quorum` counted cycles had the same failures, or the quorum is off, or a file system is critical. |
| Incidents.PacedBound | proxmox/tsj_guardian_bot.py:2826-2827 | Attempts that keep the pause number at most one plus the time over the pause, forced ones aside. |
| Incidents.AutohealIsPaced | proxmox/tsj_guardian_bot.py:2814-2877 | Over whole runs, the unforced attempts of an incident are bounded by one plus the time since it was opened over the retry pause. |
| Incidents.NoFallbackAfterAck | proxmox/tsj_guardian_bot.py:2963-2972 | After an acknowledgement no sequence of operations makes the same incident fall back. |
| Incidents.FallbackOnlyOnTimeout | proxmox/tsj_guardian_bot.py:2948-2992 | A fallback happens only on the timeout evaluation of an unacknowledged incident, not before the operator timeout, and not twice. |
| IncidentFates.ClosesIff | proxmox/tsj_guardian_bot.py:2722-2877 | For every state and input: a pending incident is closed exactly by a clean check cycle, a resolution, or an attempt whose steps succeed and whose re-check returns 0 without failures; otherwise the same incident stays pending, with the failures of the re-check, else of the cycle, else its own, and with the attempts and flags that this input gives it. |
| IncidentFates.ActsIff | proxmox/tsj_guardian_bot.py:2814-2992 | A healing attempt is made exactly on a command, or on a failing cycle when none was made or the pause is over; an automatic fallback exactly on the first evaluation of an unacknowledged incident after the operator timeout. |
| IncidentFates.OpenedIsTried | proxmox/tsj_guardian_bot.py:2765-2812 | An opened incident is tried to heal at once and stays pending, unacknowledged and without fallback, unless that succeeds. |
| IncidentFates.GoneIffClosed | proxmox/tsj_guardian_bot.py:2722-2992 | Over any run an incident is gone, or another one has taken its place, exactly if one of the inputs closed it. |
| IncidentFates.CriticalIff | proxmox/tsj_guardian_bot.py:2459-2460 | A failure is about a critical file system exactly if `filesystem_usage` occurs in it, in whatever case. |
| IncidentBot.GuardianBot.DeferTransientNewIncident | proxmox/tsj_guardian_bot.py:2434-2457 | The method's new streak and answer are those of the model. |
| IncidentBot.GuardianBot.AttemptAutoheal | proxmox/tsj_guardian_bot.py:2814-2877 | The method moves the bot exactly as the model's healing step does, whose effect `IncidentFates.ClosesIff` and `ActsIff` state. |
| IncidentBot.GuardianBot.HandleCheckCycle | proxmox/tsj_guardian_bot.py:2722-2812 | The check cycle moves the bot exactly as the model's step does, including the journal of the whole run; for its effect on an incident see `IncidentFates.ClosesIff` and `OpenedIsTried`. |
| IncidentBot.GuardianBot.EvaluateTimeoutEscalation | proxmox/tsj_guardian_bot.py:2948-2992 | The timeout evaluation moves the bot exactly as the model's step does. |
| IncidentBot.GuardianBot.Acknowledge | proxmox/tsj_guardian_bot.py:4403-4410 | An acknowledgement marks the pending incident and nothing else. |
| IncidentBot.GuardianBot.ResolveIncident | proxmox/tsj_guardian_bot.py:4411-4415 | Resolving by hand drops the pending incident and nothing else. |
| IncidentBot.GuardianBot.HealCommand | proxmox/tsj_guardian_bot.py:2814-2877 | The operator's command is a healing attempt that does not wait for the pause. |
| Confirmation.ExecutedIffAuthorised | proxmox/tsj_guardian_bot.py:2222-2250 | Over any message sequence, a message gets a text executed exactly when it applies, with the code made at the start and within the time to live, a request that was started, then confirmed, and not cancelled, restarted or executed to its end in between; the text is the one that was started. |
| Confirmation.AlwaysExplained | proxmox/tsj_guardian_bot.py:1186-1284 | Every pending request is the last one started, with its own text, code and time, and awaits the second confirmation exactly if it was confirmed since; without a pending one, every started request was ended or has expired. |
| Confirmation.AtMostOncePerRequest | proxmox/tsj_guardian_bot.py:2151-2199 | A pfSense request whose execution completed, or any execution of an OpenVPN request, whether it completed or raised, is never authorised again. |
| Confirmation.ExecutedAgainIff | proxmox/tsj_guardian_bot.py:2222-2250 | After an execution of a request, entering its code again in time with nothing that ends the request in between executes the same text again exactly when the first execution did not close the request, which is when a pfSense executor raised. |
| Confirmation.RaisedPfSenseIsRetriable | proxmox/tsj_guardian_bot.py:2247-2250 | A message sequence in which that happens, whatever the time to live. |
| Confirmation.StartReplaces | proxmox/tsj_guardian_bot.py:1186-1225 | A message that starts a request replaces whatever was pending; an OpenVPN request without a name is none, and none is ever executed. |
| Confirmation.StaleIsDropped | proxmox/tsj_guardian_bot.py:1186-1189 | A request over its time when a message arrives is gone afterwards, whatever the message says, and is not executed by it. |
| Confirmation.ConfirmationFlow.ProcessMessage | proxmox/tsj_guardian_bot.py:4343-4360 | The handler moves the pending request and the executor exactly as one step of the model. |
| Confirmation.ConfirmationFlow.ApplyRequest | proxmox/tsj_guardian_bot.py:2151-2199 | Applying expires, checks stage and code, executes, and clears the request; for OpenVPN even when the executor raises. |
| Confirmation.ConfirmationFlow.ConfirmStageOne | proxmox/tsj_guardian_bot.py:1226-1271 | The first confirmation moves an unexpired request that awaits it to the second stage and nothing else. |
| LongMessage.Split | proxmox/tsj_guardian_bot.py:288-308 | For every text and limit from 1 on the loop ends; the chunks are not empty, within the limit and trimmed; together they show exactly the printed characters in order; and if no line is too long, no line is torn. |
| LongMessage.ChunksAreFilled | proxmox/tsj_guardian_bot.py:301-306 | Each chunk ends before the last line break within the limit, or at the limit if there is none, and the rest is cut in the same way. |
| LongMessage.ShortIsOneChunk | proxmox/tsj_guardian_bot.py:300-308 | A text within the limit is one message, a blank one none. |
| LongMessage.SendLongMessage | proxmox/tsj_guardian_bot.py:288-311 | The chunks are sent in order, the keyboard with the first only; a blank text is sent as a dash. |
| LongMessage.CutPoint | proxmox/tsj_guardian_bot.py:302-304 | A text is cut at the last line break that fits, and inside a line only when there is none. |
| LongMessage.ZeroLimitNeverEnds | proxmox/tsj_guardian_bot.py:301-306 | With limit 0 the loop would make no progress. |
| DlpPolicy.ModeFromPolicy | proxmox/tsj_guardian_bot.py:4029-4052 | A recorded mode wins; otherwise monitoring is read when no active rule blocks, enforcement when some does and all that act do, and mixed in the remaining case. |
| DlpPolicy.PolicyForMode | proxmox/tsj_guardian_bot.py:4055-4088 | The in-place loops compute the switch; any other target mode is refused. |
| DlpPolicy.SwitchIsIdempotent | proxmox/tsj_guardian_bot.py:4055-4088 | Switching again to the same mode changes nothing and reports no change. |
| DlpPolicy.SwitchKeeps | proxmox/tsj_guardian_bot.py:4060-4088 | Rule order, ids, inactive rules, fields other than the action, and everything outside the four groups survive; the meta data records mode, author and time and keeps the rest. |
| DlpRules.EachRuleIsTurned | proxmox/tsj_guardian_bot.py:4062-4077 | In each of the four groups, monitoring turns every active block into an alert and enforcement every active rule that logs, alerts or has no action into a block, in its place, and leaves the others as they are. |
| DlpRules.ReadingMeans | proxmox/tsj_guardian_bot.py:4036-4052 | The rules read as monitoring when no active rule of the four groups blocks, as enforcement when one does and none has another action, and as mixed otherwise; actions are read without white space around them and in whatever case. |
| DlpRules.RecordedModeIff | proxmox/tsj_guardian_bot.py:4030-4034 | A mode is recorded exactly when the recorded text is its name, without white space around it and in whatever case. |
| DlpRules.ListedAreTurned | proxmox/tsj_guardian_bot.py:4076-4079 | Each listed line names group, id and both actions of a rule that the switch turned. |
| DlpPolicy.MonitorReadsMonitor | proxmox/tsj_guardian_bot.py:4068-4070 | After a switch to monitoring the rules read as monitoring. |
| DlpPolicy.EnforceReads | proxmox/tsj_guardian_bot.py:4071-4073 | After a switch to enforcement the rules read as enforcement exactly when some rule is active and every active action was blank, log, alert or block; otherwise as monitoring or mixed, and which. |
| DlpPolicy.RecordedAgreesIff | proxmox/tsj_guardian_bot.py:4082-4088 | The recorded mode is always the requested one; the rules agree with it exactly under that condition. |
| DlpPolicy.ChangesAreCounted | proxmox/tsj_guardian_bot.py:4076-4079 | The reported number is the number of rules that differ; the first ten are listed. |
| DlpPolicy.BackToMonitorIff | proxmox/tsj_guardian_bot.py:4055-4088 | Enforcing and going back loses an action exactly when an active rule was blank, log, or an alert not spelled plainly. |
| Forecast.SlopeIsLeastSquares | clickhouse-1c/ai/refresh_company_intelligence.py:64-74 | No line has a smaller squared error on the series than the one with this slope through its middle, and no other line has as small a one. |
| Forecast.DenominatorClosedForm | clickhouse-1c/ai/refresh_company_intelligence.py:71-73 | The denominator is n(n^2-1)/12, so that its zero test never fires for two or more values. |
| Forecast.LineIsRecovered | clickhouse-1c/ai/refresh_company_intelligence.py:64-74 | A series on a line gives back slope and intercept. |
| Forecast.NormalEquations | clickhouse-1c/ai/refresh_company_intelligence.py:67-70 | The residuals of the fitted line and their moments add up to zero. |
| Forecast.ForecastTotal | clickhouse-1c/ai/refresh_company_intelligence.py:87-94 | The predicted total never falls below the closed form of the unclamped series and equals it exactly when no day is clamped. |
| Forecast.ProjectionLagsTrend | clickhouse-1c/ai/refresh_company_intelligence.py:90-93 | The unclamped projection differs from the fitted line by half a window of slope; they agree exactly when the slope is zero. |
| Forecast.ForecastFitsWindow | clickhouse-1c/ai/refresh_company_intelligence.py:87-95 | A forecast is drawn from the last `lookback` values, or from all of them when that is zero; its baseline and slope are those of the line that fits these values best, and its daily value is where the projection ends. |
| Forecast.ForecastFailsIff | clickhouse-1c/ai/refresh_company_intelligence.py:88-95 | There is no forecast exactly when there are fewer values than asked for, or none; without a horizon the daily value is the mean. |
| Forecast.FlatHistory | clickhouse-1c/ai/refresh_company_intelligence.py:87-109 | A flat non-negative history is projected as it is, for every horizon and lookback. |
| DailySeries.FillDailySeries | clickhouse-1c/ai/refresh_company_intelligence.py:51-61 | The loop yields one point per calendar day from the first to the last date, the last given point of that day or a blank one. |
| DailySeries.FillConserves | clickhouse-1c/ai/refresh_company_intelligence.py:51-61 | For points sorted by date, filling keeps every column total except for what a later point of the same day overwrote. |
| DailySeries.WeeksAreCalendarWeeks | clickhouse-1c/ai/refresh_company_intelligence.py:211-216 | For one point a day and any length, the two slices add up the original points of the seven days up to the last one and of the seven before. |
| DailySeries.LastWeekIsNeverEmpty | clickhouse-1c/ai/refresh_company_intelligence.py:211-216 | The last week ends with the last day of activity: its total is positive if that day's point is, however long ago that was. |
| DailySeries.SecondPointOverwrites | clickhouse-1c/ai/refresh_company_intelligence.py:54 | Two points of one day: one of them is lost. |
| TunnelAllocator.AllocateTunnelNetwork | proxmox/pfsense_openvpn_client_export.php:110-159 | The two scans return the one text that writes the first free candidate in scan order with the network's prefix, or fail when none is free; a bad network, prefix or address is refused. |
| TunnelAllocator.ParsedIff | proxmox/pfsense_openvpn_client_export.php:111-126 | A network text is accepted exactly if, trimmed, it is the dotted form of an address, a slash, and one or two digits for a prefix from 1 to 30, and it is read as these. |
| TunnelAllocator.RefusedNetworkIff | proxmox/pfsense_openvpn_client_export.php:112-126 | Other texts are refused: of another form, with another prefix, or with what is no address, each exactly for its own reason. |
| TunnelAllocator.WrittenIsParsed | proxmox/pfsense_openvpn_client_export.php:147 | What the allocator writes for a block is read back as that block. |
| TunnelAllocator.OffsetIsTriedFirst | proxmox/pfsense_openvpn_client_export.php:130-147 | If the host at the offset (the first host for offsets below it) is inside the block and free, it is the one. |
| TunnelAllocator.UsedIff | proxmox/pfsense_openvpn_client_export.php:132-144 | An address is used exactly if an entry of that server writes it, with any prefix; entries of other servers use none. |
| TunnelAllocator.BlocksFillSpace | proxmox/pfsense_openvpn_client_export.php:128 | The size of a block times two to its prefix is the address space. |
| TunnelAllocator.FittingOffsetIsSound | proxmox/pfsense_openvpn_client_export.php:129-156 | With an offset inside the block the result is a free host strictly between network and broadcast, and the call fails exactly when every host is used. |
| TunnelAllocator.LeavesBlockIff | proxmox/pfsense_openvpn_client_export.php:129-156 | The result can be outside the block exactly when the offset does not fit, every host is used and an address between broadcast and start is free. |
| TunnelAllocator.AddressRoundTrip | proxmox/pfsense_openvpn_client_export.php:124-147 | Parsing a rendered address gives it back, for all 32-bit addresses. |
| TunnelAllocator.AddressIff | proxmox/pfsense_openvpn_client_export.php:123-126 | A text is read as an address exactly if it is the rendering of that 32-bit number. |
| TunnelAllocator.AddressIsDotted | proxmox/pfsense_openvpn_client_export.php:147 | The rendering shows the four octets, the highest first. |
| TunnelAllocator.AddTakesOneHost | proxmox/pfsense_openvpn_client_export.php:216-229 | Appending the new entry takes exactly its address, as later runs read it back, out of the free hosts. |
| TunnelAllocator.AdditionsUseUpHosts | proxmox/pfsense_openvpn_client_export.php:216-229 | After any number of successful additions as many hosts fewer are free. |
| TunnelAllocator.RefusedIffUsedUp | proxmox/pfsense_openvpn_client_export.php:146-158 | The next addition is refused exactly when as many clients were added as hosts were free, which is at most the block size less two. |
| TunnelAllocator.AddressesAreDistinct | proxmox/pfsense_openvpn_client_export.php:216-229 | An added client's address differs from every other one of that server, old or new, also when the offset does not fit the block. |
| TunnelAllocator.AlignedIsInSpace | proxmox/pfsense_openvpn_client_export.php:124-130 | A block aligned to its size ends within the 32-bit address space. |
| TunnelAllocator.AddClient | proxmox/pfsense_openvpn_client_export.php:216-229 | A known client is left alone; a new one is appended with its address, or refused. |
| BriefDelta.CriticalConservation | clickhouse-1c/ai/generate_manager_brief.py:386-408 | The change of the critical total is new minus resolved plus critical entrants minus critical leavers, for any two snapshots with unique keys. |
| BriefDelta.SameCompanies | clickhouse-1c/ai/generate_manager_brief.py:437-491 | With the same companies in both it is exactly new minus resolved, and no company is both. |
| BriefDelta.DeltaExplainsCriticals | clickhouse-1c/ai/generate_manager_brief.py:586-593 | The same for the lists that the delta reports. |
| Dictionaries.DictionaryHolds | clickhouse-1c/ai/generate_manager_brief.py:184-190 | A snapshot has every key of its rows once, with the last row of that key. |
| Dictionaries.DictionaryOfUnique | clickhouse-1c/ai/generate_manager_brief.py:184-190 | Rows that do not repeat a key are their own snapshot, in their order. |
| Dictionaries.LastOfPermuted | aw-server/aw-ru-patch.js:804-810 | Listing a dictionary in another order changes nothing of what it holds. |
| BriefDelta.ComputeDelta | clickhouse-1c/ai/generate_manager_brief.py:437-570 | The loop reports the new and resolved companies and the change of every company that both snapshots know. |
| BriefDelta.Classify | clickhouse-1c/ai/generate_manager_brief.py:493-535 | The cascade of assignments computes the model's change. |
| BriefReports.ReportedIsTrue | clickhouse-1c/ai/generate_manager_brief.py:493-535 | Between the two rows of a company: a kind of change is reported only if that went the way it says, its significance is exactly 50 per rank up and 6 per case and 8 per lock, each with what the score rose, 40 per rank down with what the score moved, 4 per detection or the percentage of the forecast, and it is no less than any of these terms for what was added. |
| BriefReports.SeverityOrder | clickhouse-1c/ai/generate_manager_brief.py:110-117 | none < low < medium < high < critical, in whatever case; other texts count as none. |
| BriefReports.UnreportedCompanyIff | clickhouse-1c/ai/generate_manager_brief.py:493-535 | A company is not reported exactly when its rank stayed, cases, locks and detections did not grow, and the forecast moved by no more than half a hundredth. |
| BriefReports.SameCompanyIff | clickhouse-1c/ai/generate_manager_brief.py:184-190 | Rows are of one company when infobase and entity key agree, or without entity keys infobase and name. |
| BriefReports.ListedCriticalsIff | clickhouse-1c/ai/generate_manager_brief.py:488-491 | A name is listed as newly critical exactly if a company of that name is in both snapshots, critical now and not before; as resolved the other way round. |
| BriefReports.ReportedChangesIff | clickhouse-1c/ai/generate_manager_brief.py:458-570 | A change is reported exactly if it is that of a company in both snapshots, from its last row in the previous to its last row in the current one, with that priority and tier. |
| BriefReports.PriorityIsSum | clickhouse-1c/ai/generate_manager_brief.py:135-158 | The priority is the significance plus 24 per rank, 8 per case, 5 per detection, 10 per lock, 0.8 per score point gained and 0.6 per percent of a forecast drop, but for rounding; tiers begin at 40, 85 and 140. |
| BriefDelta.SignificanceDominates | clickhouse-1c/ai/generate_manager_brief.py:493-535 | The significance is at least the severity term, 6 per case, 8 per lock, 4 per detection and the forecast drop in percent, and at most the largest of them plus the score moved, unless an otherwise unmoved forecast grew. |
| BriefDelta.UnreportedIff | clickhouse-1c/ai/generate_manager_brief.py:493-535 | A company is not reported exactly when rank, cases, locks, detections and the rounded forecast did not move upwards (the forecast: at all). |
| BriefDelta.ForecastMovesIff | clickhouse-1c/ai/generate_manager_brief.py:484-486 | The rounded forecast moved exactly when the forecast moved by more than half a hundredth. |
| BriefDelta.MoreCasesLessSignificanceIff | clickhouse-1c/ai/generate_manager_brief.py:493-535 | For every shift, more new cases lower the significance exactly when they take the report from locks that had won it with the score bonus, or from the growth of the forecast, and nothing else weighs as much. |
| BriefDelta.MoreCasesLessSignificance | clickhouse-1c/ai/generate_manager_brief.py:493-535 | Both happen; one new case beside a grown forecast takes the priority from the critical tier to the low one. |
| BriefDelta.PriorityIsAtLeast | clickhouse-1c/ai/generate_manager_brief.py:120-167 | The priority is at least 74 per severity rank, 14 per case, 18 per lock and 9 per detection; two ranks, ten cases, eight locks or sixteen detections reach the critical tier. |
| WeeklyTrend.BuildWeeklyTrendReport | clickhouse-1c/ai/company_intelligence_api.py:161-241 | The report shows, for each day of the period that has a brief and in order, the summary of its latest brief with the differences to the row before, and per company the first change of greatest priority. |
| WeeklyTrend.LatestOn | clickhouse-1c/ai/company_intelligence_api.py:184-189 | The payload kept for a day is of that day and no payload of that day is later. |
| WeeklyTrend.BestOf | clickhouse-1c/ai/company_intelligence_api.py:221-231 | The change kept for a company is one of its own and none of them has a greater priority. |
| WeeklyTrend.LatestIsFirst | clickhouse-1c/ai/company_intelligence_api.py:184-189 | Of equally late payloads of a day the first one is kept. |
| WeeklyTrend.BestIsFirst | clickhouse-1c/ai/company_intelligence_api.py:221-231 | Of equally important changes of a company the first one is kept. |
| WeeklyTrend.PeriodIs | clickhouse-1c/ai/company_intelligence_api.py:165-183 | The period is the given number of days up to today, at least one. |
| WeeklyTrend.PriorityOfIs | clickhouse-1c/ai/company_intelligence_api.py:150-162 | A stored number counts as it is; without one the parts that the item tells are added up, but for rounding. |
| WeeklyTrend.WeekIsSumOfDays | clickhouse-1c/ai/generate_weekly_digest.py:141-151 | The day-over-day differences add up to the digest's week difference, less the totals of days that follow an empty summary. |
| WeeklyTrend.TelescopesIff | clickhouse-1c/ai/generate_weekly_digest.py:141-151 | They add up exactly when every day after an empty summary counts zero, in particular when none is empty. |
| WeeklyTrend.SubstituteNeverOutranks | clickhouse-1c/ai/company_intelligence_api.py:150-162 | A change that lost its stored score gets a substitute no greater than the score that the brief had computed. |
| Collapsing.CollapseIsLastWriteWins | aw-server/aw-ru-patch.js:800-811 | For rules as for reviews, whatever the id is computed from: the collapsed log has one event per id, newest first, and under each id the last one written. |
| Collapsing.CollapseIsIdempotent | aw-server/aw-ru-patch.js:800-811 | Collapsing again changes nothing, not even the order of events of one moment. |
| Collapsing.SortIsStable | aw-server/aw-ru-patch.js:801-810 | The sort keeps the order of the events of each moment. |
| Collapsing.LastWriteIsLatest | aw-server/aw-ru-patch.js:800-811 | The last write of an id is one of its events and none of them is newer. |
| RuleLog.SavedMatches | aw-server/aw-ru-patch.js:1339-1358 | A rule saved from an event matches it, and of the other events those that agree wherever the event has a value. |
| RuleLog.SavedSuppresses | aw-server/aw-ru-patch.js:1339-1358 | A rule saved later than anything logged is active under its id and lets its event pass. |
| RuleLog.DerivedIdTellsApart | aw-server/aw-ru-patch.js:768-787 | As long as no bar occurs in them, derived ids are equal exactly if all six constraints, category and action are. |
| RuleLog.DroppingConstraintsIff | aw-server/aw-ru-patch.js:826-833 | One rule matches whatever another does exactly when it only drops constraints of it. |
| RuleLog.SwitchedIdIff | aw-server/aw-ru-patch.js:1454-1471 | The event written to switch a rule has the rule's id exactly when the rule has an id of its own or its signal type does not start with white space. |
| RuleLog.SwitchChangesOneRule | aw-server/aw-ru-patch.js:1454-1471 | Switching later than anything logged makes that rule active or not as asked and no other rule notices. |
| RuleLog.SwitchChangesSuppression | aw-server/aw-ru-patch.js:1195-1196 | The events suppressed under the switched id are afterwards those that the rule matched all along, if it was enabled, and none otherwise; under every other id they are the same as before. |
| RuleLog.ActiveRulesAreLastWrites | aw-server/aw-ru-patch.js:1386-1387 | The active rules of a refreshed page are exactly the enabled last writes of the log. |
| Collapsing.Collapse | aw-server/aw-ru-patch.js:800-824 | The method returns a log sorted newest first, with every id once and under each id its last write; events of one moment are in the order in which the ids were first met. |
| Collapsing.LaterWriteWins | aw-server/aw-ru-patch.js:800-811 | An event later than all others takes over its id wherever the log lists it, and no other id notices. |
| RuleLog.DlpState.Refresh | aw-server/aw-ru-patch.js:1386-1387 | Refreshing replaces both lists of the page by the collapsed log and its enabled part. |
| CheckDigits.TenSubstitutionPassesIff | aw-server/dlp-content-analysis/checksum_validator.py:9-12 | Another digit in the body of a valid ten-digit tax number passes exactly when it moves the weighted sum between the residues 0 and 10 modulo 11. |
| CheckDigits.TenIsProtectedIff | aw-server/dlp-content-analysis/checksum_validator.py:9-12 | Every such substitution is rejected exactly when the control digit is not 0. |
| CheckDigits.TwelveIsProtected | aw-server/dlp-content-analysis/checksum_validator.py:13-18 | Every substitution of a digit in a valid twelve-digit tax number is rejected, whatever its control digits. |
| CheckDigits.MistypedInnIsRejected | aw-server/dlp-content-analysis/checksum_validator.py:7-19 | On texts with any other characters in between: another digit makes a valid tax number invalid, unless it has ten digits and control digit 0. |
| CheckDigits.ValidInnIff | aw-server/dlp-content-analysis/checksum_validator.py:7-19 | The control digits of ten-digit and twelve-digit numbers, with all coefficients; numbers of other lengths are not valid. |
| CheckDigits.DigitsAre | aw-server/dlp-content-analysis/checksum_validator.py:7-8 | Texts are read digit by digit, and other characters make no difference. |
| CheckDigits.Expected | aw-server/dlp-content-analysis/checksum_validator.py:28-36 | The branches compute the sum modulo 101 modulo 100. |
| CheckDigits.ValidSnilsIff | aw-server/dlp-content-analysis/checksum_validator.py:22-37 | The checksum of an insurance number, with all coefficients. |
| CheckDigits.SnilsSubstitutionPassesIff | aw-server/dlp-content-analysis/checksum_validator.py:22-37 | Another digit in the body of a valid insurance number passes exactly when it moves the last body digit by one and the sum between the residues 0 and 100 modulo 101. |
| CheckDigits.SnilsIsProtectedIff | aw-server/dlp-content-analysis/checksum_validator.py:22-37 | Every substitution is rejected exactly when the last body digit cannot make that move. |
| CheckDigits.SnilsSwapPassesIff | aw-server/dlp-content-analysis/checksum_validator.py:22-37 | Swapping two different neighbours passes exactly when they differ by one and the sum makes that move. |
| CheckDigits.MistypedSnilsIsRejected | aw-server/dlp-content-analysis/checksum_validator.py:22-37 | On texts: an insurance number whose checksum is not 00 does not survive another digit. |

## Left out

- IngestHistory.ExactlyOnce: files arrive, age and change between the cycles, but not while one runs; the program tests the age of a file again before each use.
- Writing a derived file and setting its age back are one effect of a cycle. A crash between the two leaves a derived file that is not yet old enough, beside the source that it is derived from again.
- EventLog.ExactlyOnce: leaves out histories in which a run finds nothing in a second that its cursor already points into; `EmptyRunKeepsPosition` says what such a run does.
- LongMessage.Split: white space is the Latin-1 part of what Python strips, without U+001C to U+001F; the same set stands for JavaScript's, which does not drop U+0085.
- DlpPolicy.PolicyForMode: lower-casing is that of ASCII letters; the recorded mode and the actions are taken as texts.
- Forecast.SlopeIsLeastSquares: floating-point numbers are idealised as reals here and in the other analytics modules.
- TunnelAllocator.AddressesAreDistinct: assumes that the block ends within the 32-bit address space, as an aligned one does, and that the offset does not lead out of it; beyond it `long2ip` wraps.
- CheckDigits.MistypedInnIsRejected: digits are the ASCII digits.
- Enriched contents after a crash: the indexes are rebuilt from what is still landed, so a derived file written again can carry other company data. What survives is the events of all rows, with some state of the indexes.
- IngestEvents.BuildCompanyIndex: how base paths, infobase names and timestamps are normalised is a parameter, and a blank timestamp reads as one current time for the whole cycle (`IngestDerived.AtTime`; cycles differ in it).
- Core columns of the ingest, the currency, tax number and number formats of events, and the SHA-1 ids (the joined parts stand for them); registry workbook, run summary counters, SQL and shell steps after loading, unconfigured or unknown datasets.
- Archive names: a file name that is already archived gets a time suffix; two such files in one second would overwrite each other.
- Extraction: row normalisation, file writing, dry runs, runs of a single dataset, and rows beyond the `limit` of a query window, which are not asked for again.
- Guardian bot: what shell scripts, the executor, the escalation target and Telegram do (inputs with arbitrary results, assumed to return), texts shown to the operator, suggestions, the exit after a successful healing, persistence of the state file, and the external decision helper (its answer is always missing here).
- Confirmation.ExecutedIffAuthorised: the pfSense and the OpenVPN request are kept in fields of their own and do not touch each other; each is modelled alone.
- The Proxmox restore flow, which repeats the confirmation protocol, and the recognition of requests in free text.
- Forecast confidence, volatility and notes; the health signals; the truncation of the two weekly document counts to whole numbers.
- Manager brief: the fallback snapshot merged from partial lists, watchlists, the other totals, and the order and cut of the reported lists; weekly report: the order and cut of the top changes, improvements.
- Allocator: certificates, templates and the configuration file around the appended entry.
- Rule log: locale order of timestamps (they are numbers here), heartbeat merging, the limit of 200 loaded events, reviews (collapsed in the same way by another id), and the page itself.
- Passport numbers, dictionaries, OCR, exporters, translations and packaging.
