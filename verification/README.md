# GridWitness, store and forward: a verified model

GridWitness carries readings from Home Assistant nodes to a research lake. A node stamps each state
change with NTP-corrected time, holds rows in memory, pushes them every 30 seconds, and spills to a disk
file while the server is unreachable. The server authenticates the node, limits its rate, refuses rows
outside its consent, drops repeats within a recent window, and appends the rest to hourly CSV files. A
survey worker feeds uploaded power-quality files into the same files. An acquirer, run on a schedule,
merges hours it has not covered into weekly lake files.

This project models those stages in Dafny, in the form of the source (classes with updated fields and
loops where it has them, functions where it computes), proves each against a specification function, and
proves properties of whole runs of the composed system. `dafny verify dfyconfig.toml` checks all of it.

| module | what it models |
|---|---|
| `Basics` | options and sequence vocabulary |
| `Capture`, `DiskBuffers`, `Coordinators` | state events, the offline buffer file, flush / drain / stop |
| `ClientRuns` | whole runs of one node: order, accounting, progress |
| `RateLimit`, `Ntp` | token bucket; offset, median and plausibility gate |
| `Registry`, `Privacy`, `Ingest` | the four tables; projection and location; the samples handler |
| `ServerRuns` | whole runs of the server: provenance, erasure, withdrawal, two-run privacy |
| `Consent` | what registrations, tokens, consent changes and uploads are worth over those runs |
| `Staging`, `ThreadedStaging` | dedupe window and hour files; writers of two processes, step by step, with failures |
| `Survey`, `LongFormat` | the survey worker; the long CSV printer and parser |
| `Lake`, `Acquirer` | week files and their merge; runs, crashes and cursors |
| `Requests`, `Delivery` | a node's requests; node and server step by step |
| `Undisturbed`, `Schedules` | the order of files when nothing interferes; such histories as schedules of the steps |
| `Pipeline` | node, server and acquirer together |

## What holds only under conditions

The code is modelled as it is. Where it does not do what its comments and documents say, the model
follows the code, and a lemma states the exact condition under which the intention is met.

- **One entity, several channels.** A state change gives one row per mapped channel, and rows of one
  instant and phase share a dedupe key. The server acknowledges them all and drops all but the first. All
  values survive if and only if no two known mappings are electrical on one phase, or both weather, and
  the window remembers none of the keys (`Capture.AllChannelsSurviveExactlyWithoutClashes`). The same holds
  for the rows of a survey's files (`Survey.AllRowsSurviveExactlyWhenApart`).
- **Late rows, the horizon, unreadable weeks.** A run scans staging twice, for rows and then for the newest
  hour, while the server writes on; `_clamp_horizon` says newer rows "stay in staging"; and a week file
  that fails to read is skipped. In all three cases the cursor moves past the rows all the same. A key
  lands if and only if, at the first run to cover its hour, it was staged before that run's first scan,
  the horizon let it in, and its week's file could be read (`Acquirer.LandsExactlyWhenOnTime`). A row that
  opens a new hour between the scans is lost for good (`Acquirer.ARowBetweenTheScansIsLost`). While the
  horizon trails staging by more than the interval between runs, the lake never changes
  (`Acquirer.TrailingHorizonStarvesTheLake`).
- **Crashes and restaged rows.** Landing hour by hour equals landing everything at once without further
  conditions on rows as long as no run dies midway. After a run that died, the newest row of a key stands
  alone if and only if it fills every column that was filled before
  (`Acquirer.TheNewestStandsExactlyWhenNoColumnIsLost`; `Acquirer.ACrashMixesTwoVersions` is a run that
  does not).
- **What an acknowledgement is worth.** Keys are remembered under one lock, rows written under another.
  After an append that failed, or was cut off by a restart, a retry is answered as duplicates, and the
  rows are never written (`ThreadedStaging.AFailedAppendIsAcknowledgedByTheRetry`,
  `ThreadedStaging.ARestartLosesAcknowledgedRows`). A row of an answered push that was not refused is on
  disk if and only if some append that was to write its key completed (`Delivery.EndToEnd`), and, if it is
  alone at its lake key, in the lake if and only if, besides, its file has its header first
  (`Pipeline.AcknowledgedReadingsReachTheLakeExactlyWhenWritten`).
- **Headers.** Server and worker share the hour files and no lock. A file has one header, first, if and
  only if every write found the file as its look had: absent then and empty now, or neither
  (`ThreadedStaging.OneHeaderExactlyWhenNoWriteIsStale`). Two processes can each write a header
  (`ThreadedStaging.ServerAndWorkerWriteTwoHeaders`); and a file that a failed append left empty never
  gets one (`ThreadedStaging.AnEmptyFileStaysWithoutAHeader`), so that readers take its first row for it.
- **A timestamp that does not parse.** Keys are remembered before paths are computed. A write succeeds if
  and only if the window drops every row that does not parse
  (`Staging.WriteSucceedsExactlyWhenBadRowsAreRemembered`); when it raises, nothing is written, and a retry
  keeps none of the rows that the first write had kept (`Staging.RetryAfterABadStampLosesTheBatch`). The
  error is a 500 whose body is not JSON, which the client does not take for an API error.
- **Exceptions in a flush.** A flush loses its whole batch if its last push raises something other than an
  API error, or its drain comes to a line that is JSON but not an object, which `peek` does not skip; it
  loses what an append did not get out, if the server is unreachable and the append fails; and it loses
  nothing else, as long as reading the buffer file and rewriting it in a commit succeed
  (`ClientRuns.OnlyExceptionsLoseTheBatch`). A line that is no object is never passed: the node pushes
  nothing more, and every flush loses what is pending (`ClientRuns.AnAlienLineSilencesTheNode`).
- **One bad row.** The server answers 422 for a whole request if one row has a frequency outside 40 to
  70 Hz or an unknown phase, and the node drops the request's rows, up to two thousand from a drain. A
  settled row was seen accepted, or shared a push with such a row (`Requests.DroppedExactlyWithABadRow`).
- **A chunk larger than the bucket.** A drained chunk has up to 2000 rows. One that the limiter refused
  gets through within a minute if it is at most the configured rows per minute, and never otherwise
  (`RateLimit.DrainIsLiveExactlyWhenAChunkFits`).
- **The first file of a week** is not deduplicated; a later merge keeps exactly the cells of a key's last
  row (`Lake.MergeForgetsEarlierDuplicates`). "Prefers non-null" is true of numbers; null text tags come
  back from CSV as empty text and do replace stored ones (`Pipeline.NullsSpareNumbersButNotTags`).
- **Erasure and consent** hold as of authentication. Nothing more of an erased node is handed to staging if
  and only if no post that authenticated before, and has still to take effect, carries a consented row
  (`ServerRuns.NothingMoreIsStagedExactlyWhenQuiet`; `ServerRuns.APostOutlivesErasure` is such a run). What
  is handed over still passes the dedupe window.
- **Tombstones.** `db.py:45`, `routes_admin.py:79` and `docs/ingest-api.md:113` say that the acquirer
  honours tombstones and drops landed rows. It does not read them: rows staged before an erasure land under
  the same condition as any others, and stay (`Pipeline.ErasureDoesNotReachTheLake`).
- **Withdrawal during an upload.** The admin delete leaves no directory behind, whatever happens later, if
  and only if no upload of the node is under way with something left to write
  (`ServerRuns.AdminErasureLeavesNothingExactlyWhenNobodyFills`); the worker's next visit removes the rest
  (`ServerRuns.TheNextVisitPurges`).
- **An upload and the worker.** A stored file of a node that is not erased is never lost
  (`Consent.StoredFilesStay`). But the worker does not ask whether an upload is over: a visit that can read
  all that is there removes the inbox, and the files still to come are never stored
  (`Consent.AVisitCutsAnUploadShort`).
- **The online flag** goes up only when a pending batch was accepted. A backlog that drains with nothing
  pending leaves it down, and a spill that fails leaves it up
  (`ClientRuns.OnlineExactlyWhenTheBatchGotThrough`).
- **Long files with another phase label** make the worker give up the whole survey on every run
  (`Survey.AForeignPhaseStopsTheSurvey`). Without a converter, PQDIF files wait in the inbox; the worker's
  README says they are marked rejected. A conversion that fails or times out reads as a file with no
  rows, and the file is archived.
- **Order.** The server stages electrical rows before weather rows, and file by file; a row refused for
  consent may be accepted when it is sent again; and handlers of one node may overlap. Where they do not,
  and no append fails, each hour file is in capture order for rows never refused
  (`Undisturbed.EachFileIsInCaptureOrder`); such histories are among the schedules of the model in steps
  (`Schedules.EveryUndisturbedHistoryIsASchedule`).
- **NTP era rollover** (February 2036) makes every honest reply implausible, so the last offset stays
  (`Ntp.EraRolloverFreezesTheOffset`).
- **A buffer cap of zero** caps nothing, because `kept[-0:]` is all of `kept` (`DiskBuffers.Pruned`).

Conditions assumed throughout: flushes do not overlap and no stop spills during a drain; acquirer runs do
not overlap (they hold a lock), and each of a run's two scans of a dataset is one step, which sees no
half-written line (an append of more than a buffer reaches the file in pieces); the worker's
`process_survey` is one step in `ServerRuns`; the limiter's clock does not go back; the year and week of a
row are a function of its timestamp; lake files are compared by their keyed view (the last row of each key).
`Delivery`, `Undisturbed` and `Pipeline` take it that the node writes its own timestamps in a form that
parses, and that rows from other requests carry other node ids.

## Model

| member | source | states |
|---|---|---|
| `Capture.Listener.OnStateEvent` | custom_components/gridwitness/coordinator.py:124-151 | one pending row per known mapping, in mapping order; unusable states add nothing; the frequency last seen is kept |
| `Capture.ReadingCarriesTheValue` | custom_components/gridwitness/coordinator.py:136-151 | a mapping gives a row iff its channel is one of the fourteen; the row is of the channel's kind, on the mapped phase if electrical, received by the hub, and carries just the value |
| `Capture.KeysClash` | server/gridwitness_server/staging.py:69-77 | two rows of one state change have equal dedupe keys exactly when their mappings clash |
| `Capture.AllChannelsSurviveExactlyWithoutClashes` | custom_components/gridwitness/coordinator.py:136-151 | whatever was accepted before, all values of a state change are staged iff no two known mappings clash and the window remembers none of their keys |
| `DiskBuffers.DiskBuffer.Append` | custom_components/gridwitness/buffer.py:32-39 | appends one line per row, all with the same stamp; an append that fails gets the first lines out |
| `DiskBuffers.DiskBuffer.Peek` | custom_components/gridwitness/buffer.py:47-61 | the first `max` readable rows, all of them if there are fewer, corrupt lines skipped; or it raises |
| `DiskBuffers.ItemsInPlace` | custom_components/gridwitness/buffer.py:54-60 | reading a file gives, at every line that holds a row, that row, between those of the lines around it, and nothing for other lines |
| `DiskBuffers.JammedExactlyBeforeTheChunkIsFull` | custom_components/gridwitness/buffer.py:54-60 | a peek raises iff a line that is no JSON object has fewer than `max` rows in front of it |
| `DiskBuffers.DiskBuffer.Commit` | custom_components/gridwitness/buffer.py:63-72 | removes the first n lines, readable or not; everything when there are fewer |
| `DiskBuffers.DiskBuffer.Prune` | custom_components/gridwitness/buffer.py:74-100 | the file becomes its current lines, capped to the newest, and the count says how many went; or it raises at a line that is no JSON object, and the file stays |
| `DiskBuffers.PruneKeepsExactlyTheSpared` | custom_components/gridwitness/buffer.py:74-100 | a row survives iff its line has a readable stamp not before the cutoff, and fewer such lines than the cap follow it |
| `DiskBuffers.CommitRemovesOnlyThePushed` | custom_components/gridwitness/coordinator.py:179-191 | peek counts rows and commit counts lines, yet a commit removes only rows of the pushed chunk, from its head |
| `DiskBuffers.CommitRemovesNoAlien` | custom_components/gridwitness/coordinator.py:179-191 | and never a line that would stop a peek |
| `DiskBuffers.CommitTakesTheWholeChunkExactlyWhenReadable` | custom_components/gridwitness/coordinator.py:179-191 | a commit takes all of a pushed chunk off the file iff as many lines as it has rows are readable rows |
| `Coordinators.Coordinator.DrainDisk` | custom_components/gridwitness/coordinator.py:179-191 | the loop ends, and its pushes, remaining file, outcome and total are those of `Drain` |
| `Coordinators.Coordinator.OnFlush` | custom_components/gridwitness/coordinator.py:155-177 | pending rows, file, online flag, pushes, totals and lost rows after a flush, for every reply, for rows captured meanwhile, and for a spill that fails |
| `Coordinators.Coordinator.AsyncStop` | custom_components/gridwitness/coordinator.py:97-104 | spills what is pending |
| `Coordinators.Coordinator.AppendBuffer` | custom_components/gridwitness/coordinator.py:203-206 | append, then prune |
| `ClientRuns.DrainIsSafe` | custom_components/gridwitness/coordinator.py:179-191 | a drain keeps the order, takes off the disk only rows that a push settled, and when it reports empty no row is left |
| `ClientRuns.ADrainSettlesEachRowOnce` | custom_components/gridwitness/coordinator.py:179-191 | over readable lines a drain settles each row at most once, in file order, 2000 at a time: settled and left are what was there |
| `ClientRuns.SpillPrunesExactlyTheUnspared` | custom_components/gridwitness/buffer.py:74-100 | the rows a prune gives up are exactly the stale and those behind a full cap of newer ones, and none when it raises |
| `ClientRuns.ASpilledBatchIsKeptExactlyWhenItFits` | custom_components/gridwitness/buffer.py:32-100 | after a spill the batch is at the end of the file, whole and in order, iff disk, age and cap let it be; of a batch beyond the cap the newest rows are |
| `ClientRuns.NoRowIsForgotten` | custom_components/gridwitness/coordinator.py:97-206 | in every run, with restarts, kills, failing spills and faults of the file, a row was captured iff it is held, settled, pruned, damaged on disk, or was in memory only at an exception or kill |
| `ClientRuns.DeliveriesFollowCaptureOrder` | custom_components/gridwitness/coordinator.py:155-201 | in every run first deliveries are in capture order, and so are the rows still held |
| `ClientRuns.OnlyExceptionsLoseTheBatch` | custom_components/gridwitness/coordinator.py:155-206 | exactly which pending rows a flush loses: all at a non-API exception or a line that is no JSON object, the unwritten ones at a failing append, none otherwise |
| `ClientRuns.OnlineExactlyWhenTheBatchGotThrough` | custom_components/gridwitness/coordinator.py:155-177 | in every run: the flag is up after a flush iff the pending batch was accepted, or it was up and the flush did not end unreachable with all spilled |
| `ClientRuns.AnAlienLineSilencesTheNode` | custom_components/gridwitness/buffer.py:54-61 | from such a line on nothing is ever pushed, and every flush loses what is pending, whatever the server answers |
| `ClientRuns.DrainEmpties` | custom_components/gridwitness/coordinator.py:179-191 | a server that accepts everything empties the buffer in one drain iff no line is JSON without being an object |
| `ClientRuns.AGoodFlushSettlesEverything` | custom_components/gridwitness/coordinator.py:155-177 | after any history, over a file without such a line, one flush answered throughout settles every held row and only new captures remain |
| `ClientRuns.AKillLeavesTheDiskAndAStopSpills` | custom_components/gridwitness/coordinator.py:97-104 | in every run: after a kill the node holds what was on disk and nothing else; after a stop the pending rows are whole at the end of the file by the condition of a spill |
| `ClientRuns.AFaultTakesItsOwnRow` | custom_components/gridwitness/buffer.py:41-61 | in every run: a line spoilt on disk costs its own row and no other, and a line of noise costs none |
| `RateLimit.RateLimiter.Allow` | server/gridwitness_server/ratelimit.py:20-30 | grants iff the refilled level covers the rows; charges granted calls only |
| `RateLimit.LevelLater` | server/gridwitness_server/ratelimit.py:23-26 | lazy refills compose under the cap |
| `RateLimit.TokensStayInRange` | server/gridwitness_server/ratelimit.py:20-30 | tokens stay between zero and the capacity in every history |
| `RateLimit.WindowBound` | server/gridwitness_server/ratelimit.py:20-30 | rows granted in any window are at most the capacity plus the refill over it |
| `RateLimit.DecisionsIgnoreRefusals` | server/gridwitness_server/ratelimit.py:27-30 | deleting every refused call changes no decision |
| `RateLimit.NodesAreIndependent` | server/gridwitness_server/ratelimit.py:18-23 | deleting every other node's calls changes no level |
| `RateLimit.RetrySucceedsExactlyWhenRefilled` | server/gridwitness_server/ratelimit.py:23-30 | a refused call succeeds later iff it fits the bucket and the refill covers the shortfall |
| `RateLimit.DrainIsLiveExactlyWhenAChunkFits` | custom_components/gridwitness/coordinator.py:33 | a refused chunk gets through within a minute if it fits the bucket, and never if it does not |
| `Ntp.HonestReplyIsClose` | custom_components/gridwitness/ntp.py:37-77 | an accepted reply of a server that tells true time, in seconds since 1900, is off by at most half its round trip, so by half a second |
| `Ntp.NoAnswerExactlyBelowTheQuorum` | custom_components/gridwitness/ntp.py:72-97 | no answer iff fewer replies than the quorum, or none, came whole with a round trip of zero to one second; then a refresh changes nothing, whatever they say |
| `Ntp.MedianIsTheMiddle` | custom_components/gridwitness/ntp.py:97 | the median is the mean of the two elements in the middle by rank, for odd and even numbers |
| `Ntp.MajorityIsExact` | custom_components/gridwitness/ntp.py:80-97 | the median is near the truth whatever the other replies say iff the good ones are a strict majority |
| `Ntp.RefreshIsRobust` | custom_components/gridwitness/coordinator.py:208-223 | with an honest majority a refresh is within half a second, or unchanged when the node is implausibly far out |
| `Ntp.StampsStayTrue` | custom_components/gridwitness/coordinator.py:208-223 | over any run of such refreshes, with a drifting clock, the offset in force is right to half a second plus the drift since the last answer, and always plausible |
| `Ntp.EraRolloverFreezesTheOffset` | custom_components/gridwitness/ntp.py:37-39 | after the 32-bit seconds wrap an honest majority changes nothing |
| `Staging.Deduper.FilterNew` | server/gridwitness_server/staging.py:41-54 | keeps the rows whose key is not among the last `maxsize` accepted; the window is exactly those keys, all distinct; kept plus duplicates is the input |
| `Staging.StagingWriter.Write` | server/gridwitness_server/staging.py:69-77 | window, files and answer after a write, or after a timestamp that does not parse |
| `Staging.StagingWriter.Append` | server/gridwitness_server/staging.py:90-107 | bucketed appending leaves the files of appending row by row, whatever the bucket order |
| `Staging.RepeatsExactly` | server/gridwitness_server/staging.py:58-77 | two rows count as repeats iff kind, node and timestamp text agree, and the phase if they are electrical |
| `Staging.UniqueIsASelection` | server/gridwitness_server/staging.py:41-54 | what a call keeps is an order-preserving selection of what was sent |
| `Staging.UniqueKeepsSpacing` | server/gridwitness_server/staging.py:41-54 | equal accepted keys are always more than `maxsize` acceptances apart |
| `Staging.CallsCompose` | server/gridwitness_server/staging.py:41-54 | how a stream is cut into calls makes no difference |
| `Staging.EveryKeyIsAccepted` | server/gridwitness_server/staging.py:41-54 | the key of every row sent is accepted then or earlier, and every row kept was sent |
| `Staging.KeptWholeExactlyWhenNew` | server/gridwitness_server/staging.py:41-54 | after any history a batch is kept whole iff its keys are distinct and the window remembers none of them at its turn |
| `Staging.SuppressedByItsOwnKind` | server/gridwitness_server/staging.py:69-77 | a dropped row has a recent twin of its own kind, node, timestamp and phase |
| `Staging.AppendRowsAt` | server/gridwitness_server/staging.py:86-107 | each file gains exactly its own kind and hour's rows, in order, under one header |
| `Staging.GroupIsTheHour` | server/gridwitness_server/staging.py:86-95 | the rows of a batch that go to a file are those of its kind whose UTC time is within its hour |
| `Staging.WriteSucceedsExactlyWhenBadRowsAreRemembered` | server/gridwitness_server/staging.py:69-107 | after any history a write succeeds iff the window remembers, at its turn, every row whose timestamp does not parse |
| `Staging.RetryAfterABadStampLosesTheBatch` | server/gridwitness_server/staging.py:69-72 | after any history: a write that raised wrote nothing, and the retry keeps no row that it had kept |
| `ThreadedStaging.EveryInterleavingConserves` | server/gridwitness_server/staging.py:41-107 | for every interleaving of handlers and survey worker, with failing appends and restarts: rows written, in hand and lost are the accepted rows, each file holds exactly the rows written that belong there, and each window is spaced |
| `ThreadedStaging.OneWriterAtATime` | server/gridwitness_server/staging.py:97-106 | in every interleaving at most one writer of each process is at the hour files |
| `ThreadedStaging.OneHeaderExactlyWhenNoWriteIsStale` | server/gridwitness_server/staging.py:95-106 | for every interleaving a file is one header and then its own rows iff no write to it was stale |
| `ThreadedStaging.OneHeaderWithoutOverlaps` | server/gridwitness_server/staging.py:95-106 | so it is while no two writers are between look and write of one file, and nothing fails |
| `ThreadedStaging.ServerAndWorkerWriteTwoHeaders` | server/gridwitness_server/staging.py:64-106 | a run in which server and worker both write a file's header |
| `ThreadedStaging.AnEmptyFileStaysWithoutAHeader` | server/gridwitness_server/staging.py:99-105 | a file left empty by a failed append gets rows and no header |
| `ThreadedStaging.AnsweredIsOnDiskExactlyWhenAnAppendCompleted` | server/gridwitness_server/staging.py:69-107 | a handler that answered had every key accepted, and a key is on disk iff not all its acceptances were lost or are in hand |
| `ThreadedStaging.AFailedAppendIsAcknowledgedByTheRetry` | server/gridwitness_server/staging.py:69-72 | a run in which an append fails, the retry is answered, and the row was never written |
| `ThreadedStaging.ARestartLosesAcknowledgedRows` | server/gridwitness_server/staging.py:69-72 | a run in which a retry overtakes its first handler, is answered, and a restart loses the row |
| `ThreadedStaging.ARestartForgetsTheWindow` | server/gridwitness_server/staging.py:33-54 | after a restart, of one process and no other, whatever was accepted before is accepted again |
| `ThreadedStaging.AnUndisturbedWriteIsStage` | server/gridwitness_server/staging.py:69-107 | the steps of a writer that nobody disturbs add up to what the writing methods do in one go |
| `ThreadedStaging.AnUndisturbedHandlerAnswers` | server/gridwitness_server/routes_ingest.py:66-76 | a whole handler that nobody disturbs answers, having staged its electrical and then its weather rows |
| `ThreadedStaging.UndisturbedLosesNothing` | server/gridwitness_server/staging.py:90-107 | with timestamps that parse, no failing append and no restart, no writer fails and nothing is lost |
| `ThreadedStaging.QuietFilesHoldExactlyTheAccepted` | server/gridwitness_server/staging.py:86-107 | with no rows in hand each file holds exactly the accepted rows of its kind and hour that were not lost |
| `Registry.Database.CreateNode` | server/gridwitness_server/db.py:79-112 | inserts in three tables, or none when the id is taken |
| `Registry.Database.ChangeConsent` | server/gridwitness_server/db.py:114-138 | updates what was given, of that node only, in two tables |
| `Registry.Database.DeleteNode` | server/gridwitness_server/db.py:140-157 | succeeds iff the node is live; then no token, no private row, a tombstone |
| `Registry.CreateKeepsConsistent` | server/gridwitness_server/db.py:79-112 | creation succeeds iff the id is new, stores what was given, touches no other id, and keeps the four tables in agreement |
| `Registry.UpdateReplacesWhatIsGiven` | server/gridwitness_server/db.py:124-138 | of its own node an update replaces the channel set, or tier, place, cell and stored postcode, by what is given, and leaves the rest |
| `Registry.UpdateKeepsConsistent` | server/gridwitness_server/db.py:114-138 | an update, however late, keeps the four tables in agreement |
| `Registry.DeleteKeepsConsistent` | server/gridwitness_server/db.py:140-157 | deletion keeps them in agreement, ends exactly that node, changes no other id, never drops a tombstone |
| `Privacy.PlacesAreCoarse` | server/gridwitness_server/privacy.py:118-158 | of a place given in full: nothing, the picked region, or the region of the postcode's leading letters is published, and the postcode is stored on data share only |
| `Ingest.App.PostSamples` | server/gridwitness_server/routes_ingest.py:35-76 | every answer and the whole new state: 404 iff the node is unknown or erased, 401 iff the token is not its own; accepted plus duplicates plus rejected is the rows sent |
| `Ingest.App.Receive` | server/gridwitness_server/models.py:81-122 | a body is refused whole, and changes nothing, iff a row has an unknown source or phase or a frequency outside 40 to 70 Hz |
| `Ingest.RejectedExactlyTheUnconsented` | server/gridwitness_server/routes_ingest.py:46-68 | rejected indices are exactly the rows with an unconsented channel, and all others are admitted |
| `Ingest.AdmittedSayTheConsented` | server/gridwitness_server/privacy.py:46-81 | each admitted row says, field by field, what a consented sample says, with the node's allowed tags, and each consented sample is said by one |
| `Ingest.AnAnsweredRequestIsStaged` | server/gridwitness_server/routes_ingest.py:66-76 | a request is answered iff the rows the window lets through parse; then their keys are remembered and they are in the files, electrical first; otherwise exactly what was written before the error |
| `ServerRuns.TablesAgreeInEveryRun` | server/gridwitness_server/db.py:79-157 | in every run, with updates landing late: live nodes alone have tokens and private rows, a postcode exactly on data share, a tombstone exactly when erased |
| `ServerRuns.EveryStagedRowWasConsented` | server/gridwitness_server/routes_ingest.py:35-76 | every row ever staged was brought by a post with its node's token, or by the worker; says what was brought; and carries only channels consented to, and the tags held, when its request or worker read the node |
| `ServerRuns.ErasureIsFinal` | server/gridwitness_server/db.py:140-203 | in every continuation an erased node stays erased everywhere, cannot come back, and its staged rows all come from before |
| `ServerRuns.NothingMoreIsStagedExactlyWhenQuiet` | server/gridwitness_server/routes_ingest.py:35-76 | of an erased node no row is handed to staging in any continuation, by either path, iff no post under way carries a consented row |
| `ServerRuns.APostOutlivesErasure` | server/gridwitness_server/routes_ingest.py:35-76 | a run in which a node registers, posts one weather row, is erased, and the row is staged all the same |
| `ServerRuns.AdminErasureLeavesNothingExactlyWhenNobodyFills` | server/gridwitness_server/routes_admin.py:73-84 | once the admin delete has returned no inbox or archive of the node exists in any continuation, iff no upload of it was under way with something to write |
| `ServerRuns.AnUploadOutlivesWithdrawal` | server/gridwitness_server/routes_survey.py:102-150 | a run in which a survey is withdrawn before its inbox is made, and the inbox stays |
| `ServerRuns.TheNextVisitPurges` | survey_ingest/survey_ingest.py:90-95 | the worker's next visit removes what was left, for good once no upload has still to make its inbox |
| `ServerRuns.SecretsNeverReachStaging` | server/gridwitness_server/privacy.py:46-158 | two histories differing only in tokens, account references and postcodes of one area stage the same rows and publish the same records |
| `Consent.StrangersChangeNothing` | server/gridwitness_server/auth.py:42-52 | a post, change or erasure without the node's token, or from another account, changes nothing at all |
| `Consent.OthersAreNotRegistered` | server/gridwitness_server/routes_survey.py:65-90 | a registration without the place its tier needs, and an upload without files, or that is anonymous, changes nothing |
| `Consent.ARegistrationHolds` | server/gridwitness_server/routes_register.py:15-63 | until erasure the registered token alone authenticates and the registered account alone owns and lists the node; until a change takes effect, device, consent and published place are those registered |
| `Consent.AConsentChangeHolds` | server/gridwitness_server/routes_ingest.py:79-112 | from when a PATCH takes effect until another does, no row staged for whoever reads the node meanwhile carries a channel outside the set asked for, or another place than the one asked for |
| `Consent.APostHandsOverTheConsented` | server/gridwitness_server/routes_ingest.py:35-76 | a post with the token hands over, in its turn, a row for each sample within the consent of the time it came, and no more |
| `Consent.AnUploadStoresItsFiles` | server/gridwitness_server/routes_survey.py:119-150 | an upload that nothing comes between puts its files and the manifest in the inbox, and touches nothing else |
| `Consent.StoredFilesStay` | survey_ingest/survey_ingest.py:129-163 | in every run, no stored file of a node that is not erased leaves inbox and archive |
| `Consent.AVisitCutsAnUploadShort` | survey_ingest/survey_ingest.py:98-160 | a run in which a visit removes the inbox of an upload under way, whose later files are never stored |
| `Survey.Worker.ProcessSurvey` | survey_ingest/survey_ingest.py:81-163 | directories, manifest, staging and result after one visit, on every path |
| `Survey.EachFileIsReadInItsPlace` | survey_ingest/survey_ingest.py:100-127 | what a visit reads is, by position, the rows of each file it handles, in their order, files in inbox order, and no others |
| `Survey.HandledFilesAreStaged` | survey_ingest/survey_ingest.py:113-129 | after a visit that ends well the key of every consented row of every file it handled is accepted, and the count is the keys accepted |
| `Survey.AVisitIsAServerStep` | survey_ingest/survey_ingest.py:81-163 | a visit that ends well, and a purge, are the worker's step in the server's runs |
| `Survey.VisitKeepsAccounted` | survey_ingest/survey_ingest.py:113-163 | one visit keeps the accounts below |
| `Survey.SurveysAreResumable` | survey_ingest/survey_ingest.py:81-163 | over any visits: inbox and archive are the uploaded files, each once; the rows handed to the writer are the consented rows of the archived files, in archive order, each file's as one visit read them; `rows_staged` is the sum accepted; processed iff the inbox is gone |
| `Survey.CompletesExactlyWhenAllIsReadable` | survey_ingest/survey_ingest.py:100-163 | a visit completes iff every file can be read now, and one with an invalid row changes no directory |
| `Survey.DeferredFilesStayInPlace` | survey_ingest/survey_ingest.py:104-112 | the inbox keeps exactly the files that cannot be converted yet, in their order |
| `Survey.ABadTimestampIsRemembered` | survey_ingest/survey_ingest.py:113-129 | a visit stopped by a timestamp that does not parse leaves directories and hour files as they were, and has its rows remembered all the same |
| `Survey.AllRowsSurviveExactlyWhenApart` | survey_ingest/survey_ingest.py:100-124 | all rows of a visit are staged iff no two, of whichever files, have one timestamp and phase, and the window remembers none |
| `Survey.InvalidExactlyWithAForeignPhase` | survey_ingest/survey_ingest.py:113-117 | a long CSV file is refused iff a row parsed from it has a phase other than the four |
| `Survey.AForeignPhaseStopsTheSurvey` | survey_ingest/survey_ingest.py:100-117 | one such file keeps the whole survey from moving or staging anything, over any number of runs |
| `Survey.ConverterOutputIsRead` | tools/pqdif2csv/Program.cs:117-146 | what the converter prints is never refused |
| `Survey.AConvertedValueIsRead` | tools/pqdif2csv/Program.cs:117-146 | from converter to worker: a cell that a series fills is read as a sample of that time and phase, with the last in-band value printed for it |
| `LongFormat.Emit` | tools/pqdif2csv/Program.cs:117-135 | prints the points that have a time and a number |
| `LongFormat.RowsFromLong` | survey_ingest/parsers.py:176-198 | the filled rows of the grouped dictionary in its order, with the counts |
| `LongFormat.OneRowPerFilledKey` | survey_ingest/parsers.py:176-198 | exactly one row per key with an in-band value, none for other keys |
| `LongFormat.EachCellHoldsItsLastValue` | survey_ingest/parsers.py:176-198 | of any long file: a row per time and phase with a value that parses, no phase meaning "1p"; each cell the last value given it in its band, a channel that is both counting as frequency |
| `LongFormat.LaterRowsGoBehind` | survey_ingest/parsers.py:193 | rows keep the order in which their keys first appear, however the file goes on |
| `LongFormat.CollectedInPlace` | survey_ingest/parsers.py:197 | rows with a value are given out in that order, each in its place, and no others |
| `LongFormat.RoundTrip` | tools/pqdif2csv/Program.cs:117-146 | printing then parsing gives, per millisecond and phase label, the value of the last point that fills the cell, series by series and point by point, present exactly when one does |
| `LongFormat.OrderIsIrrelevantExactlyWhenUnambiguous` | survey_ingest/parsers.py:176-198 | the parsed values are the same for every order of the lines iff no cell is given two values |
| `LongFormat.ParsedRowsAreValid` | server/gridwitness_server/models.py:87-107 | a parsed row is acceptable to the server's model iff its phase is one of the four |
| `Lake.Dataset.WriteDataset` | gda_acquirer/gridwitness_acquire.py:183-217 | stopped after any number of file steps, each week file is its old or its fully merged content; without a stop, exactly the weeks whose file failed to read are left as they were; the count is the rows of the weeks written |
| `Lake.NewContentView` | gda_acquirer/gridwitness_acquire.py:201-213 | drop duplicates, combine and sort amount, key by key, to an overlay |
| `Lake.WrittenFilesAreSorted` | gda_acquirer/gridwitness_acquire.py:213 | every written file is sorted by time, node and phase, in alphabetical order; a week's first file holds every row of its group, repeats and all |
| `Lake.OverlayLaws` | gda_acquirer/gridwitness_acquire.py:210 | the overlay is idempotent, adds exactly the new keys, never replaces a value by null |
| `Lake.MergedIsOnePerKey` | gda_acquirer/gridwitness_acquire.py:208-213 | a merged file holds each key once |
| `Lake.MergeForgetsEarlierDuplicates` | gda_acquirer/gridwitness_acquire.py:201-213 | of a key not in the batch, a merge keeps exactly the cells of its last row |
| `Lake.PartitioningIsInvisible` | gda_acquirer/gridwitness_acquire.py:194-216 | grouping by week and merging file by file is one merge of a flat table |
| `Acquirer.Runner.Run` | gda_acquirer/gridwitness_acquire.py:253-272 | with staging changing between its scans: a run that dies anywhere leaves whole week files and the old cursors; one that ends has written all it could read and saved both cursors, and counts the rows |
| `Acquirer.StepsAreARun` | gda_acquirer/gridwitness_acquire.py:253-272 | the steps of a run, in any order of weeks and with rows staged meanwhile, leave the files and cursor that the running acquirer leaves |
| `Acquirer.BatchView` | gda_acquirer/gridwitness_acquire.py:104-117 | what a run reads for a key is its own hour file, iff that hour is uncovered and the key inside the horizon |
| `Acquirer.CrashThenRerun` | gda_acquirer/gridwitness_acquire.py:194-272 | a run that dies anywhere, run again over the same staging, gives the keyed lake and cursor of one run |
| `Acquirer.CoveredForever` | gda_acquirer/gridwitness_acquire.py:263-269 | keys of a covered hour never change again, whatever is staged |
| `Acquirer.TheCursorIsTheNewestHour` | gda_acquirer/gridwitness_acquire.py:120-130 | a run that ends leaves the cursor at the newest hour its second scan lists, even one before the old cursor, and where it was if there is no file |
| `Acquirer.TheCoveringRunDecides` | gda_acquirer/gridwitness_acquire.py:253-272 | after any history, the first run to cover a key's hour settles for good what the lake says of it |
| `Acquirer.LandsExactlyWhenOnTime` | gda_acquirer/gridwitness_acquire.py:183-272 | a key lands iff it was staged before that run's first scan, inside its horizon, and its week's file could be read |
| `Acquirer.ARowBetweenTheScansIsLost` | gda_acquirer/gridwitness_acquire.py:261-269 | a run in which a row opens a new hour between the two scans, and no continuation lands it; one step earlier it lands |
| `Acquirer.ReadMissesNothing` | gda_acquirer/gridwitness_acquire.py:220-231 | a run's first scan misses nothing iff the horizon lets in all it could read |
| `Acquirer.StagingMissesNothing` | gda_acquirer/gridwitness_acquire.py:261-269 | a row staged during the run leaves it so iff its hour is covered already or it repeats what was staged |
| `Acquirer.IncrementalEqualsFull` | gda_acquirer/gridwitness_acquire.py:253-272 | any on-time history of stagings and runs gives, hour by covered hour, the keyed lake of one run over everything, and its cursor; with runs that die too, if restaged rows fill no fewer columns |
| `Acquirer.TheNewestStandsExactlyWhenNoColumnIsLost` | gda_acquirer/gridwitness_acquire.py:208-211 | after a crash the covering run shows the newest row of a key iff that fills every column filled before |
| `Acquirer.ACrashMixesTwoVersions` | gda_acquirer/gridwitness_acquire.py:208-211 | a run from the start in which it does not: the lake shows a mixture that no row ever said |
| `Acquirer.OnTimeKeysLand` | gda_acquirer/gridwitness_acquire.py:253-272 | after an on-time history with crashes, a key of a covered hour is in the lake iff it is in staging, even when repeats differ |
| `Acquirer.LakeSaysOnlyWhatWasStaged` | gda_acquirer/gridwitness_acquire.py:183-217 | in every history each cell of the lake is one that a staged row of its key says |
| `Acquirer.TrailingHorizonStarvesTheLake` | gda_acquirer/gridwitness_acquire.py:220-231 | runs whose horizon trails their cursor never change the lake |
| `Requests.DroppedExactlyWithABadRow` | custom_components/gridwitness/api_client.py:24-28 | if the server refuses exactly the bodies with an unacceptable row: a row is settled iff it was seen accepted or shared a refused push with such a row, which is never handled itself; for captured values, one on an unknown phase or an implausible frequency |
| `Requests.CapturedIsAcceptableUnlessBad` | server/gridwitness_server/models.py:81-122 | the server takes what a node captures except exactly values on a phase other than the four and frequencies outside 40 to 70 Hz |
| `Requests.RowsOfAreAdmitted` | custom_components/gridwitness/coordinator.py:193-198 | the rows of a push are what the handler admits of the samples it sends, kind by kind, in order |
| `Delivery.EveryRowIsAccountedFor` | custom_components/gridwitness/coordinator.py:155-201 | with a server that does anything, a row was captured iff it is held, settled or lost in an accounted way |
| `Delivery.EveryLandedPushHasAHandler` | server/gridwitness_server/routes_ingest.py:35-76 | in every run exactly the pushes that landed have a handler of the server by the time it has seen them |
| `Delivery.EndToEnd` | server/gridwitness_server/routes_ingest.py:35-76 | in every run, handlers overlapping, appends failing, processes restarting: a row of an answered push was refused for consent then, or its key was accepted and is on disk iff an append that was to write it completed |
| `Undisturbed.EachFileIsInCaptureOrder` | custom_components/gridwitness/coordinator.py:193-198 | with handlers that do not overlap or fail: in an hour file no row of a later captured key stands before the first of an earlier one that was processed and never refused |
| `Schedules.EveryUndisturbedHistoryIsASchedule` | server/gridwitness_server/routes_ingest.py:35-76 | every history in which the server processes each push in one go is a schedule of the handlers' steps, with the same node, record, refusals, window and hour files |
| `Schedules.TheLastRecordCounts` | server/gridwitness_server/routes_ingest.py:38-44 | from one consent change to the next every handler that starts reads the record the first one left |
| `Pipeline.NullsSpareNumbersButNotTags` | gda_acquirer/gridwitness_acquire.py:144-178 | merging keeps a stored number under a null, but every tag becomes the newer one, and a null tag the empty text |
| `Pipeline.ALakeRowSaysItsNode` | gda_acquirer/gridwitness_acquire.py:144-178 | from node record to lake columns: every tag column of its kind is there and says what the record says, nothing being the empty text |
| `Pipeline.LakeTagsAreTheNodes` | gda_acquirer/gridwitness_acquire.py:104-272 | a tag the lake has of a reading alone at its key is that of a record under which the reading was handled |
| `Pipeline.TreeMirrorsTheFiles` | gda_acquirer/gridwitness_acquire.py:104-178 | staging the rows in the order they were written gives, hour by hour, what reading the server's files gives |
| `Pipeline.ReadingsReachTheLakeExactlyWhenOnDisk` | gda_acquirer/gridwitness_acquire.py:104-272 | after any run of node and server and any on-time acquirer history with crashes: a captured row on disk in a file with its header is in the lake, and for a reading alone at its lake key only then, with the values it was captured with |
| `Pipeline.AcknowledgedReadingsReachTheLakeExactlyWhenWritten` | custom_components/gridwitness/coordinator.py:193-201 | a reading acknowledged to the node and not refused is in the lake iff an append that was to write it completed, into a file with its header |
| `Pipeline.ErasureDoesNotReachTheLake` | gda_acquirer/gridwitness_acquire.py:253-272 | a staged key of an erased node lands as any other and stays in every continuation |

## Left out

- Home Assistant plumbing, HTTP transport and the portal: a push is one of accepted, retryable, refused, or raised, and the model chooses freely which, and whether the server processed it.
- FastAPI, pydantic, SQLite, pandas, parquet and sockets: abstract maps, sequences and step outcomes. Of pydantic's checks of a request body, those of source, phase and frequency are modelled, the others taken to have passed.
- Hashing and token generation: a token is an opaque value and stands for its hash.
- Floating point: rates, offsets and readings are exact reals.
- Text of numbers and timestamps in CSV: taken to parse back to the value printed; timestamps from the node and the server are instants plus a spelling.
- Tolerant date parsing, delimiter sniffing, header matching and the wide-table parser `_rows_from_records`: each would add a filter with the same in-band test as the long parser.
- PQDIF decoding: only the printer `Emit` and the phase mapping are modelled; a conversion is a parameter of the worker.
- Lines of the buffer file that are not UTF-8, which raise from any operation that reads up to their block; records whose `buffered_ts` is not text; torn writes within a line; and errors of the file system in reading the buffer or in a commit, which lose the batch of the flush like other exceptions.
- A file that is being uploaded while the worker reads it: read as what it holds then.
- The device profile and producer of a survey node, and its token, are parameters of an upload; the route fixes the producer and mints a token it gives to nobody. File names are taken as stored.
- ServerRuns.NothingMoreIsStagedExactlyWhenQuiet: counts rows handed to staging, before the dedupe window and the limiter; a post of remembered duplicates counts although nothing of it is written.
- Overlapping flushes, and a stop during a drain: assumed not to happen.
- Coordinators.Api.PostSamples: replies come from a script; the network is not modelled beyond that.
- Acquirer.Runner.Run: a scan reads staging at one moment; a row that arrives during the scan counts as before it or after it as its own file was read.
- Survey.Worker.ProcessSurvey: one atomic step with respect to deletion, and the loop over surveys in `drain` that catches its exceptions is not modelled.
- ServerRuns.ErasureIsFinal: shows that rows staged after the erasure come only from requests authenticated before it, not that there are none; `ServerRuns.NothingMoreIsStagedExactlyWhenQuiet` says exactly when there are none.
- Privacy.Resolve: the postcode-to-region table and Python's string methods are parameters, and the geo-IP lookup, which the server does not wire up, always answers nothing.
- Staging lag, daily sample counts, listeners, clock quality notes, extracted CSV copies, zip export, consent groups and `cell_id_from_latlon`: no other modelled state depends on them.
- Week numbers are a function of the timestamp given as a parameter; the schema check after each write is not part of this model.
- Rows whose lake timestamp or node id is missing are dropped by the frames; staged rows always have both.
