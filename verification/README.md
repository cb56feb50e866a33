# DiscEcho daemon: a verified model

DiscEcho's daemon rips optical discs. HTTP handlers, udev events and one worker
per drive share a SQLite store; tool output arrives in arbitrary chunks; events
are fanned out to browsers. This project models the parts of it whose
correctness depends on order, interleaving or exact string handling, and proves
what they promise. `dafny verify dfyconfig.toml` checks everything.

## The modules

**The job protocol.** `Schema` holds the store's tables as maps and its
statements as functions, foreign-key cascades included. `Protocol` is a step
system over those tables: per-drive bounded channels and worker program
counters, `cancels`, the holder of `startMu`, requests in flight, Close,
deletions of any jobs and discs (a deletion's own check is a separate call and
may be out of date by then), the drive scan at start-up and a crash that keeps
only the tables. Its steps
are the single store calls, channel operations and lock operations of the Go
code; any store call may fail, and a worker at its `select` may take an item
even after `stopped` closed. `ProtocolSafety` proves exclusion per drive, channel
order, at most one run per job, the exact contents of `cancels` and silence
after Close. `ProtocolUnique` proves at most one active job per disc, disc by
disc, and `Recovery`, job by job, that a crash leaves no trace after start-up.
`ProtocolRuns` builds the runs that show where a promise fails. `Restart` says
what start-up means for each job, disc and drive, state by state. Two facts about
the code show up as theorems rather than as assumptions:

- `Cancel` looks a job up and writes its state in two parts. If that write lands
  between a worker's read of the job and its "running" write, the running write
  overrides it (`UpdateJobState` has no guard on the old state, so a cancel can
  also rewrite a finished job's state) and a second start of the same disc can
  slip in between. Each disc is safe in every run without that coincidence on
  its own jobs, and `SplitCancelBreaksUniqueness` builds a run with it.
- The same late write landing inside `handler.Run`, or the loss of a write that
  ends one of a job's steps, can leave that step running after every later
  restart; `LateCancelRun` and `LostWriteRun` build such runs from a clean start,
  for any plan and any step it keeps. Recovery is complete for each job in every
  run without these for that job, and `RecoverClearsStep` says exactly which
  running steps start-up clears.

**The store.** `Store` is the store as an object whose methods change the tables
in place, each proved against the functions of `Schema` and `History`.
`History` proves what clearing, single-job deletion and the retention sweep
leave behind. `Timestamps` proves when RFC 3339 strings (section 5.1 of RFC 3339
asks for equal fraction digits, which trimming breaks) compare in time order.

**Steps and progress.** `Sink` is the persistent sink: throttling and coalescing
as a function of the calls made on it, and the object that follows it.
`SinkTrace` and `StepTrace` say which step events a handler may produce and what
they leave in the job's rows, for any skip set; `Handlers` runs the audio-CD,
DVD-Video and PlayStation handlers, with their tools given by arbitrary
outcomes, and proves that they produce exactly those events. A failed eject ends
as done, because its deferred completion runs after the failure report.
`JobRows` puts handlers and protocol together: the step rows of a job, from its
start request through any run to its handler's return and beyond. `JobEnds` does
the same for the state of the job's own row and of its drive.

**Identify.** `DiscFlow` is one media-change event, or one forced re-identify, as
straight-line code on the store, any of whose calls may fail; `IdentifyFlow`
interleaves any number of them at their store calls with the drive writes of
jobs and ejects. One row per drive and TOC hash holds in every run. That a drive
has one owner holds, drive by drive, as long as nothing writes it back to idle
or error under an owner, and `DisturbanceBreaksExclusion` and
`DisturbanceBreaksInserts` show what any such write can lead to. `Classify` has
the three retry loops around classification, and `CdInfo` the watcher that stops
cd-info early, with the exact condition under which stopping early cannot change
the disc type.

**Events.** `Hub` states delivery on values: a log, and per subscriber what it
received and what is buffered. `Broadcaster` is the heap form with bounded
channels, `EventStream` the browser's stream that subscribes before it reads its
snapshot: a client that is not dropped gets every change exactly if its snapshot
read worked or nothing was published before it subscribed.

**Parsers and paths.** `LineScanner` (CR/LF tokens under a refilled buffer and a
forced drain), `MakeMkvRows` and `MakeMkv` (robot-mode rows and the title list),
`MakeMkvNoise` (which lines are rows, and that no other line matters),
`Decimal` (Go's unchecked number parsing), `Whipper` (AccurateRip results from
two interleaved streams) and `Paths` (sanitised output paths). `Text` and
`Wrappers` are shared helpers.

**Library moves.** `Moves` has the moves of one job under arbitrary failures, on
the assumption that nobody else uses its paths. `SharedMoves` drops it: several
drives' moves, one system call per step. `AtomicMove` looks whether its
destination is free and renames onto it in two calls, and a rename replaces what
it finds, so a file is overwritten exactly if another move created it between
the two. After that a failed copy's clean-up can remove another move's finished
file, and a copy that is gone can cost its source too. Nothing is lost on a path
until a rename has overwritten something there, and none does as long as moves
to it take turns. `TwoDrivesOnePath`, `CleanUpTakesAnothersFile` and
`CopyIsAbandoned` are runs that lose a file.

## Where code and comments disagree

The model follows the code.

- `PruneHistoryBefore` says it deletes done, failed and cancelled jobs
  (`daemon/state/store.go:1880`); it deletes interrupted ones too. It also drops
  discs that never had a job, which `ClearHistory` keeps.
- `DeleteDisc` says it does not cascade-delete jobs
  (`daemon/state/store.go:566-568`); the foreign key does.
- `retryingSystemCNFProber` says that errors short-circuit on the first attempt
  (`daemon/identify/classify.go:408-410`); they are retried like empty answers.
- The store's times are meant to sort as strings; within one second they sort by
  time only under the condition of `WithinOneSecond`.

## Model

| member | source | states |
|---|---|---|
| ProtocolSafety.StepKeepsInv | daemon/jobs/orchestrator.go:62-257 | every step of every interleaving of requests, workers, Cancel, Close, deletions and crashes keeps the protocol invariant: lanes in order, one request per job in flight, `cancels` exact, close flags coherent |
| ProtocolSafety.RunKeepsInv | daemon/jobs/orchestrator.go:62-257 | so the invariant holds in every reachable state |
| ProtocolSafety.OneRunPerDrive | daemon/jobs/orchestrator.go:142-198 | two workers inside handler.Run work on different drives and different jobs |
| ProtocolSafety.RunOrder | daemon/jobs/orchestrator.go:168-181 | jobs enter handler.Run in the order of their channel |
| ProtocolSafety.RunOncePerJob | daemon/jobs/orchestrator.go:168-198 | no job enters handler.Run twice, on its own drive or any other |
| ProtocolSafety.CancelsExact | daemon/jobs/orchestrator.go:125-137 | `cancels` holds a job exactly while some worker is inside runJob for it |
| ProtocolSafety.SilentAfterClose | daemon/jobs/orchestrator.go:54-70 | once Close has returned every worker is gone and, until the process restarts, none starts and nothing enters handler.Run |
| ProtocolSafety.TurnKeepsCancels | daemon/jobs/orchestrator.go:183-195 | registering and deregistering in `cancels` follows the worker in and out of runJob, whoever else is inside |
| ProtocolUnique.StepKeepsUnique | daemon/api/discs.go:109-126 | for each disc: every step keeps "at most one active job of it", given StartDisc and no cancel of one of its jobs landing between the worker's read and its running write; cancels of other discs' jobs do not matter |
| ProtocolUnique.RunKeepsUnique | daemon/api/discs.go:109-126 | the same over whole runs, crashes included |
| ProtocolUnique.NeverTwoActiveJobs | daemon/state/store.go:550-564 | in no state of a run that is careful about this disc do two queued, identifying, running or paused jobs share it, whatever happens to other discs |
| ProtocolUnique.DeleteIsGentle | daemon/api/discs.go:137-157 | deleting any jobs and discs, active ones included, cannot give a disc a second active job |
| ProtocolUnique.WorkTablesEffect | daemon/jobs/orchestrator.go:206-257 | no worker step makes a job active that was not, and it writes at most its own job's row |
| ProtocolUnique.CreateKeepsUnique | daemon/api/discs.go:113-126 | the insert under startMu cannot add a second active job for the disc |
| ProtocolUnique.CancelIsGentle | daemon/jobs/orchestrator.go:129-134 | writing "cancelled" outside that window starts nothing and leaves every job in the window queued |
| ProtocolUnique.LateCancelBreaksUniqueness | daemon/jobs/orchestrator.go:125-137 | the condition is needed: after any cancel in the window, a start request and the worker's next step give two active jobs |
| ProtocolUnique.SplitCancelBreaksUniqueness | daemon/jobs/orchestrator.go:125-137 | a whole run, from a clean start, in which the code as written reaches two active jobs on one disc |
| Recovery.RecoverCleans | daemon/state/store.go:1230-1259 | start-up leaves no waiting or running job and no identifying drive, and does not touch paused or finished jobs nor steps that were not running |
| Recovery.RecoverClearsStep | daemon/state/store.go:1245-1252 | for each running step: start-up clears it exactly if its job was waiting, running or interrupted |
| Recovery.RecoverStartsNone | daemon/state/store.go:1245-1252 | and it sets no step running |
| Recovery.RecoverTwice | daemon/cmd/discecho/main.go:79-91 | a second restart changes nothing more |
| Recovery.StepKeepsTidy | daemon/jobs/sink.go:62-98 | for each job: every step that neither cancels it inside handler.Run nor loses one of its ending writes keeps "a running step of it is the current one of the worker that runs it" |
| Recovery.RunKeepsTidy | daemon/jobs/orchestrator.go:195-257 | the same over whole runs, crashes included |
| Recovery.RunningStepsInRuns | daemon/state/store.go:1345-1368 | in a run faithful for this job, a running step of it means that it is running, and it has no other |
| Recovery.CrashAnywhere | daemon/jobs/orchestrator.go:40-53 | a crash at any point of a run faithful for this job, then start-up: it is neither waiting nor running, none of its steps runs, and if it was finished nothing of it changed; lost writes of other jobs do not matter |
| Recovery.LateCancelStrandsStep | daemon/jobs/orchestrator.go:125-137 | the condition on cancels is needed: wherever one is pending inside handler.Run, the run goes on to a step left running after the restart |
| Recovery.StrandedForGood | daemon/state/store.go:1230-1259 | and no later restart clears it |
| Recovery.LostWriteStrandsStep | daemon/jobs/sink.go:225-229 | the condition on step writes is needed: losing any write that ends a step, first, middle or last, leaves it running after the restart if the rest of the handler does not touch it |
| Recovery.ReachStep | daemon/pipelines/audiocd/audiocd.go:118-212 | from a clean start, for any plan and any step it keeps: a run in which a handler with the full event trace of that plan is in that step while a cancel is waiting to write |
| Recovery.LateCancelRun | daemon/jobs/orchestrator.go:125-137 | so a late cancel can leave any kept step of any plan running for good |
| Recovery.LostWriteRun | daemon/jobs/sink.go:225-229 | and so can the loss of the one write that ends it |
| JobRows.StepKeepsFresh | daemon/api/discs.go:109-126 | until its worker gets to the handler, a new job's rows are as planned, whatever else runs |
| JobRows.StepKeepsRunShows | daemon/jobs/orchestrator.go:168-198 | from then on they are the plan changed by the events written so far, under any other traffic, as long as no crash catches the handler and none of the job's step writes is lost |
| JobRows.JobEndsAsItsHandlerRan | daemon/jobs/orchestrator.go:168-262 | in every such run, from the handler's return on, later restarts included, the eight rows of a job that is not deleted are those its handler's run is meant to leave: skipped, done, one failed, or pending |
| JobEnds.JobEndsInItsState | daemon/jobs/orchestrator.go:195-257 | in every run, from its final write on, through restarts, while its row stays and no later cancel is written over it: a job whose handler returned nil is done, one whose context ended is cancelled, one with any other error is failed with that error's message |
| JobEnds.UnhandledJobFails | daemon/jobs/orchestrator.go:206-227 | a job that never got to its handler ends failed in the same way |
| JobEnds.JobAndStepsAgree | daemon/jobs/orchestrator.go:168-257 | in every run in which no crash catches the handler and none of the step writes is lost, with a handler that returns as its steps ran: the job is done exactly if no step failed, and exactly if all its step rows say done or skipped; a failed step means failed or cancelled |
| JobEnds.DriveRipsWithItsJob | daemon/jobs/orchestrator.go:234-236 | if the write at the start worked, the drive says ripping in every state in which its worker is in the handler or has just left it |
| JobEnds.DriveIsIdleAfterwards | daemon/jobs/orchestrator.go:258-260 | if the write at the end worked, the drive is idle from then on, restarts included, until its worker starts the next job |
| Restart.StateAfterRestart | daemon/state/store.go:1230-1259 | each row after start-up: queued, identifying and running jobs are interrupted with the time, all others as they were |
| Restart.ActiveByState | daemon/state/store.go:550-564 | the four states that hold a disc back |
| Restart.ActiveAfterRestart | daemon/state/store.go:1230-1259 | after start-up a disc has an active job exactly if one of its jobs was paused |
| Restart.DiscStartsAgain | daemon/api/discs.go:109-126 | so from any start a request for any other disc gets past the check under startMu and has its queued job in the store |
| Restart.PausedDiscIsRefused | daemon/api/discs.go:109-116 | and one for a disc with a paused job ends at the check |
| Restart.ClearAfterRestart | daemon/state/store.go:1958-1999 | ClearHistory after a restart removes every job but the paused ones, those waiting or running at the crash included |
| Restart.ClearedDiscs | daemon/state/store.go:1974-1986 | and every disc that had jobs, none of them paused |
| Restart.SweepAfterRestart | daemon/state/store.go:1884-1896 | the retention sweep takes an interrupted job exactly once the restart compares before the cutoff; until then its drive is in its cooldown |
| Restart.DrivesAfterRestart | daemon/drive/scan.go:14-40 | after the start-up scan every drive found is idle and claimable, and no drive is identifying |
| ProtocolRuns.ReachLoaded | daemon/jobs/orchestrator.go:168-181 | from a clean start, a run in which a worker has read a job's row while a cancel of it is waiting to write |
| Store.Store.UpdateDriveState | daemon/state/store.go:190-224 | writes the state, clears the error on idle, ErrNotFound changes nothing |
| Store.Store.ClaimDriveForIdentify | daemon/state/store.go:243-253 | compare-and-set: succeeds exactly from idle or error, after which no claim can succeed |
| Store.Store.ResetIdentifyingDrives | daemon/state/store.go:175-184 | frees exactly the identifying drives and counts them |
| Store.Store.CreateDisc | daemon/state/store.go:301-323 | inserts unless the ID is taken, the drive unknown or the unique index on drive and TOC hash refuses; keeps at most one row per drive and hash |
| Store.Store.GetDiscByDriveTOC | daemon/state/store.go:334-345 | the newest matching row, or nothing exactly if none matches or a key is empty |
| Store.Store.GetDiscByDriveAndMetadataID | daemon/state/store.go:353-367 | the same by metadata ID within the window |
| Store.Store.Newest | daemon/state/store.go:341-343 | ORDER BY created_at DESC LIMIT 1 |
| Store.Store.UpdateDiscMetadata | daemon/state/store.go:472-485 | refreshes title and metadata, keeping ID, drive, hash and age |
| Store.Store.CreateJob | daemon/state/store.go:824-885 | job and eight step rows in one transaction, or nothing; referential integrity kept |
| Store.NewJobSteps | daemon/state/store.go:866-880 | a new job has all eight steps, skipped exactly as planned |
| Store.SkippedInOneMore | daemon/state/store.go:835-840 | the skip set collected from the plan, entry by entry |
| Store.Store.UpdateJobState | daemon/state/store.go:1141-1168 | any state may follow any other; timestamps and message as the new state asks |
| Store.Store.UpdateJobStepState | daemon/state/store.go:1345-1368 | state, attempt count and timestamps of one step row |
| Store.Store.DiscHasActiveJob | daemon/state/store.go:550-564 | true exactly if the disc ID is not empty and a job of the disc is queued, identifying, running or paused |
| Store.Store.HasActiveJobOnDrive | daemon/state/store.go:1088-1101 | true exactly if a job of this very drive is queued, identifying or running |
| Store.Store.HasRecentJobOnDrive | daemon/state/store.go:1120-1136 | true exactly if, with a positive cooldown, some finished job compares at or after the cutoff |
| Store.Store.MarkInterruptedJobs | daemon/state/store.go:1230-1259 | both statements of the transaction, and the number of jobs flipped |
| Store.Store.ClearHistory | daemon/state/store.go:1958-1999 | removes exactly the done, failed, cancelled and interrupted jobs and the discs with nothing but such jobs, reports how many jobs went, keeps integrity |
| Store.Store.DeleteJobAndOrphans | daemon/state/store.go:1918-1949 | removes one job, and its disc exactly if no other job refers to it |
| Store.Store.PruneHistoryBefore | daemon/state/store.go:1884-1912 | removes exactly the done, failed, cancelled and interrupted jobs that compare before the cutoff and every disc left without a job |
| Store.Store.DeleteDiscRows | daemon/state/migrations/001_initial.sql:46-90 | deleting discs cascades to their jobs, steps and log lines |
| History.ClearHistoryExact | daemon/state/store.go:1958-1999 | the transaction's statements with their cascades remove exactly those jobs, discs, steps and log lines |
| History.ClearHistoryCount | daemon/state/store.go:1965-1972 | the count taken up front is the number of jobs removed, though most go by cascade; a job stays exactly if active |
| History.ClearHistoryKeepsDiscs | daemon/state/store.go:1974-1986 | a disc stays exactly if it never had a job or has an active one |
| History.DeleteJobExact | daemon/state/store.go:1918-1949 | exact result of the single-job deletion |
| History.PruneExact | daemon/state/store.go:1884-1912 | exact result of the retention sweep |
| History.SweepTakesUndecidedDiscs | daemon/state/store.go:1902-1907 | the sweep also takes a disc that never had a job, which ClearHistory keeps |
| History.PruneBySecond | daemon/state/store.go:1891-1896 | finished jobs from an earlier second than the cutoff go, those from a later one stay |
| History.PruneKeepsActive | daemon/state/store.go:1891-1896 | active jobs stay, with their discs and steps |
| History.CooldownBySecond | daemon/state/store.go:1120-1136 | the cooldown check is exact to the second in the same way |
| History.HistoryKeepsIntegrity | daemon/state/store.go:1918-1999 | all three keep referential integrity |
| History.ClearIsDelete | daemon/state/store.go:1958-1999 | ClearHistory is the protocol's deletion step for the finished jobs and the discs they used up |
| History.PruneIsDelete | daemon/state/store.go:1884-1912 | so is the retention sweep, for its old jobs and the discs left bare |
| History.DeleteJobIsDelete | daemon/api/jobs.go:125-146 | and the single-job deletion, for that job and its disc if nothing else refers to it |
| Timestamps.StringOrder | daemon/state/store.go:34 | the byte order of two RFC3339Nano strings, spelt out on the calendar fields |
| Timestamps.StringOrderIsTimeOrder | daemon/state/store.go:34 | strings whose whole seconds differ compare in time order |
| Timestamps.WithinOneSecond | daemon/state/store.go:34 | within a second they do exactly if the earlier fraction is no prefix of the later one |
| Timestamps.WholeSecondSortsLast | daemon/state/store.go:34 | so a whole second sorts after every later moment of that second |
| Timestamps.DayOrder | daemon/state/store.go:1120-1136 | calendar order of dates is the order of day numbers |
| Sink.PersistentSink.OnStepStart | daemon/jobs/sink.go:62-98 | resets progress, forgets the pending value and the throttle, marks the step running |
| Sink.PersistentSink.OnProgress | daemon/jobs/sink.go:101-116 | emits exactly if a second has passed since the throttle's time or there is none, otherwise keeps the value pending |
| Sink.PersistentSink.Flush | daemon/jobs/sink.go:121-130 | emits the pending value, if any, and restarts the interval |
| Sink.PersistentSink.OnStepDone | daemon/jobs/sink.go:199-229 | flushes, emits the final 100 %, marks the step done |
| Sink.PersistentSink.OnStepFailed | daemon/jobs/sink.go:253-261 | marks the step failed, leaving progress as it is |
| Sink.ThrottleMoves | daemon/jobs/sink.go:101-116 | from one tick on, the throttle moves at least one interval per further tick |
| Sink.ProgressRate | daemon/jobs/sink.go:101-116 | within a step any n emissions by OnProgress span at least n - 1 intervals |
| Sink.TicksExactly | daemon/jobs/sink.go:101-116 | and a report is passed on exactly if, within its step, a second has gone by since every report passed on, flush and completion before it |
| Sink.PendingIsReceived | daemon/jobs/sink.go:101-130 | a pending value was received in this step and not reported since |
| Sink.ReportsReceived | daemon/jobs/sink.go:101-145 | each call reports at most one value, one handed to OnProgress at or before it in the same step |
| Sink.ReportsInOrder | daemon/jobs/sink.go:101-145 | reported values form a subsequence of the received ones |
| Sink.StartForgets | daemon/jobs/sink.go:72-76 | no pending value crosses a step start |
| Sink.DoneReportsLast | daemon/jobs/sink.go:199-221 | when a step completes, the last received value has been reported and the final 100 % comes after it |
| StepTrace.OrderIsCanonical | daemon/pipelines/audiocd/audiocd.go:105-115 | the steps a handler visits are exactly the non-skipped ones, in canonical order, for any skip set |
| StepTrace.TracesAreDisciplined | daemon/jobs/sink.go:62-98 | at most one step runs at any moment and none is left running |
| StepTrace.NilMeansAllDone | daemon/pipelines/steps.go:60-77 | a run that returns nil leaves every step done or skipped, even after a failed eject |
| StepTrace.ErrorMeansOneFailed | daemon/pipelines/audiocd/audiocd.go:118-212 | a run that returns an error leaves one step failed, earlier ones done, later ones pending |
| StepTrace.SkippedStepsNeverMove | daemon/pipelines/audiocd/audiocd.go:105-115 | no event touches a skipped step |
| StepTrace.StoreAfterNil | daemon/state/store.go:824-885 | in the tables: a new job's rows after a run that returns nil |
| StepTrace.StoreAfterError | daemon/state/store.go:1345-1368 | in the tables: a new job's rows after a run that returns an error |
| Handlers.Plan | daemon/pipelines/audiocd/audiocd.go:105-115 | the eight steps in order, marked exactly as skipped |
| Handlers.RunTool | daemon/jobs/sink.go:101-116 | a tool reports progress and moves no step |
| Handlers.RunNotifyStep | daemon/pipelines/steps.go:25-45 | notify starts and completes, whatever the tool does |
| Handlers.RunEjectStep | daemon/pipelines/steps.go:60-77 | the tray is opened exactly with tools, a device, an eject setting and a registered tool; a failed eject is reported and then completed |
| Handlers.RunAudioCd | daemon/pipelines/audiocd/audiocd.go:118-212 | for every outcome of the tools: the canonical events; nil exactly if work directory, probe, whipper and move work |
| Handlers.RunDvdVideo | daemon/pipelines/dvdvideo/dvdvideo.go:157-353 | for DVD-Video: the canonical events, nil exactly if everything works; a run that returns nil has encoded the feature alone for a movie profile, all the chosen titles in order for a series |
| Handlers.RunPsx | daemon/pipelines/psx/psx.go:143-228 | for PlayStation discs: the canonical events; nil exactly if rip, compression, rendering and move work |
| Handlers.AudioFailure | daemon/pipelines/audiocd/audiocd.go:118-212 | the step at which an audio run fails, from the outcomes of its tools |
| Handlers.DvdFailure | daemon/pipelines/dvdvideo/dvdvideo.go:157-353 | the same for DVD-Video, title by title |
| Handlers.PsxFailure | daemon/pipelines/psx/psx.go:143-228 | the same for PlayStation discs |
| Handlers.EncodeTitles | daemon/pipelines/dvdvideo/dvdvideo.go:274-328 | titles are encoded in order up to the first that fails |
| Handlers.HandlerOutcome | daemon/pipelines/audiocd/audiocd.go:118-212 | for any skip set, failing step and eject: disciplined, and each step row ends as meant |
| Handlers.FailuresAreNotSkipped | daemon/pipelines/psx/psx.go:133-140 | the three handlers only fail at steps they do not skip |
| Hub.ApplyKeepsInv | daemon/state/broadcaster.go:31-95 | every operation keeps: received plus buffered is a contiguous slice of the log, reaching its end while registered |
| Hub.HistoryInv | daemon/state/broadcaster.go:31-95 | the same after any sequence of operations |
| Hub.SubscriberSeesTheLog | daemon/state/broadcaster.go:31-81 | a subscriber gets the log from its subscription on, in order, without a gap, up to its drop |
| Hub.ClosedForGood | daemon/state/broadcaster.go:76-95 | a closed channel stays closed and gets nothing more |
| Hub.Independent | daemon/state/broadcaster.go:61-81 | what an operation does to one subscriber does not depend on any other |
| Hub.DroppedIffFull | daemon/state/broadcaster.go:67-79 | Publish drops a subscriber exactly if its buffer is full |
| Broadcaster.Broadcaster.Subscribe | daemon/state/broadcaster.go:31-57 | refines the log model; a buffer below one becomes one; the channel comes back closed exactly on a closed broadcaster |
| Broadcaster.Broadcaster.Publish | daemon/state/broadcaster.go:61-81 | refines the log model, offering in any order; each open channel gets the event if it has room and is closed if not; never sends on a closed channel |
| Broadcaster.Broadcaster.Cancel | daemon/state/broadcaster.go:46-55 | idempotent; closes the channel at most once |
| Broadcaster.Broadcaster.Receive | daemon/api/events.go:49-55 | the next buffered event, or the end once closed and drained |
| Broadcaster.Broadcaster.Close | daemon/state/broadcaster.go:84-95 | closes every registered channel once, for good |
| EventStream.StepKeepsInv | daemon/api/events.go:32-57 | subscribing before the snapshot: whatever was published earlier had been written before the snapshot was read |
| EventStream.StreamedExactly | daemon/api/events.go:32-57 | a client with an open channel has, or will get, in its stream exactly the changes published from its subscription on |
| EventStream.MissedExactly | daemon/api/events.go:32-74 | it misses a change, in snapshot and stream alike, exactly if its snapshot read failed and the change was published before its subscription |
| EventStream.NothingIsMissedExactly | daemon/api/events.go:32-74 | so every change reaches it exactly if the snapshot read worked or nothing was published before the subscription |
| EventStream.StreamIsGapless | daemon/api/events.go:32-57 | what a client gets is a gapless piece of the log, dropped or not |
| EventStream.FailedSnapshotMisses | daemon/api/events.go:64-74 | a run in which the snapshot read fails and a change is in neither |
| EventStream.SnapshotFirstWouldMiss | daemon/api/events.go:32-37 | so is the order: a snapshot taken first would miss a change |
| DiscFlow.FindKnown | daemon/cmd/discecho/discflow.go:200-222 | finds the drive's row by hash, else by recent metadata ID; fails exactly if a lookup it reaches fails |
| DiscFlow.ReuseDiscRow | daemon/cmd/discecho/discflow.go:230-252 | refreshes the row; a failure of a later statement leaves title and metadata ID changed |
| DiscFlow.PersistDisc | daemon/cmd/discecho/discflow.go:196-252 | reuses the row known by TOC hash or recent metadata ID, inserts only unknown discs; fails exactly if a call it reaches fails or the insert breaks a key, never for the unique index; a failure adds no row; references stay good |
| DiscFlow.FindDriveByDevPath | daemon/cmd/discecho/discflow.go:282-293 | a drive with that device node, if there is one, in any row order |
| DiscFlow.Identify | daemon/cmd/discecho/discflow.go:117-166 | ends in error exactly if identify fails or the disc cannot be persisted, else idle; the row a success leaves; a failure adds no row |
| DiscFlow.IdentifyAndRelease | daemon/cmd/discecho/discflow.go:117-178 | the drive's row at the end, error text included; it is free again exactly if the release write works |
| DiscFlow.HandleOn | daemon/cmd/discecho/discflow.go:86-178 | claims exactly if no guard refuses, the claim works and the drive is free; the drive's row at the end; a refused event changes nothing |
| DiscFlow.Handle | daemon/cmd/discecho/discflow.go:66-178 | whichever calls fail, it leaves a drive identifying that was not before exactly if it claimed it and the release write failed; which events are claimed, and that no other drive changes |
| DiscFlow.TakeDrive | daemon/api/discs.go:362-393 | the checks and the claim: a claimed drive has no queued, identifying or running job of its own; jobs of other drives do not matter |
| DiscFlow.ForceReidentify | daemon/api/discs.go:362-459 | claims exactly if every query works and the drive is known, free and without an active job; reports success exactly if all writes work; refreshes only the disc's own row; ends idle unless the release write fails |
| IdentifyFlow.StepKeepsRows | daemon/cmd/discecho/discflow.go:104-178 | every interleaved step, whatever writes the drives, keeps: one row per drive and TOC hash, job references valid, every flow on a known drive |
| IdentifyFlow.StepKeepsExclusive | daemon/state/store.go:243-253 | for each drive: a step keeps "at most one owner, and no claim possible while owned" exactly if it does not write idle or error to this drive under its owner; other drives do not matter |
| IdentifyFlow.StepKeepsMarked | daemon/cmd/discecho/discflow.go:104-178 | for each drive: a step keeps "identifying exactly while owned or leaked" exactly if it does not write this drive under its owner |
| IdentifyFlow.StepKeepsUnknown | daemon/cmd/discecho/discflow.go:200-223 | for each drive with at most one owner: a flow past its lookup by hash has a hash no row of the drive has |
| IdentifyFlow.NeverTwoOwners | daemon/state/store.go:243-253 | in every run in which nothing wrote idle or error to this drive under an owner, no two flows own it; job starts and ejects on other drives, or on this one while unowned, are allowed |
| IdentifyFlow.IdentifyingMeansOwned | daemon/state/store.go:243-253 | in every run in which nothing wrote this drive under an owner, it is identifying exactly while one flow owns it, unless its release write failed |
| IdentifyFlow.RowsStayUnique | daemon/state/store.go:301-345 | in every run, with no condition: one row per drive and hash, job references valid |
| IdentifyFlow.NoInsertIsRefused | daemon/state/store.go:301-323 | the unique index refuses no insert of a flow, under the condition of NeverTwoOwners for its drive |
| IdentifyFlow.KnownTocIsReused | daemon/cmd/discecho/discflow.go:200-210 | a disc the drive already has a row for gets that row |
| IdentifyFlow.OwnersHeadForRelease | daemon/cmd/discecho/discflow.go:117-178 | every step of an owner brings it closer to its release; nobody else moves it |
| IdentifyFlow.ReleaseFrees | daemon/cmd/discecho/discflow.go:274-280 | a release that works frees the drive for the next claim |
| IdentifyFlow.LeakedStaysDeaf | daemon/state/store.go:168-184 | a failed release leaves the drive deaf until a restart or somebody else's write of it |
| IdentifyFlow.DisturbanceBreaksExclusion | daemon/jobs/orchestrator.go:234-262 | the condition is exact: after any such write under any owner, one more event makes two owners |
| IdentifyFlow.DisturbanceBreaksInserts | daemon/jobs/orchestrator.go:234-262 | and if the owner was about to insert a disc, the run can go on to an insert that the index refuses |
| CdInfo.Watcher.Write | daemon/identify/classify.go:121-147 | buffers everything, keeps the tail after the last newline, fires on a settling line |
| CdInfo.Watcher.WriteAll | daemon/identify/classify.go:66-99 | for every cut into writes: the buffer is the concatenation, the line buffer its last line, fired exactly if some complete line settles |
| CdInfo.SettlesExactly | daemon/identify/classify.go:121-147 | a disc-mode line settles exactly if its value is there and is neither of cd-info's ways of saying that it could not read the disc, in any mix of cases |
| CdInfo.SaysAudioExactly | daemon/identify/classify.go:459-473 | a line says audio exactly if it names the disc mode and holds cd-da as a word |
| CdInfo.CutIsSound | daemon/identify/classify.go:459-473 | stopping early gives the full output's type exactly if no later line turns a non-audio verdict into audio |
| CdInfo.SingleDiscModeLineIsSound | daemon/identify/classify.go:66-99 | with a single disc-mode line every early stop gives the full output's type |
| CdInfo.SecondLineFlips | daemon/identify/classify.go:459-473 | two disc-mode lines can make it differ |
| CdInfo.TwoDiscModeLinesAreNotSound | daemon/identify/classify.go:459-473 | a concrete output on which an early stop changes the type |
| CdInfo.DifferentCuts | daemon/identify/classify.go:66-99 | and then two cuts of the same output give two types |
| Classify.RunCDInfo | daemon/identify/classify.go:329-353 | the retry loop: every call before the last failed; the last one worked, or used up the schedule, or the context ended; the answer and the wait |
| Classify.RetryingList | daemon/identify/classify.go:368-399 | the same for the listing, with empty listings retried like errors |
| Classify.RetryingCnf | daemon/identify/classify.go:416-445 | the same for SYSTEM.CNF, errors and missing BOOT lines retried |
| Classify.SettledAnswer | daemon/identify/classify.go:329-353 | a probe that is not ready for at most len(backoff) calls and constant from then on yields that constant |
| Classify.Refine | daemon/identify/classify.go:496-588 | for each of the nine types it can decide: returned exactly under its condition on the listing and the probes, VIDEO_TS before BDMV before SYSTEM.CNF before the others; no listing and an unreadable SYSTEM.CNF give DATA; which probes are asked |
| Classify.LaterProbesDoNotMatter | daemon/identify/classify.go:496-588 | once a branch has matched, neither the rest of the listing nor any later probe can change the type |
| Classify.Classify | daemon/identify/classify.go:298-323 | cd-info, then the refinement: which failures end it, audio exactly by the disc-mode lines |
| Classify.RetriesAreTransparent | daemon/identify/classify.go:496-588 | so Classify is RefineDiscType on the steady answers, steadily empty listings and steady errors included |
| Classify.OneCallTooLate | daemon/identify/classify.go:329-353 | the bound is tight: one more failing call changes the answer |
| LineScanner.SplitCROrLF | daemon/tools/streamparse.go:63-76 | the next token and advance, or a request for more |
| LineScanner.PiecesRebuild | daemon/tools/streamparse.go:63-76 | tokens and terminators rebuild the stream |
| LineScanner.SplitUnique | daemon/tools/streamparse.go:63-76 | and there is only one such split |
| LineScanner.Scanner.Scan | daemon/tools/streamparse.go:46-58 | one token of the unread stream, whatever the chunks, or the reason there is none |
| LineScanner.DrainAfterScan | daemon/tools/streamparse.go:46-58 | for every chunking: exactly the leading tokens that fit, and the pipe is emptied |
| MakeMkvRows.SplitRow | daemon/tools/makemkv.go:271-292 | n - 1 comma-free fields and the unquoted rest, or nothing |
| MakeMkvRows.CutOfGlue | daemon/tools/makemkv.go:271-280 | cutting undoes gluing comma-free fields |
| MakeMkvRows.GlueOfCut | daemon/tools/makemkv.go:271-280 | and gluing undoes cutting |
| MakeMkvRows.UnquoteQuoted | daemon/tools/makemkv.go:281-291 | a quoted value is recovered whatever commas or quotes it holds |
| MakeMkvRows.DurationOfPrinted | daemon/tools/makemkv.go:308-317 | the duration parser undoes an H:MM:SS printer |
| MakeMkvRows.DurationReads | daemon/tools/makemkv.go:308-317 | three parts are hours, minutes and seconds, each read as an unchecked number |
| MakeMkvRows.NoDuration | daemon/tools/makemkv.go:308-312 | anything but three parts is 0 |
| MakeMkvRows.ParsePrinted | daemon/tools/makemkv.go:211-262 | a printed TINFO or SINFO row reads back as itself |
| MakeMkvRows.RowsOfPrint | daemon/tools/makemkv.go:134-143 | printing rows one per line and scanning them gives the rows back |
| Decimal.AtoiOfItoa | daemon/tools/makemkv.go:216-218 | an unchecked Atoi undoes Itoa on the int64 range |
| Decimal.AtoiOfDigits | daemon/tools/makemkv.go:216-218 | digits with an optional sign are their value, or the nearest in range |
| Decimal.AtoiOfOther | daemon/tools/makemkv.go:216-218 | digits followed by anything else are 0, unless they exceed 64 bits already |
| MakeMkv.TitlesHoldLast | daemon/tools/makemkv.go:211-234 | the map holds exactly the titles mentioned, with the last value of each code |
| MakeMkv.TracksHoldLast | daemon/tools/makemkv.go:236-262 | the same for tracks |
| MakeMkv.OrderDoesNotMatter | daemon/tools/makemkv.go:211-262 | reordering or repeating rows changes nothing unless two rows disagree on a key |
| MakeMkv.Sorted | daemon/tools/makemkv.go:152-156 | the keys of a map, strictly increasing |
| MakeMkv.MergeTracks | daemon/tools/makemkv.go:146-160 | a title's tracks strictly by index |
| MakeMkv.List | daemon/tools/makemkv.go:146-171 | every title once, strictly by ID |
| MakeMkv.Collect | daemon/tools/makemkv.go:134-143 | the scanning loop computes what the rows say together |
| MakeMkv.ParseMakeMKVInfo | daemon/tools/makemkv.go:126-172 | fails exactly on blank input; otherwise lists what the rows say; MakeMkvNoise says which lines are rows |
| MakeMkv.ListedOnce | daemon/tools/makemkv.go:146-171 | there is only one such listing |
| MakeMkv.RoundTrip | daemon/tools/makemkv.go:126-172 | what the printed rows of any valid title list say, in any order, is listed by that list |
| MakeMkv.PrintIsNotBlank | daemon/tools/makemkv.go:127-129 | a print of at least one row is not blank input |
| MakeMkv.ParseOfPrint | daemon/tools/makemkv.go:126-172 | so the parser returns the very list that was printed; only the empty list prints as blank |
| MakeMkvNoise.RowExactly | daemon/tools/makemkv.go:138-143 | a line is a row exactly if it starts with TINFO: and has three commas, or with SINFO: and has four; every other line is ignored |
| MakeMkvNoise.TitleRowReads | daemon/tools/makemkv.go:213-218 | what a title row says, whatever its third field |
| MakeMkvNoise.TrackRowReads | daemon/tools/makemkv.go:236-243 | what a track row says, whatever its fourth field |
| MakeMkvNoise.UnquoteReads | daemon/tools/makemkv.go:281-291 | the value of a row: up to the last quote if it opens one that is closed, otherwise as it stands |
| MakeMkvNoise.RelevantLinesDecide | daemon/tools/makemkv.go:134-143 | two outputs with the same TINFO: and SINFO: lines have the same rows |
| MakeMkvNoise.NoiseIsIgnored | daemon/tools/makemkv.go:134-143 | any other line that fits the buffer can be inserted anywhere in any output, or taken out, without changing a row |
| MakeMkvNoise.LongLineEndsTheScan | daemon/tools/makemkv.go:135-143 | a line of 1 MiB or more ends the scan: the rows are those of the lines before it |
| MakeMkvNoise.ParseBoth | daemon/tools/makemkv.go:126-172 | so the parser returns the same list with and without such a line, unless nothing but white space is left |
| MakeMkvNoise.ParseOfNoisyPrint | daemon/tools/makemkv.go:126-172 | the round trip with anything between the printed rows, in any order, with or without carriage returns |
| Whipper.Accumulator.Run | daemon/tools/whipper.go:121-141 | for every interleaving of the two streams: per-track maximum, announced at most once |
| Whipper.Accumulator.RecordAR | daemon/tools/whipper.go:160-167 | keeps the larger confidence |
| Whipper.Accumulator.AnnounceOnce | daemon/tools/whipper.go:262-264 | the compare-and-swap flag |
| Whipper.TrackMaxUnique | daemon/tools/whipper.go:146-177 | the per-track maximum of all records is one map, so no interleaving can differ |
| Whipper.InterleavingElements | daemon/tools/whipper.go:121-141 | an interleaving has exactly the records of both streams |
| Whipper.AnnounceIff | daemon/tools/whipper.go:229-264 | the line is announced exactly if some stream asks for it |
| Whipper.RecordedIff | daemon/tools/whipper.go:330-369 | which confidence each kind of line records for its track |
| Whipper.TrackConfidence | daemon/tools/whipper.go:160-177 | a track's confidence after both streams is the largest that a line of either tells of it |
| Whipper.BuildAccurateRipNotes | daemon/pipelines/audiocd/audiocd.go:384-428 | for any map order: status, counts and bounds; verified exactly if calibrated, non-empty and least confidence at least 1 |
| Paths.StripControlChars | daemon/pipelines/output.go:153-162 | keeps exactly the printable characters and tabs |
| Paths.SanitizeFieldValue | daemon/pipelines/output.go:117-129 | no slash survives in a field; a clean field keeps every other character, with an underscore for each slash |
| Paths.SanitizeRelPath | daemon/pipelines/output.go:134-148 | the loop computes the specification; a path of safe segments is returned as it is |
| Paths.SanitizedPathSegments | daemon/pipelines/output.go:134-148 | no empty, "." or ".." segment and no leading slash |
| Paths.SanitizeIdempotent | daemon/pipelines/output.go:134-148 | sanitising twice is sanitising once |
| Paths.FieldHasNoSlash | daemon/pipelines/output.go:117-129 | a field value never opens a directory level |
| Paths.SafeSegmentsAreKept | daemon/pipelines/output.go:134-148 | joining any safe segments gives a path that sanitising does not change |
| Paths.SafePathIsKept | daemon/pipelines/output.go:134-148 | so it does any path of safe segments |
| Paths.SanitizeConcat | daemon/pipelines/output.go:134-148 | sanitising goes slash by slash: what stands on one side never touches the other, and nothing is lost between |
| Paths.SanitizeOneSegment | daemon/pipelines/output.go:138-143 | without a slash, text loses control characters and outer white space and nothing else, unless nothing or dots are left |
| Paths.SafeSegmentSurvives | daemon/pipelines/output.go:134-148 | a safe segment survives in its place, whatever stands before and after it |
| Paths.CleanFieldIsFlat | daemon/pipelines/output.go:117-129 | a field of clean pieces comes out with an underscore for each slash and nothing else changed |
| Paths.FieldConcat | daemon/pipelines/output.go:117-129 | field values go slash by slash too |
| Paths.FieldOfOnePiece | daemon/pipelines/output.go:117-129 | a field without a slash loses outer white space and nothing else, unless nothing or dots are left |
| Paths.SlashInABandName | daemon/pipelines/output.go:117-129 | AC/DC becomes AC_DC |
| Paths.CleanRendering | daemon/pipelines/output.go:82-111 | a template with clean fields renders to what template and fields spell out |
| Paths.RenderedDepth | daemon/pipelines/output.go:82-95 | a rendered path has at most one segment more than the template has literal slashes |
| Paths.StaysUnderRoot | daemon/pipelines/output.go:134-148 | resolving root/rel stays under root, whatever the raw path holds |
| Paths.RenderOutputPath | daemon/pipelines/output.go:82-111 | renders, sanitises, keeps the depth bound; with clean fields and safe segments the result is what template and fields spell out, segment by segment |
| Moves.FileSystem.CopyFile | daemon/pipelines/output.go:229-250 | creates exclusively; a failed copy leaves everything else as it was |
| Moves.FileSystem.AtomicMove | daemon/pipelines/output.go:204-224 | with the destination to itself: never over an existing file; succeeds exactly if the calls it needs do |
| Moves.FileSystem.MoveAll | daemon/pipelines/dvdvideo/dvdvideo.go:533-564 | for one job alone on its paths: stops exactly at the first item whose name cannot be rendered, whose destination is taken or a call of whose move fails; nothing lost, nothing new but what it reports and at most one leftover copy, a colliding name never moved |
| Moves.FileSystem.MoveStep | daemon/pipelines/dvdvideo/dvdvideo.go:157-353 | with the work directory removed afterwards, as every run does: it succeeds exactly if all outputs are in the library; otherwise those moved so far are, and precisely the unmoved ones are gone, but for a leftover copy of the one that failed |
| Moves.FileSystem.MoveAudioOutputs | daemon/pipelines/audiocd/audiocd.go:430-498 | the same for the audio handler's walk: exactly the FLAC and cue files are moved, and it refuses to succeed without a FLAC file |
| Moves.MovedOneMore | daemon/pipelines/audiocd/audiocd.go:469-498 | one more successful move keeps the guarantee |
| Moves.FailedMoveKeeps | daemon/pipelines/audiocd/audiocd.go:469-498 | a failed move keeps it too |
| Moves.NothingIsLost | daemon/pipelines/output.go:201-250 | for one job alone, before its work directory goes: pre-existing files unchanged, each source's bytes at its source or destination |
| SharedMoves.StepKeepsInv | daemon/pipelines/output.go:204-250 | any number of moves at once, every system call a step, overwriting or not: sources keep their bytes until their move succeeds, and what a move has put at its destination is there or nowhere |
| SharedMoves.RunKeepsInv | daemon/pipelines/output.go:204-250 | so this holds in every reachable state |
| SharedMoves.NothingIsLost | daemon/pipelines/output.go:201-250 | for each move: until it succeeds its bytes are at its source, always; after that they are at its destination, and no other move to it has succeeded, until a rename lands on a taken destination there |
| SharedMoves.LibraryFileIsKept | daemon/pipelines/output.go:201-250 | for each library file: it is as it was until a rename lands on its path, whatever happens on other paths |
| SharedMoves.DestroyedExactly | daemon/pipelines/output.go:214-250 | in every reachable state: apart from a move taking back its own copy or source, a file is destroyed exactly by a rename that finds it at its destination, or by the clean-up of a failed copy that finds it where the copy was |
| SharedMoves.LostExactly | daemon/pipelines/output.go:214-250 | a move's file is gone from its destination exactly if another move to that path renamed onto it or cleaned up over it |
| SharedMoves.OnlyAfterClobber | daemon/pipelines/output.go:229-250 | a clean-up over another move's file, or the removal of the source of a copy that is gone, happens only after a rename has overwritten a file at that very path |
| SharedMoves.AbandonedIsLost | daemon/pipelines/output.go:217-224 | when the source of a copy that is gone is removed, the move reports success and its bytes have no name left |
| SharedMoves.ClobberedExactly | daemon/pipelines/output.go:204-217 | a successful rename overwrites a file exactly if another move created it between this move's Stat and this Rename |
| SharedMoves.TakingTurnsIsSafe | daemon/pipelines/output.go:204-250 | for each path: as long as at most one move to it is under way at a time, nothing is lost there, several moves to it and other paths notwithstanding |
| SharedMoves.OwnTargetIsSafe | daemon/pipelines/output.go:204-250 | a move whose destination no other move has is safe, whatever the others do |
| SharedMoves.TwoDrivesOnePath | daemon/pipelines/output.go:204-217 | two drives whose jobs render one path: both moves succeed and one file is gone |
| SharedMoves.CleanUpTakesAnothersFile | daemon/pipelines/output.go:229-250 | a run in which a failed copy's clean-up removes the file of a move that had succeeded |
| SharedMoves.CopyIsAbandoned | daemon/pipelines/output.go:214-224 | a run in which both moves succeed and the bytes of one are nowhere |

## Left out

- Protocol steps: the events published between store calls carry no state the invariants need and are not steps; GetDisc, GetDrive and GetProfile failures are the one step Abort.
- A queued job whose worker is stopped by Close, or whose cancel reaches it before its row is read, stays queued in the store until the next start-up interrupts it; the model allows this and promises nothing else about it.
- Orchestrator and StartDisc as objects: their point is interleaving, so they are a step system on values; update in place inside one step is not visible.
- Liveness: nothing says that a queued job is ever run or that a sender is ever served.
- Start-up recovery whose own statements fail (the daemon logs this and carries on) is not a step; Crash is always followed by recovery that succeeds.
- Store methods do not model database errors; the step systems, and `DiscFlow` around each call it makes, do.
- Disc creation times are whole seconds as numbers in `Schema`, not strings; `Timestamps` says how far the strings agree with that.
- Protocol's Scan: the start-up scan sets the drives it finds to idle; registering a drive it has not seen before is not a step, and neither is a drive's model or bus.
- Drive rows' last_seen_at, job progress columns, profiles and the parents' ON DELETE SET NULL are not in the tables.
- Sink: OnSubStep, OnLog and step notes; the store write and publication of one emission, which concurrent tool goroutines could reorder after the sink's lock is released, are one step.
- Handlers: the seven other handlers (bdmv, uhd, ps2, saturn, dreamcast, xbox, data) follow the same three plan shapes; cover art, ReplayGain, checksums and encoder choice never decide a step.
- Handlers.RunDvdVideo: which titles a profile selects is an input.
- IdentifyFlow: the identify timeout is the failure of any later store call; candidates, metadata blobs and the classification itself are inputs.
- Broadcaster: operations under its mutex are atomic; a receive overlapping a Publish counts as before or after it.
- EventStream: keep-alive comments, JSON encoding and write errors to the client.
- CdInfo.Watcher: case folding is ASCII; the child process, its kill and its exit status are an arbitrary output.
- Classify: the probes for Saturn, Xbox, Dreamcast and Blu-ray are inputs; floating-point waits do not occur.
- LineScanner: bufio.Scanner beyond refill, split, too-long tokens and end of input; the error-keyword filter.
- MakeMkv.RoundTrip: titles with a negative duration, which no H:MM:SS row can print, a newline in a value, or a row of 1 MiB or more are outside the printer's range.
- Strings are sequences of characters; bytes, UTF-8 and Unicode case folding are not modelled, and the line limit counts characters.
- Whipper: regular expressions are replaced by already matched rows; progress percentages are not modelled.
- Paths: Go's template engine is replaced by a list of literals, fields and numbers; template functions and template errors are not modelled.
- DiscFlow: candidates, metadata blobs and the other columns of a disc are not in its row; their writes are the later part of a refresh.
- Moves and SharedMoves: directories, symbolic links and file modes; moves from outside the daemon. Library paths are taken to lie outside the work directories.
- Moves.FileSystem.MoveStep: assumes that the removal of the work directory, whose error the code ignores, works.
- Calibration, settings, seeding, validation, the web UI, rate limiters, samplers and every network client.
