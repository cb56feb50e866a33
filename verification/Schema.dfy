/** The SQLite tables as maps, and the store's statements and transactions as
    atomic functions on them, foreign-key cascades included
    (daemon/state/store.go, daemon/state/migrations). */
module Schema {
  import opened Wrappers
  import Timestamps

  type Id = string

  datatype DriveState = Idle | Identifying | Ripping | Ejecting | Error

  datatype JobState = Queued | Identifying | Running | Paused | Done | Failed | Cancelled | Interrupted

  datatype StepId = Detect | Identify | Rip | Transcode | Compress | Move | Notify | Eject

  datatype StepState = Pending | Running | Done | Skipped | Failed

  function CanonicalSteps(): seq<StepId> {
    [Detect, Identify, Rip, Transcode, Compress, Move, Notify, Eject]
  }

  datatype Drive = Drive(devPath: string, state: DriveState, lastError: string)

  datatype Disc = Disc(driveId: Id, toc: string, metadataId: string, title: string, createdAt: nat)

  datatype Job = Job(discId: Id, driveId: Id, state: JobState,
                     startedAt: string, finishedAt: string, errorMessage: string)

  datatype StepRow = StepRow(state: StepState, attempts: nat, startedAt: string, finishedAt: string)

  /** `logs` maps a log row to its job. */
  datatype Tables = Tables(
    drives: map<Id, Drive>,
    discs: map<Id, Disc>,
    jobs: map<Id, Job>,
    steps: map<(Id, StepId), StepRow>,
    logs: map<nat, Id>)

  /** queued, identifying, running, paused */
  predicate Active(st: JobState) {
    st.Queued? || st.Identifying? || st.Running? || st.Paused?
  }

  /** done, failed, cancelled, interrupted */
  predicate Terminal(st: JobState) {
    !Active(st)
  }

  /** Every reference points at a row, and every job has its eight steps. */
  ghost predicate Integrity(t: Tables) {
    && (forall j :: j in t.jobs ==> t.jobs[j].discId in t.discs)
    && (forall k :: k in t.steps ==> k.0 in t.jobs)
    && (forall l :: l in t.logs ==> t.logs[l] in t.jobs)
    && (forall j, s: StepId :: j in t.jobs ==> (j, s) in t.steps)
  }

  // ---- queries ----

  predicate DiscHasActiveJob(t: Tables, disc: Id) {
    exists j :: j in t.jobs && t.jobs[j].discId == disc && Active(t.jobs[j].state)
  }

  predicate DiscHasAnyJob(t: Tables, disc: Id) {
    exists j :: j in t.jobs && t.jobs[j].discId == disc
  }

  /** Some job on the drive finished at or after the cutoff, as strings compare. */
  predicate HasRecentJobOnDrive(t: Tables, drive: Id, cutoff: string) {
    exists j :: j in t.jobs && t.jobs[j].driveId == drive && Terminal(t.jobs[j].state)
                && !Timestamps.Less(t.jobs[j].finishedAt, cutoff)
  }

  // ---- single-row updates; None stands for ErrNotFound ----

  /** The tables after a statement that may have found no row. */
  function OrElse(t: Option<Tables>, other: Tables): Tables {
    if t.Some? then t.value else other
  }

  function WithState(row: Job, st: JobState, errMsg: string, now: string): Job {
    row.(state := st,
         startedAt := if st.Running? && row.startedAt == "" then now else row.startedAt,
         finishedAt := if Terminal(st) then now else row.finishedAt,
         errorMessage := if st.Failed? then errMsg else row.errorMessage)
  }

  /** UpdateJobState: any state may follow any other. */
  function UpdateJobState(t: Tables, job: Id, st: JobState, errMsg: string, now: string): Option<Tables> {
    if job in t.jobs then Some(t.(jobs := t.jobs[job := WithState(t.jobs[job], st, errMsg, now)])) else None
  }

  function StepWithState(row: StepRow, st: StepState, now: string): StepRow {
    match st
    case Pending => row.(state := st)
    case Running => row.(state := st, attempts := row.attempts + 1,
                         startedAt := if row.startedAt == "" then now else row.startedAt)
    case _ => row.(state := st, finishedAt := now)
  }

  function UpdateJobStepState(t: Tables, job: Id, step: StepId, st: StepState, now: string): Option<Tables> {
    if (job, step) in t.steps
    then Some(t.(steps := t.steps[(job, step) := StepWithState(t.steps[(job, step)], st, now)]))
    else None
  }

  function UpdateDriveState(t: Tables, drive: Id, st: DriveState): Option<Tables> {
    if drive in t.drives
    then Some(t.(drives := t.drives[drive := t.drives[drive].(state := st,
                                      lastError := if st.Idle? then "" else t.drives[drive].lastError)]))
    else None
  }

  predicate Claimable(t: Tables, drive: Id) {
    drive in t.drives && (t.drives[drive].state.Idle? || t.drives[drive].state.Error?)
  }

  /** ClaimDriveForIdentify: compare-and-set from idle or error. */
  function ClaimDrive(t: Tables, drive: Id): Tables {
    if Claimable(t, drive)
    then t.(drives := t.drives[drive := t.drives[drive].(state := DriveState.Identifying)])
    else t
  }

  // ---- inserts ----

  function FreshStep(skip: bool): StepRow {
    StepRow(if skip then StepState.Skipped else StepState.Pending, 0, "", "")
  }

  /** The job_steps rows of a new job. */
  function StepRows(job: Id, skip: set<StepId>, order: seq<StepId>): map<(Id, StepId), StepRow> {
    map s | s in order :: (job, s) := FreshStep(s in skip)
  }

  /** CreateJob: the job and its eight steps in one transaction. */
  function InsertJob(t: Tables, id: Id, disc: Id, drive: Id, skip: set<StepId>): Tables {
    t.(jobs := t.jobs[id := Job(disc, drive, JobState.Queued, "", "", "")],
       steps := t.steps + StepRows(id, skip, CanonicalSteps()))
  }

  // ---- deletes, with ON DELETE CASCADE ----

  function DeleteJobs(t: Tables, gone: set<Id>): Tables {
    t.(jobs := t.jobs - gone,
       steps := map k | k in t.steps && k.0 !in gone :: t.steps[k],
       logs := map l | l in t.logs && t.logs[l] !in gone :: t.logs[l])
  }

  function JobsOfDiscs(t: Tables, discs: set<Id>): set<Id> {
    set j | j in t.jobs && t.jobs[j].discId in discs
  }

  function DeleteDiscs(t: Tables, gone: set<Id>): Tables {
    DeleteJobs(t, JobsOfDiscs(t, gone)).(discs := t.discs - gone)
  }

  // ---- start-up recovery ----

  /** ResetIdentifyingDrives */
  function ResetIdentifying(t: Tables): Tables {
    t.(drives := map d | d in t.drives ::
                   if t.drives[d].state.Identifying? then t.drives[d].(state := DriveState.Idle) else t.drives[d])
  }

  predicate Orphaned(st: JobState) {
    st.Queued? || st.Identifying? || st.Running?
  }

  function InterruptedJobs(t: Tables, now: string): map<Id, Job> {
    map j | j in t.jobs ::
      if Orphaned(t.jobs[j].state) then t.jobs[j].(state := JobState.Interrupted, finishedAt := now) else t.jobs[j]
  }

  /** MarkInterruptedJobs: both statements of its transaction. The second sees
      the first's result, so it covers jobs interrupted by earlier crashes too. */
  function MarkInterrupted(t: Tables, now: string): Tables {
    var jobs := InterruptedJobs(t, now);
    t.(jobs := jobs,
       steps := map k | k in t.steps ::
                  if t.steps[k].state.Running? && k.0 in jobs && jobs[k.0].state.Interrupted?
                  then t.steps[k].(state := StepState.Failed, finishedAt := now)
                  else t.steps[k])
  }

  /** InitialScan: every drive it finds is upserted as idle. */
  function ScanDrives(t: Tables, found: set<Id>): Tables {
    t.(drives := map d | d in t.drives ::
                   if d in found then t.drives[d].(state := DriveState.Idle) else t.drives[d])
  }

  /** The two recovery statements the daemon runs before serving. */
  function Recover(t: Tables, now: string): Tables {
    MarkInterrupted(ResetIdentifying(t), now)
  }
}
