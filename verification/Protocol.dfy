/** The job protocol as a step system: HTTP requests, per-drive workers, Cancel,
    Close, deletions and crashes, interleaved at the store calls, channel
    operations and lock operations of daemon/jobs/orchestrator.go and
    daemon/api/discs.go (StartDisc). Every store call may fail (`fails`), be it
    for a database error or because the job's context has been cancelled. */
module Protocol {
  import opened Wrappers
  import opened Schema
  import opened SinkTrace

  const CHANNEL_CAPACITY: nat := 64

  /** What handler.Run returns: no error, the job's context ended, or another error. */
  datatype RunError = NoError | ContextEnded | Failure(message: string)

  /** The state the worker writes for it, with its message. */
  function FinalState(err: RunError): JobState {
    match err
    case NoError => JobState.Done
    case ContextEnded => JobState.Cancelled
    case Failure(_) => JobState.Failed
  }

  function FinalMessage(err: RunError): string {
    if err.Failure? then err.message else ""
  }

  /** Where a drive's worker goroutine is; `drive` is what it read from the job row. */
  datatype Worker =
    | AtSelect
    | Popped(job: Id)                               // before cancels[job] = cancel
    | Registered(job: Id)                           // before GetJob
    | Loaded(job: Id, drive: Id)                    // GetJob returned a job that is not cancelled
    | Starting(job: Id, drive: Id)                  // "running" is written
    | InRun(job: Id, drive: Id, todo: seq<SinkEvent>, cur: Option<StepId>, err: RunError)
    | Returned(job: Id, drive: Id, err: RunError)   // handler.Run is back
    | Finalized(job: Id, drive: Id)                 // final state written (or the write failed)
    | Leaving(job: Id)                              // deferred clean-up
    | Exited

  /** One drive's channel and worker, with their history: the jobs in channel
      order, how many have been received, and the positions that reached handler.Run. */
  datatype Lane = Lane(chan: seq<Id>, worker: Worker, sent: seq<Id>, popped: nat, entered: seq<nat>)

  /** Where a request goroutine is. `locked` says that it came through StartDisc and holds startMu. */
  datatype Caller =
    | Waiting(disc: Id)                             // StartDisc, before startMu.Lock
    | Holding(disc: Id)                             // startMu held, before the authoritative check
    | Checked(disc: Id, locked: bool)               // inside Submit, before CreateJob
    | Made(job: Id, drive: Id, locked: bool)        // CreateJob done, before enqueue's lock section
    | Sending(job: Id, drive: Id, locked: bool)     // at enqueue's select
    | Cancelling(job: Id)                           // Cancel missed in `cancels`, before its write

  /** `home` is history: every job ID ever used, with its drive. */
  datatype Sys = Sys(
    t: Tables,
    lanes: map<Id, Lane>,
    queuesNil: bool,
    cancels: set<Id>,
    stopped: bool,
    closed: bool,                 // Close has returned
    startMu: Option<nat>,
    callers: map<nat, Caller>,
    home: map<Id, Id>)

  datatype RequestAct =
    | Arrive(disc: Id)
    | Lock
    | Check(fails: bool)
    | SubmitDirectly(disc: Id)
    | Create(id: Id, skip: set<StepId>, fails: bool)
    | Enqueue
    | Send
    | GiveUp
    | CancelLookup(job: Id)
    | CancelWrite(now: string)

  datatype WorkerAct =
    | Pop
    | Exit
    | Register
    | Load(fails: bool)
    | Abort
    | NoHandler(fails: bool)
    | MarkRunning(fails: bool)
    | EnterRun(todo: seq<SinkEvent>, err: RunError, fails: bool)
    | SinkWrite(fails: bool)
    | Return
    | MarkFinal(fails: bool)
    | MarkIdle(fails: bool)
    | Leave

  datatype Action =
    | Request(c: nat, req: RequestAct)
    | Work(d: Id, act: WorkerAct, now: string)
    | CancelAtOnce(job: Id, now: string)      // Cancel with its lookup and write as one step
    | CloseQueues
    | CloseStop
    | CloseWait
    | Delete(jobs: set<Id>, discs: set<Id>)   // clean-up and DELETE requests
    | Crash(now: string)
    | Scan(found: set<Id>)                    // the start-up scan, which sets the drives it finds idle

  predicate InsideRunJob(w: Worker) {
    w.Registered? || w.Loaded? || w.Starting? || w.InRun? || w.Returned? || w.Finalized? || w.Leaving?
  }

  predicate Busy(w: Worker) {
    w.Popped? || InsideRunJob(w)
  }

  predicate HoldsLock(k: Caller) {
    k.Holding? || (k.Checked? && k.locked) || (k.Made? && k.locked) || (k.Sending? && k.locked)
  }

  /** The system right after start-up on the given tables. */
  function Boot(t: Tables, home: map<Id, Id>, now: string): Sys {
    Sys(Recover(t, now), map[], false, {}, false, false, None, map[], home)
  }

  // ---- workers ----

  predicate WorkEnabled(s: Sys, l: Lane, act: WorkerAct) {
    match act
    case Pop => l.worker.AtSelect? && l.chan != []
    case Exit => l.worker.AtSelect? && s.stopped
    case Register => l.worker.Popped?
    case Load(_) => l.worker.Registered?
    case Abort => l.worker.Loaded?
    case NoHandler(_) => l.worker.Loaded?
    case MarkRunning(_) => l.worker.Loaded?
    case EnterRun(todo, _, _) => l.worker.Starting? && l.popped > 0 && Disciplined(None, todo)
    case SinkWrite(_) => l.worker.InRun? && l.worker.todo != []
    case Return => l.worker.InRun? && l.worker.todo == []
    case MarkFinal(_) => l.worker.Returned?
    case MarkIdle(_) => l.worker.Finalized?
    case Leave => l.worker.Leaving?
  }

  /** The worker's next place; what it reads from the store decides the branch. */
  function WorkLane(l: Lane, t: Tables, act: WorkerAct): Lane
    requires match act
             case Pop => l.chan != []
             case EnterRun(_, _, _) => l.worker.Starting? && l.popped > 0
             case SinkWrite(_) => l.worker.InRun? && l.worker.todo != []
             case MarkFinal(_) => l.worker.Returned?
             case MarkIdle(_) => l.worker.Finalized?
             case Exit => true
             case Return => l.worker.InRun?
             case MarkRunning(_) => l.worker.Loaded?
             case _ => Busy(l.worker)
  {
    var w := l.worker;
    match act
    case Pop => l.(worker := Popped(l.chan[0]), chan := l.chan[1..], popped := l.popped + 1)
    case Exit => l.(worker := Exited)
    case Register => l.(worker := Registered(w.job))
    case Load(fails) =>
      if fails || w.job !in t.jobs || t.jobs[w.job].state.Cancelled? then l.(worker := Leaving(w.job))
      else l.(worker := Loaded(w.job, t.jobs[w.job].driveId))
    case Abort => l.(worker := Leaving(w.job))
    case NoHandler(_) => l.(worker := Leaving(w.job))
    case MarkRunning(fails) =>
      if fails || w.job !in t.jobs then l.(worker := Leaving(w.job)) else l.(worker := Starting(w.job, w.drive))
    case EnterRun(todo, err, _) =>
      l.(worker := InRun(w.job, w.drive, todo, None, err), entered := l.entered + [l.popped - 1])
    case SinkWrite(_) => l.(worker := w.(todo := w.todo[1..], cur := After(w.cur, w.todo[0])))
    case Return => l.(worker := Returned(w.job, w.drive, w.err))
    case MarkFinal(_) => l.(worker := Finalized(w.job, w.drive))
    case MarkIdle(_) => l.(worker := Leaving(w.job))
    case Leave => l.(worker := AtSelect)
  }

  /** The worker's store write, if the step has one. */
  function WorkTables(s: Sys, l: Lane, act: WorkerAct, now: string): Tables
    requires WorkEnabled(s, l, act)
  {
    var w, t := l.worker, s.t;
    match act
    case NoHandler(fails) =>
      if fails then t else OrElse(UpdateJobState(t, w.job, JobState.Failed, "no handler", now), t)
    case MarkRunning(fails) => if fails then t else OrElse(UpdateJobState(t, w.job, JobState.Running, "", now), t)
    case EnterRun(_, _, fails) => if fails then t else OrElse(UpdateDriveState(t, w.drive, DriveState.Ripping), t)
    case SinkWrite(fails) =>
      if fails then t else OrElse(UpdateJobStepState(t, w.job, w.todo[0].step, Written(w.todo[0]), now), t)
    case MarkFinal(fails) =>
      if fails then t else OrElse(UpdateJobState(t, w.job, FinalState(w.err), FinalMessage(w.err), now), t)
    case MarkIdle(fails) => if fails then t else OrElse(UpdateDriveState(t, w.drive, DriveState.Idle), t)
    case _ => t
  }

  function WorkCancels(l: Lane, cancels: set<Id>, act: WorkerAct): set<Id>
    requires act.Register? || act.Leave? ==> Busy(l.worker)
  {
    if act.Register? then cancels + {l.worker.job}
    else if act.Leave? then cancels - {l.worker.job}
    else cancels
  }

  // ---- requests ----

  predicate RequestEnabled(s: Sys, c: nat, req: RequestAct) {
    match req
    case Arrive(_) => c !in s.callers
    case Lock => c in s.callers && s.callers[c].Waiting? && s.startMu.None?
    case Check(_) => c in s.callers && s.callers[c].Holding?
    case SubmitDirectly(_) => c !in s.callers
    case Create(id, _, fails) =>
      && c in s.callers && s.callers[c].Checked?
      && (!fails ==>
            && s.callers[c].disc in s.t.discs && s.t.discs[s.callers[c].disc].driveId != ""
            && id !in s.home && id !in s.t.jobs)
    case Enqueue => c in s.callers && s.callers[c].Made?
    case Send =>
      && c in s.callers && s.callers[c].Sending? && s.callers[c].drive in s.lanes
      && |s.lanes[s.callers[c].drive].chan| < CHANNEL_CAPACITY
    case GiveUp => c in s.callers && s.callers[c].Sending? && s.stopped
    case CancelLookup(_) => c !in s.callers
    case CancelWrite(_) => c in s.callers && s.callers[c].Cancelling?
  }

  function Gone(s: Sys, c: nat): Sys {
    s.(callers := s.callers - {c},
       startMu := if c in s.callers && HoldsLock(s.callers[c]) then None else s.startMu)
  }

  function Become(s: Sys, c: nat, k: Caller): Sys {
    s.(callers := s.callers[c := k])
  }

  const NEW_LANE := Lane([], AtSelect, [], 0, [])

  function RequestNext(s: Sys, c: nat, req: RequestAct): Sys
    requires RequestEnabled(s, c, req)
  {
    match req
    case Arrive(disc) => Become(s, c, Waiting(disc))
    case Lock => Become(s, c, Holding(s.callers[c].disc)).(startMu := Some(c))
    case Check(fails) =>
      if fails || DiscHasActiveJob(s.t, s.callers[c].disc) then Gone(s, c)
      else Become(s, c, Checked(s.callers[c].disc, true))
    case SubmitDirectly(disc) => Become(s, c, Checked(disc, false))
    case Create(id, skip, fails) =>
      if fails then Gone(s, c)
      else
        var k := s.callers[c];
        var drive := s.t.discs[k.disc].driveId;
        Become(s, c, Made(id, drive, k.locked))
          .(t := InsertJob(s.t, id, k.disc, drive, skip), home := s.home[id := drive])
    case Enqueue =>
      if s.queuesNil then Gone(s, c)
      else
        var k := s.callers[c];
        Become(s, c, Sending(k.job, k.drive, k.locked)).(
          lanes := if k.drive in s.lanes then s.lanes else s.lanes[k.drive := NEW_LANE])
    case Send =>
      var k := s.callers[c];
      var l := s.lanes[k.drive];
      Gone(s, c).(lanes := s.lanes[k.drive := l.(chan := l.chan + [k.job], sent := l.sent + [k.job])])
    case GiveUp => Gone(s, c)
    case CancelLookup(job) => if job in s.cancels then s else Become(s, c, Cancelling(job))
    case CancelWrite(now) =>
      Gone(s, c).(t := OrElse(UpdateJobState(s.t, s.callers[c].job, JobState.Cancelled, "", now), s.t))
  }

  // ---- the whole system ----

  predicate Enabled(s: Sys, a: Action) {
    match a
    case Request(c, req) => RequestEnabled(s, c, req)
    case Work(d, act, _) => d in s.lanes && WorkEnabled(s, s.lanes[d], act)
    case CancelAtOnce(_, _) => true
    case CloseQueues => !s.queuesNil
    case CloseStop => s.queuesNil && !s.stopped
    case CloseWait => s.stopped && !s.closed && forall d :: d in s.lanes ==> s.lanes[d].worker.Exited?
    case Delete(_, _) => true
    case Crash(_) => true
    case Scan(_) => s.lanes == map[] && s.callers == map[]
  }

  function Next(s: Sys, a: Action): Sys
    requires Enabled(s, a)
  {
    match a
    case Request(c, req) => RequestNext(s, c, req)
    case Work(d, act, now) =>
      s.(lanes := s.lanes[d := WorkLane(s.lanes[d], s.t, act)],
         t := WorkTables(s, s.lanes[d], act, now),
         cancels := WorkCancels(s.lanes[d], s.cancels, act))
    case CancelAtOnce(job, now) =>
      if job in s.cancels then s
      else s.(t := OrElse(UpdateJobState(s.t, job, JobState.Cancelled, "", now), s.t))
    case CloseQueues => s.(queuesNil := true)
    case CloseStop => s.(stopped := true)
    case CloseWait => s.(closed := true)
    case Delete(jobs, discs) => s.(t := DeleteDiscs(DeleteJobs(s.t, jobs), discs))
    case Crash(now) => Boot(s.t, s.home, now)
    case Scan(found) => s.(t := ScanDrives(s.t, found))
  }

  /** A run: each state follows from the one before by its action. */
  ghost predicate Run(states: seq<Sys>, actions: seq<Action>) {
    && |states| == |actions| + 1
    && forall i :: 0 <= i < |actions| ==> Enabled(states[i], actions[i]) && states[i + 1] == Next(states[i], actions[i])
  }
}
