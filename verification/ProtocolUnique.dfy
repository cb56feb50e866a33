/** At most one active job per disc: for any number of racing start requests,
    cancels, deletions and workers, provided requests for that disc come through
    StartDisc and no late cancel of one of its jobs lands between a worker's
    read of the job and its "running" write. What happens to other discs does
    not matter. A cancel that does land there can always be turned into a
    violation. */
module ProtocolUnique {
  import opened Wrappers
  import opened Schema
  import opened SinkTrace
  import opened Protocol
  import opened ProtocolSafety
  import opened ProtocolRuns

  ghost predicate OneActive(t: Tables, disc: Id) {
    forall i, j :: (i in t.jobs && j in t.jobs && Active(t.jobs[i].state) && Active(t.jobs[j].state)
                    && t.jobs[i].discId == disc && t.jobs[j].discId == disc) ==> i == j
  }

  predicate OnDisc(t: Tables, j: Id, disc: Id) {
    j in t.jobs && t.jobs[j].discId == disc
  }

  /** The worker has read the job as not cancelled and has not yet marked it running. */
  ghost predicate InWindow(s: Sys, j: Id) {
    exists d :: d in s.lanes && s.lanes[d].worker.Loaded? && s.lanes[d].worker.job == j
  }

  /** Submissions for the disc go through StartDisc; the write of a split Cancel
      of one of its jobs does not land in the window. */
  ghost predicate Careful(s: Sys, a: Action, disc: Id) {
    && !(a.Request? && a.req == SubmitDirectly(disc))
    && (a.Request? && a.req.CancelWrite? && a.c in s.callers && s.callers[a.c].Cancelling? ==>
          (OnDisc(s.t, s.callers[a.c].job, disc) ==> !InWindow(s, s.callers[a.c].job)))
  }

  ghost predicate CarefulRun(states: seq<Sys>, actions: seq<Action>, disc: Id) {
    && Run(states, actions)
    && forall i :: 0 <= i < |actions| ==> Careful(states[i], actions[i], disc)
  }

  // ---- the invariant ----

  ghost predicate Unstarted(t: Tables, j: Id) {
    j in t.jobs ==> t.jobs[j].state.Queued? || t.jobs[j].state.Cancelled?
  }

  /** A worker's job is queued or cancelled until its worker marks it running,
      and in the window before that queued for certain, if it is on the disc. */
  ghost predicate WorkerRow(w: Worker, t: Tables, disc: Id) {
    && (w.Popped? || w.Registered? ==> Unstarted(t, w.job))
    && (w.Loaded? && OnDisc(t, w.job, disc) ==> t.jobs[w.job].state.Queued?)
  }

  ghost predicate ChannelRows(l: Lane, t: Tables) {
    forall i :: l.popped <= i < |l.sent| ==> Unstarted(t, l.sent[i])
  }

  ghost predicate LaneRows(l: Lane, t: Tables, disc: Id) {
    ChannelRows(l, t) && WorkerRow(l.worker, t, disc)
  }

  ghost predicate AllLaneRows(s: Sys, disc: Id) {
    forall d :: d in s.lanes ==> LaneRows(s.lanes[d], s.t, disc)
  }

  ghost predicate FlightRows(s: Sys) {
    forall c :: c in s.callers && InFlight(s.callers[c]) ==> Unstarted(s.t, s.callers[c].job)
  }

  ghost predicate LockInv(s: Sys) {
    forall c :: c in s.callers && HoldsLock(s.callers[c]) ==> s.startMu == Some(c)
  }

  /** Whoever is past the check for the disc holds the lock, and the check still holds. */
  ghost predicate CheckedInv(s: Sys, disc: Id) {
    forall c :: c in s.callers && s.callers[c].Checked? && s.callers[c].disc == disc ==>
      s.callers[c].locked && !DiscHasActiveJob(s.t, disc)
  }

  ghost predicate CallersInv(s: Sys, disc: Id) {
    FlightRows(s) && LockInv(s) && CheckedInv(s, disc)
  }

  ghost predicate Unique(s: Sys, disc: Id) {
    Inv(s) && AllLaneRows(s, disc) && CallersInv(s, disc) && OneActive(s.t, disc)
  }

  /** No job of the disc becomes active that was not. */
  ghost predicate ActiveShrinks(t: Tables, t': Tables, disc: Id) {
    forall j :: OnDisc(t', j, disc) && Active(t'.jobs[j].state) ==> OnDisc(t, j, disc) && Active(t.jobs[j].state)
  }

  lemma ShrinkKeeps(t: Tables, t': Tables, disc: Id)
    requires ActiveShrinks(t, t', disc)
    ensures OneActive(t, disc) ==> OneActive(t', disc)
    ensures !DiscHasActiveJob(t, disc) ==> !DiscHasActiveJob(t', disc)
  {
    assert forall j :: j in t'.jobs && t'.jobs[j].discId == disc ==> OnDisc(t', j, disc);
  }

  /** Only row j changes, and not its disc. */
  ghost predicate OnlyRow(t: Tables, t': Tables, j: Id) {
    t'.jobs.Keys == t.jobs.Keys && forall k :: k in t.jobs && k != j ==> t'.jobs[k] == t.jobs[k]
  }

  // ---- worker steps ----

  /** A lane that does not involve j does not notice. */
  lemma LaneFrame(l: Lane, d: Id, home: map<Id, Id>, t: Tables, t': Tables, j: Id, disc: Id)
    requires LaneInv(l, d, home) && LaneRows(l, t, disc) && OnlyRow(t, t', j)
    requires j !in l.sent
    ensures LaneRows(l, t', disc)
  {
    assert Busy(l.worker) ==> l.worker.job in l.sent;
  }

  lemma OtherLanesFrame(s: Sys, t': Tables, d: Id, j: Id, disc: Id)
    requires LanesInv(s) && AllLaneRows(s, disc) && OnlyRow(s.t, t', j) && j in s.home && s.home[j] == d
    ensures forall e :: e in s.lanes && e != d ==> LaneRows(s.lanes[e], t', disc)
  {
    forall e | e in s.lanes && e != d
      ensures LaneRows(s.lanes[e], t', disc)
    {
      assert LaneInv(s.lanes[e], e, s.home);
      LaneFrame(s.lanes[e], e, s.home, s.t, t', j, disc);
    }
  }

  /** No worker step makes a job of the disc active that was not, and it writes
      at most its own job's row. */
  lemma WorkTablesEffect(s: Sys, l: Lane, act: WorkerAct, now: string, disc: Id)
    requires WorkerRow(l.worker, s.t, disc) && WorkEnabled(s, l, act)
    ensures ActiveShrinks(s.t, WorkTables(s, l, act, now), disc)
    ensures var t' := WorkTables(s, l, act, now);
            t'.jobs == s.t.jobs || (Busy(l.worker) && OnlyRow(s.t, t', l.worker.job))
  {
  }

  lemma PopRows(l: Lane, d: Id, home: map<Id, Id>, t: Tables, disc: Id)
    requires LaneInv(l, d, home) && LaneRows(l, t, disc) && l.worker.AtSelect? && l.chan != []
    ensures LaneRows(l.(worker := Popped(l.chan[0]), chan := l.chan[1..], popped := l.popped + 1), t, disc)
  {
    assert l.chan[0] == l.sent[l.popped];
  }

  /** The worker's own job is none of those still in the channel. */
  lemma OwnJobIsReceived(l: Lane, d: Id, home: map<Id, Id>)
    requires LaneInv(l, d, home) && Busy(l.worker)
    ensures forall i :: l.popped <= i < |l.sent| ==> l.sent[i] != l.worker.job
  {
  }

  lemma WorkChannelRows(s: Sys, d: Id, act: WorkerAct, now: string, disc: Id)
    requires LanesInv(s) && AllLaneRows(s, disc) && Enabled(s, Work(d, act, now))
    ensures ChannelRows(s.lanes[d], WorkTables(s, s.lanes[d], act, now))
  {
    var l := s.lanes[d];
    WorkTablesEffect(s, l, act, now, disc);
    assert LaneInv(l, d, s.home);
    if Busy(l.worker) {
      OwnJobIsReceived(l, d, s.home);
    }
  }

  /** The worker itself, after its own step. */
  lemma WorkWorkerRow(s: Sys, l: Lane, act: WorkerAct, now: string, disc: Id)
    requires WorkerRow(l.worker, s.t, disc) && WorkEnabled(s, l, act) && !act.Pop?
    ensures WorkerRow(WorkLane(l, s.t, act).worker, WorkTables(s, l, act, now), disc)
  {
  }

  lemma WorkKeepsQueue(s: Sys, l: Lane, act: WorkerAct)
    requires WorkEnabled(s, l, act) && !act.Pop?
    ensures WorkLane(l, s.t, act).sent == l.sent && WorkLane(l, s.t, act).popped == l.popped
  {
  }

  lemma WorkRows(s: Sys, d: Id, act: WorkerAct, now: string, disc: Id)
    requires LanesInv(s) && AllLaneRows(s, disc) && Enabled(s, Work(d, act, now))
    ensures LaneRows(WorkLane(s.lanes[d], s.t, act), WorkTables(s, s.lanes[d], act, now), disc)
  {
    var l := s.lanes[d];
    if act.Pop? {
      assert LaneInv(l, d, s.home);
      PopRows(l, d, s.home, s.t, disc);
    } else {
      WorkChannelRows(s, d, act, now, disc);
      WorkWorkerRow(s, l, act, now, disc);
      WorkKeepsQueue(s, l, act);
    }
  }

  lemma WorkKeepsOtherLanes(s: Sys, d: Id, act: WorkerAct, now: string, disc: Id)
    requires LanesInv(s) && AllLaneRows(s, disc) && Enabled(s, Work(d, act, now))
    ensures forall e :: e in s.lanes && e != d ==> LaneRows(s.lanes[e], WorkTables(s, s.lanes[d], act, now), disc)
  {
    var l := s.lanes[d];
    var t' := WorkTables(s, l, act, now);
    WorkTablesEffect(s, l, act, now, disc);
    if t'.jobs != s.t.jobs {
      assert LaneInv(l, d, s.home);
      OtherLanesFrame(s, t', d, l.worker.job, disc);
    }
  }

  lemma WorkKeepsAllRows(s: Sys, d: Id, act: WorkerAct, now: string, disc: Id)
    requires LanesInv(s) && AllLaneRows(s, disc) && Enabled(s, Work(d, act, now))
    ensures AllLaneRows(Next(s, Work(d, act, now)), disc)
  {
    WorkRows(s, d, act, now, disc);
    WorkKeepsOtherLanes(s, d, act, now, disc);
  }

  lemma WorkKeepsFlightRows(s: Sys, d: Id, act: WorkerAct, now: string, disc: Id)
    requires LanesInv(s) && FlightInv(s) && FlightRows(s) && AllLaneRows(s, disc) && Enabled(s, Work(d, act, now))
    ensures FlightRows(Next(s, Work(d, act, now)))
  {
    var l := s.lanes[d];
    WorkTablesEffect(s, l, act, now, disc);
    assert LaneInv(l, d, s.home);
    assert Busy(l.worker) ==> l.worker.job in l.sent && s.home[l.worker.job] == d;
    forall c | c in s.callers && InFlight(s.callers[c])
      ensures Unstarted(WorkTables(s, l, act, now), s.callers[c].job)
    {
      assert Busy(l.worker) ==> s.callers[c].job != l.worker.job;
    }
  }

  lemma WorkKeepsCallers(s: Sys, d: Id, act: WorkerAct, now: string, disc: Id)
    requires LanesInv(s) && FlightInv(s) && CallersInv(s, disc) && AllLaneRows(s, disc) && Enabled(s, Work(d, act, now))
    ensures CallersInv(Next(s, Work(d, act, now)), disc)
  {
    WorkKeepsFlightRows(s, d, act, now, disc);
    WorkTablesEffect(s, s.lanes[d], act, now, disc);
    ShrinkKeeps(s.t, WorkTables(s, s.lanes[d], act, now), disc);
  }

  lemma WorkKeepsUnique(s: Sys, d: Id, act: WorkerAct, now: string, disc: Id)
    requires Unique(s, disc) && Enabled(s, Work(d, act, now))
    ensures var s' := Next(s, Work(d, act, now));
            AllLaneRows(s', disc) && CallersInv(s', disc) && OneActive(s'.t, disc)
  {
    WorkKeepsAllRows(s, d, act, now, disc);
    WorkKeepsCallers(s, d, act, now, disc);
    WorkTablesEffect(s, s.lanes[d], act, now, disc);
    ShrinkKeeps(s.t, WorkTables(s, s.lanes[d], act, now), disc);
  }

  // ---- requests and the rest ----

  /** A write from outside the workers: no job of the disc becomes active, no
      job starts, and those of the disc in the window stay queued. */
  ghost predicate Gentle(s: Sys, t': Tables, disc: Id) {
    && ActiveShrinks(s.t, t', disc)
    && (forall j :: Unstarted(s.t, j) ==> Unstarted(t', j))
    && (forall d :: d in s.lanes && s.lanes[d].worker.Loaded? && OnDisc(t', s.lanes[d].worker.job, disc) ==>
          t'.jobs[s.lanes[d].worker.job].state.Queued?)
  }

  lemma GentleKeeps(s: Sys, t': Tables, disc: Id)
    requires AllLaneRows(s, disc) && CallersInv(s, disc) && OneActive(s.t, disc) && Gentle(s, t', disc)
    ensures var s' := s.(t := t'); AllLaneRows(s', disc) && CallersInv(s', disc) && OneActive(t', disc)
  {
    ShrinkKeeps(s.t, t', disc);
    forall d | d in s.lanes
      ensures LaneRows(s.lanes[d], t', disc)
    {
      assert LaneRows(s.lanes[d], s.t, disc);
    }
  }

  /** Writing "cancelled" outside the window does no harm. */
  lemma CancelIsGentle(s: Sys, job: Id, now: string, disc: Id)
    requires AllLaneRows(s, disc) && (OnDisc(s.t, job, disc) ==> !InWindow(s, job))
    ensures Gentle(s, OrElse(UpdateJobState(s.t, job, JobState.Cancelled, "", now), s.t), disc)
  {
    var t' := OrElse(UpdateJobState(s.t, job, JobState.Cancelled, "", now), s.t);
    forall d | d in s.lanes && s.lanes[d].worker.Loaded? && OnDisc(t', s.lanes[d].worker.job, disc)
      ensures t'.jobs[s.lanes[d].worker.job].state.Queued?
    {
      assert LaneRows(s.lanes[d], s.t, disc);
      assert s.lanes[d].worker.job == job ==> InWindow(s, job);
    }
  }

  /** Deleting rows, even those of active jobs, does none either. */
  lemma DeleteIsGentle(s: Sys, jobs: set<Id>, discs: set<Id>, disc: Id)
    requires AllLaneRows(s, disc)
    ensures Gentle(s, DeleteDiscs(DeleteJobs(s.t, jobs), discs), disc)
  {
    var t' := DeleteDiscs(DeleteJobs(s.t, jobs), discs);
    assert forall j :: j in t'.jobs ==> j in s.t.jobs && t'.jobs[j] == s.t.jobs[j];
    forall d | d in s.lanes && s.lanes[d].worker.Loaded? && OnDisc(t', s.lanes[d].worker.job, disc)
      ensures t'.jobs[s.lanes[d].worker.job].state.Queued?
    {
      assert LaneRows(s.lanes[d], s.t, disc);
    }
  }

  lemma CreateKeepsLaneRows(s: Sys, c: nat, id: Id, skip: set<StepId>, disc: Id)
    requires LanesInv(s) && AllLaneRows(s, disc) && RequestEnabled(s, c, Create(id, skip, false))
    ensures AllLaneRows(RequestNext(s, c, Create(id, skip, false)), disc)
  {
    var t' := RequestNext(s, c, Create(id, skip, false)).t;
    NewRowOnly(s, c, id, skip);
    forall d | d in s.lanes
      ensures LaneRows(s.lanes[d], t', disc)
    {
      assert LaneInv(s.lanes[d], d, s.home) && LaneRows(s.lanes[d], s.t, disc);
      assert Busy(s.lanes[d].worker) ==> s.lanes[d].worker.job in s.lanes[d].sent;
    }
  }

  lemma NewRowOnly(s: Sys, c: nat, id: Id, skip: set<StepId>)
    requires RequestEnabled(s, c, Create(id, skip, false))
    ensures var t' := RequestNext(s, c, Create(id, skip, false)).t;
            && t'.jobs.Keys == s.t.jobs.Keys + {id}
            && t'.jobs[id].state.Queued? && t'.jobs[id].discId == s.callers[c].disc
            && forall j :: j in s.t.jobs ==> j != id && t'.jobs[j] == s.t.jobs[j]
  {
  }

  /** The insert by whoever holds startMu cannot add a second active job. */
  lemma CreateKeepsUnique(s: Sys, c: nat, id: Id, skip: set<StepId>, disc: Id)
    requires CheckedInv(s, disc) && OneActive(s.t, disc) && RequestEnabled(s, c, Create(id, skip, false))
    ensures OneActive(RequestNext(s, c, Create(id, skip, false)).t, disc)
  {
    NewRowOnly(s, c, id, skip);
  }

  lemma CreateKeepsFlightRows(s: Sys, c: nat, id: Id, skip: set<StepId>)
    requires FlightRows(s) && RequestEnabled(s, c, Create(id, skip, false))
    ensures FlightRows(RequestNext(s, c, Create(id, skip, false)))
  {
    NewRowOnly(s, c, id, skip);
  }

  lemma CreateKeepsCallers(s: Sys, c: nat, id: Id, skip: set<StepId>, disc: Id)
    requires CallersInv(s, disc) && RequestEnabled(s, c, Create(id, skip, false))
    ensures CallersInv(RequestNext(s, c, Create(id, skip, false)), disc)
  {
    var s' := RequestNext(s, c, Create(id, skip, false));
    CreateKeepsFlightRows(s, c, id, skip);
    NewRowOnly(s, c, id, skip);
    forall b | b in s'.callers && s'.callers[b].Checked? && s'.callers[b].disc == disc
      ensures s'.callers[b].locked && !DiscHasActiveJob(s'.t, disc)
    {
      assert b != c && s.callers[b] == s'.callers[b];
      assert s.callers[c].disc == disc ==> s.callers[c].locked && HoldsLock(s.callers[c]);
      assert HoldsLock(s.callers[b]);
    }
  }

  lemma SendKeepsRows(s: Sys, c: nat, disc: Id)
    requires AllLaneRows(s, disc) && FlightRows(s) && RequestEnabled(s, c, Send)
    ensures AllLaneRows(RequestNext(s, c, Send), disc)
  {
    var k := s.callers[c];
    var l := s.lanes[k.drive];
    assert LaneRows(l, s.t, disc) && Unstarted(s.t, k.job);
    assert ChannelRows(l.(chan := l.chan + [k.job], sent := l.sent + [k.job]), s.t);
  }

  lemma GoneKeepsCallers(s: Sys, c: nat, disc: Id)
    requires CallersInv(s, disc)
    ensures CallersInv(Gone(s, c), disc)
  {
  }

  lemma BecomeKeepsCallers(s: Sys, c: nat, k: Caller, mu: Option<nat>, disc: Id)
    requires CallersInv(s, disc) && (mu == s.startMu || s.startMu.None?)
    requires InFlight(k) ==> Unstarted(s.t, k.job)
    requires HoldsLock(k) ==> mu == Some(c)
    requires k.Checked? && k.disc == disc ==> k.locked && !DiscHasActiveJob(s.t, disc)
    ensures CallersInv(Become(s, c, k).(startMu := mu), disc)
  {
  }

  /** Requests that write no row. */
  ghost predicate Plain(req: RequestAct) {
    !req.Send? && !(req.Create? && !req.fails) && !req.CancelWrite?
  }

  lemma PlainKeepsLaneRows(s: Sys, c: nat, req: RequestAct, disc: Id)
    requires AllLaneRows(s, disc) && RequestEnabled(s, c, req) && Plain(req)
    ensures AllLaneRows(RequestNext(s, c, req), disc) && RequestNext(s, c, req).t == s.t
  {
    if req.Enqueue? && !s.queuesNil {
      EnqueueAddsLane(s, c);
    } else {
      PlainKeepsTables(s, c, req);
    }
  }

  lemma PlainKeepsTables(s: Sys, c: nat, req: RequestAct)
    requires RequestEnabled(s, c, req) && Plain(req) && !(req.Enqueue? && !s.queuesNil)
    ensures RequestNext(s, c, req).lanes == s.lanes && RequestNext(s, c, req).t == s.t
  {
  }

  lemma CheckKeepsCallers(s: Sys, c: nat, fails: bool, disc: Id)
    requires CallersInv(s, disc) && RequestEnabled(s, c, Check(fails))
    ensures CallersInv(RequestNext(s, c, Check(fails)), disc)
  {
    if fails || DiscHasActiveJob(s.t, s.callers[c].disc) {
      GoneKeepsCallers(s, c, disc);
    } else {
      BecomeKeepsCallers(s, c, Checked(s.callers[c].disc, true), s.startMu, disc);
    }
  }

  lemma EnqueueKeepsCallers(s: Sys, c: nat, disc: Id)
    requires CallersInv(s, disc) && RequestEnabled(s, c, Enqueue)
    ensures CallersInv(RequestNext(s, c, Enqueue), disc)
  {
    if s.queuesNil {
      GoneKeepsCallers(s, c, disc);
    } else {
      var k := s.callers[c];
      BecomeKeepsCallers(s, c, Sending(k.job, k.drive, k.locked), s.startMu, disc);
    }
  }

  lemma PlainKeepsCallers(s: Sys, c: nat, req: RequestAct, disc: Id)
    requires CallersInv(s, disc) && RequestEnabled(s, c, req) && Plain(req) && req != SubmitDirectly(disc)
    ensures CallersInv(RequestNext(s, c, req), disc)
  {
    match req
    case Arrive(other) => BecomeKeepsCallers(s, c, Waiting(other), s.startMu, disc);
    case Lock => BecomeKeepsCallers(s, c, Holding(s.callers[c].disc), Some(c), disc);
    case Check(fails) => CheckKeepsCallers(s, c, fails, disc);
    case SubmitDirectly(other) => BecomeKeepsCallers(s, c, Checked(other, false), s.startMu, disc);
    case Enqueue => EnqueueKeepsCallers(s, c, disc);
    case CancelLookup(job) => BecomeKeepsCallers(s, c, Cancelling(job), s.startMu, disc);
    case _ => GoneKeepsCallers(s, c, disc);
  }

  lemma CancelWriteKeeps(s: Sys, c: nat, now: string, disc: Id)
    requires AllLaneRows(s, disc) && CallersInv(s, disc) && OneActive(s.t, disc)
    requires RequestEnabled(s, c, CancelWrite(now)) && Careful(s, Request(c, CancelWrite(now)), disc)
    ensures var s' := RequestNext(s, c, CancelWrite(now));
            AllLaneRows(s', disc) && CallersInv(s', disc) && OneActive(s'.t, disc)
  {
    var t' := OrElse(UpdateJobState(s.t, s.callers[c].job, JobState.Cancelled, "", now), s.t);
    CancelIsGentle(s, s.callers[c].job, now, disc);
    GentleKeeps(s, t', disc);
    GoneKeepsCallers(s.(t := t'), c, disc);
  }

  lemma CreateKeepsAll(s: Sys, c: nat, id: Id, skip: set<StepId>, disc: Id)
    requires Unique(s, disc) && RequestEnabled(s, c, Create(id, skip, false))
    ensures var s' := RequestNext(s, c, Create(id, skip, false));
            AllLaneRows(s', disc) && CallersInv(s', disc) && OneActive(s'.t, disc)
  {
    CreateKeepsLaneRows(s, c, id, skip, disc);
    CreateKeepsCallers(s, c, id, skip, disc);
    CreateKeepsUnique(s, c, id, skip, disc);
  }

  lemma RequestKeepsUnique(s: Sys, c: nat, req: RequestAct, disc: Id)
    requires Unique(s, disc) && RequestEnabled(s, c, req) && Careful(s, Request(c, req), disc)
    ensures var s' := RequestNext(s, c, req);
            AllLaneRows(s', disc) && CallersInv(s', disc) && OneActive(s'.t, disc)
  {
    if Plain(req) {
      PlainKeepsLaneRows(s, c, req, disc);
      PlainKeepsCallers(s, c, req, disc);
    } else if req.Send? {
      SendKeepsRows(s, c, disc);
      GoneKeepsCallers(s, c, disc);
    } else if req.CancelWrite? {
      CancelWriteKeeps(s, c, req.now, disc);
    } else {
      CreateKeepsAll(s, c, req.id, req.skip, disc);
    }
  }

  lemma BootUnique(t: Tables, home: map<Id, Id>, now: string, disc: Id)
    requires RowsInv(t, home) && OneActive(t, disc)
    ensures Unique(Boot(t, home, now), disc)
  {
    BootInv(t, home, now);
    ShrinkKeeps(t, Recover(t, now), disc);
  }

  /** Cancels at once and deletions only write the tables. */
  lemma TablesStepKeepsUnique(s: Sys, a: Action, disc: Id)
    requires Unique(s, disc) && Enabled(s, a) && (a.CancelAtOnce? || a.Delete? || a.Scan?)
    ensures var s' := Next(s, a); AllLaneRows(s', disc) && CallersInv(s', disc) && OneActive(s'.t, disc)
  {
    if a.Delete? {
      DeleteIsGentle(s, a.jobs, a.discs, disc);
      GentleKeeps(s, Next(s, a).t, disc);
    } else if a.CancelAtOnce? && a.job !in s.cancels {
      NotRegistered(s, a.job);
      CancelIsGentle(s, a.job, a.now, disc);
      GentleKeeps(s, Next(s, a).t, disc);
    }
  }

  lemma NotRegistered(s: Sys, job: Id)
    requires CancelsInv(s) && job !in s.cancels
    ensures !InWindow(s, job)
  {
  }

  /** Every step keeps at most one active job on the disc. */
  lemma StepKeepsUnique(s: Sys, a: Action, disc: Id)
    requires Unique(s, disc) && Enabled(s, a) && Careful(s, a, disc)
    ensures Unique(Next(s, a), disc)
  {
    StepKeepsInv(s, a);
    match a
    case Request(c, req) => RequestKeepsUnique(s, c, req, disc);
    case Work(d, act, now) => WorkKeepsUnique(s, d, act, now, disc);
    case CancelAtOnce(_, _) => TablesStepKeepsUnique(s, a, disc);
    case Delete(_, _) => TablesStepKeepsUnique(s, a, disc);
    case Scan(_) => TablesStepKeepsUnique(s, a, disc);
    case Crash(now) => BootUnique(s.t, s.home, now, disc);
    case _ =>
  }

  // ---- runs ----

  ghost predicate StartedUnique(s: Sys, disc: Id) {
    exists t: Tables, home: map<Id, Id>, now: string ::
      RowsInv(t, home) && OneActive(t, disc) && s == Boot(t, home, now)
  }

  lemma {:induction false} RunKeepsUnique(states: seq<Sys>, actions: seq<Action>, disc: Id, i: nat)
    requires CarefulRun(states, actions, disc) && i < |states| && StartedUnique(states[0], disc)
    ensures Unique(states[i], disc)
  {
    if i == 0 {
      var t, home, now :| RowsInv(t, home) && OneActive(t, disc) && states[0] == Boot(t, home, now);
      BootUnique(t, home, now, disc);
    } else {
      RunKeepsUnique(states, actions, disc, i - 1);
      StepKeepsUnique(states[i - 1], actions[i - 1], disc);
    }
  }

  /** In every run that is careful about a disc, crashes included, that disc
      never has two active jobs, whatever happens to the other discs. */
  lemma NeverTwoActiveJobs(states: seq<Sys>, actions: seq<Action>, disc: Id, i: nat, j: Id, k: Id)
    requires CarefulRun(states, actions, disc) && i < |states| && StartedUnique(states[0], disc)
    requires OnDisc(states[i].t, j, disc) && OnDisc(states[i].t, k, disc)
    requires Active(states[i].t.jobs[j].state) && Active(states[i].t.jobs[k].state)
    ensures j == k
  {
    RunKeepsUnique(states, actions, disc, i);
  }

  /** The condition cannot be dropped: once a late cancel has landed in the
      window, a start request that finds startMu free and the disc still there
      leads, together with the worker's next step, to two active jobs. */
  lemma LateCancelBreaksUniqueness(o: Sys, s: Sys, d: Id, c: nat, newId: Id, skip: set<StepId>, now: string)
    returns (e: Sys)
    requires Leads(o, s) && d in s.lanes && s.lanes[d].worker.Loaded?
    requires var j := s.lanes[d].worker.job;
             j in s.t.jobs && s.t.jobs[j].state.Cancelled? && newId != j && CanStart(s, s.t.jobs[j].discId, c, newId)
    ensures Leads(o, e) && !OneActive(e.t, s.t.jobs[s.lanes[d].worker.job].discId)
  {
    var j := s.lanes[d].worker.job;
    var disc := s.t.jobs[j].discId;
    var made := WithNewJob(s, disc, c, newId, skip);
    StartCreates(o, s, disc, c, newId, skip);
    var last := Work(d, MarkRunning(false), now);
    assert made.lanes == s.lanes && made.t.jobs[j] == s.t.jobs[j];
    LeadsOn(o, made, last);
    e := Next(made, last);
    assert e.t.jobs[j].discId == disc && Active(e.t.jobs[j].state);
    assert e.t.jobs[newId].discId == disc && Active(e.t.jobs[newId].state);
  }

  /** So the daemon as written, with Cancel's lookup and write apart, can reach
      two active jobs on one disc from a clean start, whatever steps they plan to skip. */
  lemma SplitCancelBreaksUniqueness(t: Tables, disc: Id, skip: set<StepId>, now: string) returns (e: Sys)
    requires t.jobs == map[] && disc in t.discs && t.discs[disc].driveId != ""
    ensures StartedUnique(Boot(t, map[], now), disc) && Leads(Boot(t, map[], now), e)
    ensures !OneActive(e.t, disc)
  {
    var s, loaded := Boot(t, map[], now), FirstJobLoaded(t, disc, skip, now);
    assert RowsInv(t, map[]) && OneActive(t, disc);
    ReachLoaded(t, disc, skip, now);
    LeadsOn(s, loaded, Request(1, CancelWrite(now)));
    var late := Next(loaded, Request(1, CancelWrite(now)));
    LateIsStartable(t, disc, skip, now, late);
    e := LateCancelBreaksUniqueness(s, late, t.discs[disc].driveId, 2, "b", skip, now);
  }

  lemma LateIsStartable(t: Tables, disc: Id, skip: set<StepId>, now: string, late: Sys)
    requires t.jobs == map[] && disc in t.discs && t.discs[disc].driveId != ""
    requires late == Next(FirstJobLoaded(t, disc, skip, now), Request(1, CancelWrite(now)))
    ensures var d := t.discs[disc].driveId;
            && d in late.lanes && late.lanes[d].worker == Loaded("a", d)
            && OnDisc(late.t, "a", disc) && late.t.jobs["a"].state.Cancelled? && CanStart(late, disc, 2, "b")
  {
    var loaded := FirstJobLoaded(t, disc, skip, now);
    FirstJobRow(t, disc, skip, now);
    CancelledFirst(loaded.t, disc, now);
    CancelLands(loaded, "a", now);
    StartableNow(late, disc, "b");
  }

  /** The write of a missed Cancel, and nothing else. */
  lemma CancelLands(s: Sys, job: Id, now: string)
    requires s.callers == map[1 := Cancelling(job)]
    ensures var s' := Next(s, Request(1, CancelWrite(now)));
            && s'.callers == map[] && s'.lanes == s.lanes && s'.home == s.home && s'.startMu == s.startMu
            && s'.t == OrElse(UpdateJobState(s.t, job, JobState.Cancelled, "", now), s.t)
  {
  }

  lemma StartableNow(s: Sys, disc: Id, newId: Id)
    requires disc in s.t.discs && s.t.discs[disc].driveId != "" && !DiscHasActiveJob(s.t, disc)
    requires s.callers == map[] && s.startMu.None? && newId !in s.home && newId !in s.t.jobs
    ensures CanStart(s, disc, 2, newId)
  {
  }

  lemma CancelledFirst(t: Tables, disc: Id, now: string)
    requires t.jobs.Keys == {"a"} && t.jobs["a"].discId == disc
    ensures var t' := OrElse(UpdateJobState(t, "a", JobState.Cancelled, "", now), t);
            && t'.jobs.Keys == {"a"} && OnDisc(t', "a", disc) && t'.jobs["a"].state.Cancelled?
            && t'.discs == t.discs && !DiscHasActiveJob(t', disc)
  {
  }
}
