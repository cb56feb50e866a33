/** What holds in every run of the job protocol, whatever the interleaving:
    exclusion per drive, channel order, at most one run per job, the exact
    contents of `cancels`, and silence after Close. */
module ProtocolSafety {
  import opened Wrappers
  import opened Schema
  import opened SinkTrace
  import opened Protocol

  /** A caller that has created a job and not yet sent it (or given up). */
  predicate InFlight(k: Caller) {
    k.Made? || k.Sending?
  }

  predicate BeforeRun(w: Worker) {
    w.Popped? || w.Registered? || w.Loaded? || w.Starting?
  }

  predicate KnowsDrive(w: Worker) {
    w.Loaded? || w.Starting? || w.InRun? || w.Returned? || w.Finalized?
  }

  ghost predicate Increasing(xs: seq<nat>, bound: nat) {
    && (forall i :: 0 <= i < |xs| ==> xs[i] < bound)
    && (forall i, j :: 0 <= i < j < |xs| ==> xs[i] < xs[j])
  }

  ghost predicate Distinct(xs: seq<Id>) {
    forall i, j :: 0 <= i < j < |xs| ==> xs[i] != xs[j]
  }

  ghost predicate AllHome(xs: seq<Id>, d: Id, home: map<Id, Id>) {
    forall i :: 0 <= i < |xs| ==> xs[i] in home && home[xs[i]] == d
  }

  /** One drive: its channel is what was sent and not yet received, each job was
      sent once, its worker works on the job received last and on this drive,
      and what entered Run did so in order. */
  ghost predicate LaneInv(l: Lane, d: Id, home: map<Id, Id>) {
    && l.popped <= |l.sent| && l.chan == l.sent[l.popped..] && |l.chan| <= CHANNEL_CAPACITY
    && Distinct(l.sent) && AllHome(l.sent, d, home)
    && (Busy(l.worker) ==> l.popped > 0 && l.worker.job == l.sent[l.popped - 1])
    && (KnowsDrive(l.worker) ==> l.worker.drive == d)
    && Increasing(l.entered, if BeforeRun(l.worker) then l.popped - 1 else l.popped)
  }

  ghost predicate LanesInv(s: Sys) {
    forall d :: d in s.lanes ==> LaneInv(s.lanes[d], d, s.home)
  }

  /** A job row names the drive the job was created for, for good. */
  ghost predicate RowsInv(t: Tables, home: map<Id, Id>) {
    forall j :: j in t.jobs ==> j in home && t.jobs[j].driveId == home[j]
  }

  /** A job in flight is carried by one request, for its own drive, and has not been sent. */
  ghost predicate FlightInv(s: Sys) {
    && (forall c :: c in s.callers && InFlight(s.callers[c]) ==>
          && s.callers[c].job in s.home && s.home[s.callers[c].job] == s.callers[c].drive
          && (s.callers[c].drive in s.lanes ==> s.callers[c].job !in s.lanes[s.callers[c].drive].sent))
    && (forall c1, c2 :: c1 in s.callers && c2 in s.callers && c1 != c2
                         && InFlight(s.callers[c1]) && InFlight(s.callers[c2]) ==>
          s.callers[c1].job != s.callers[c2].job)
  }

  ghost predicate Holds(l: Lane, j: Id) {
    InsideRunJob(l.worker) && l.worker.job == j
  }

  /** `cancels` holds exactly the jobs whose worker is inside runJob. */
  ghost predicate CancelsInv(s: Sys) {
    && (forall j :: j in s.cancels ==> j in s.home && s.home[j] in s.lanes && Holds(s.lanes[s.home[j]], j))
    && (forall d :: d in s.lanes && InsideRunJob(s.lanes[d].worker) ==> s.lanes[d].worker.job in s.cancels)
  }

  ghost predicate CloseInv(s: Sys) {
    && (s.stopped ==> s.queuesNil)
    && (s.closed ==> s.stopped)
    && (forall d :: d in s.lanes && s.lanes[d].worker.Exited? ==> s.stopped)
    && (s.closed ==> forall d :: d in s.lanes ==> s.lanes[d].worker.Exited?)
  }

  ghost predicate Inv(s: Sys) {
    LanesInv(s) && RowsInv(s.t, s.home) && FlightInv(s) && CancelsInv(s) && CloseInv(s)
  }

  // ---- the invariant starts and stays ----

  lemma BootInv(t: Tables, home: map<Id, Id>, now: string)
    requires RowsInv(t, home)
    ensures Inv(Boot(t, home, now))
  {
  }

  lemma PopKeepsLane(l: Lane, d: Id, home: map<Id, Id>)
    requires LaneInv(l, d, home) && l.worker.AtSelect? && l.chan != []
    ensures LaneInv(l.(worker := Popped(l.chan[0]), chan := l.chan[1..], popped := l.popped + 1), d, home)
  {
    assert l.chan[1..] == l.sent[l.popped + 1..];
    assert l.chan[0] == l.sent[l.popped];
  }

  lemma EnterKeepsLane(l: Lane, d: Id, home: map<Id, Id>, w: Worker)
    requires LaneInv(l, d, home) && l.worker.Starting? && w.InRun? && w.job == l.worker.job && w.drive == d
    ensures LaneInv(l.(worker := w, entered := l.entered + [l.popped - 1]), d, home)
  {
    assert Increasing(l.entered + [l.popped - 1], l.popped);
  }

  /** A worker step keeps its own drive in order. */
  lemma WorkKeepsLane(s: Sys, d: Id, act: WorkerAct)
    requires d in s.lanes && WorkEnabled(s, s.lanes[d], act)
    requires LaneInv(s.lanes[d], d, s.home) && RowsInv(s.t, s.home)
    ensures LaneInv(WorkLane(s.lanes[d], s.t, act), d, s.home)
  {
    var l := s.lanes[d];
    if act.Pop? {
      PopKeepsLane(l, d, s.home);
    } else if act.EnterRun? {
      EnterKeepsLane(l, d, s.home, WorkLane(l, s.t, act).worker);
    } else {
      assert WorkLane(l, s.t, act) == l.(worker := WorkLane(l, s.t, act).worker);
    }
  }

  lemma WorkKeepsLanes(s: Sys, d: Id, act: WorkerAct, now: string)
    requires LanesInv(s) && RowsInv(s.t, s.home) && Enabled(s, Work(d, act, now))
    ensures LanesInv(Next(s, Work(d, act, now)))
  {
    WorkKeepsLane(s, d, act);
  }

  /** No worker step touches the identity of a job row. */
  lemma WorkKeepsRows(s: Sys, l: Lane, act: WorkerAct, now: string)
    requires WorkEnabled(s, l, act) && RowsInv(s.t, s.home)
    ensures RowsInv(WorkTables(s, l, act, now), s.home)
  {
  }

  lemma WorkKeepsSent(l: Lane, s: Sys, act: WorkerAct)
    requires WorkEnabled(s, l, act)
    ensures WorkLane(l, s.t, act).sent == l.sent
  {
  }

  /** Flights depend on what lanes have been sent, not on their workers. */
  lemma FlightFrame(s: Sys, s': Sys)
    requires FlightInv(s) && s'.callers == s.callers && s'.home == s.home
    requires forall d :: d in s'.lanes ==> d in s.lanes && s'.lanes[d].sent == s.lanes[d].sent
    ensures FlightInv(s')
  {
  }

  lemma WorkKeepsFlight(s: Sys, d: Id, act: WorkerAct, now: string)
    requires FlightInv(s) && Enabled(s, Work(d, act, now))
    ensures FlightInv(Next(s, Work(d, act, now)))
  {
    WorkKeepsSent(s.lanes[d], s, act);
    FlightFrame(s, Next(s, Work(d, act, now)));
  }

  /** What a worker step does to being inside runJob. */
  lemma WorkInside(l: Lane, s: Sys, act: WorkerAct)
    requires WorkEnabled(s, l, act)
    ensures InsideTurn(l.worker, WorkLane(l, s.t, act).worker, s.cancels, WorkCancels(l, s.cancels, act))
  {
  }

  predicate InsideTurn(w: Worker, w': Worker, cancels: set<Id>, cancels': set<Id>) {
    || (InsideRunJob(w) && InsideRunJob(w') && w.job == w'.job && cancels' == cancels)
    || (!InsideRunJob(w) && !InsideRunJob(w') && cancels' == cancels)
    || (w.Popped? && InsideRunJob(w') && w.job == w'.job && cancels' == cancels + {w.job})
    || (InsideRunJob(w) && !InsideRunJob(w') && cancels' == cancels - {w.job})
  }

  /** s' differs from s in one worker, which turns, and in `cancels` accordingly. */
  ghost predicate Turned(s: Sys, s': Sys, d: Id) {
    && d in s.lanes && s'.lanes.Keys == s.lanes.Keys && s'.home == s.home
    && (forall e :: e in s.lanes && e != d ==> s'.lanes[e] == s.lanes[e])
    && InsideTurn(s.lanes[d].worker, s'.lanes[d].worker, s.cancels, s'.cancels)
    && AtHome(s)
  }

  /** Every worker works on a job of its own drive. */
  ghost predicate AtHome(s: Sys) {
    forall d :: d in s.lanes && Busy(s.lanes[d].worker) ==>
      s.lanes[d].worker.job in s.home && s.home[s.lanes[d].worker.job] == d
  }

  /** Registering and leaving runJob keep `cancels` exact, whoever else is inside. */
  lemma TurnKeepsCancels(s: Sys, s': Sys, d: Id)
    requires CancelsInv(s) && Turned(s, s', d)
    ensures CancelsInv(s')
  {
    forall e | e in s'.lanes && InsideRunJob(s'.lanes[e].worker)
      ensures s'.lanes[e].worker.job in s'.cancels
    {
      TurnKeepsMember(s, s', d, e);
    }
  }

  lemma TurnKeepsMember(s: Sys, s': Sys, d: Id, e: Id)
    requires CancelsInv(s) && Turned(s, s', d) && e in s'.lanes && InsideRunJob(s'.lanes[e].worker)
    ensures s'.lanes[e].worker.job in s'.cancels
  {
    if e != d {
      assert s.home[s.lanes[e].worker.job] == e;
    }
  }

  lemma WorkTurns(s: Sys, d: Id, act: WorkerAct, now: string)
    requires LanesInv(s) && Enabled(s, Work(d, act, now))
    ensures Turned(s, Next(s, Work(d, act, now)), d)
  {
    WorkInside(s.lanes[d], s, act);
    assert AtHome(s) by {
      forall e | e in s.lanes && Busy(s.lanes[e].worker)
        ensures s.lanes[e].worker.job in s.home && s.home[s.lanes[e].worker.job] == e
      {
        assert LaneInv(s.lanes[e], e, s.home);
      }
    }
  }

  lemma WorkKeepsClose(s: Sys, d: Id, act: WorkerAct, now: string)
    requires CloseInv(s) && Enabled(s, Work(d, act, now))
    ensures CloseInv(Next(s, Work(d, act, now)))
  {
  }

  // ---- requests that touch lanes, rows or `home` ----

  lemma CreateKeepsLanes(s: Sys, c: nat, id: Id, skip: set<StepId>)
    requires LanesInv(s) && RequestEnabled(s, c, Create(id, skip, false))
    ensures LanesInv(RequestNext(s, c, Create(id, skip, false)))
  {
    var home' := RequestNext(s, c, Create(id, skip, false)).home;
    forall d | d in s.lanes
      ensures LaneInv(s.lanes[d], d, home')
    {
      assert LaneInv(s.lanes[d], d, s.home);
    }
  }

  lemma CreateKeepsFlight(s: Sys, c: nat, id: Id, skip: set<StepId>)
    requires LanesInv(s) && FlightInv(s) && RequestEnabled(s, c, Create(id, skip, false))
    ensures FlightInv(RequestNext(s, c, Create(id, skip, false)))
  {
    forall d | d in s.lanes
      ensures id !in s.lanes[d].sent
    {
      assert LaneInv(s.lanes[d], d, s.home);
    }
  }

  lemma CreateKeepsRest(s: Sys, c: nat, id: Id, skip: set<StepId>)
    requires RowsInv(s.t, s.home) && CancelsInv(s) && CloseInv(s) && RequestEnabled(s, c, Create(id, skip, false))
    ensures var s' := RequestNext(s, c, Create(id, skip, false));
            RowsInv(s'.t, s'.home) && CancelsInv(s') && CloseInv(s')
  {
    assert id !in s.cancels;
  }

  /** A new, idle lane at most. */
  ghost predicate NewLaneAtMost(s: Sys, s': Sys) {
    && s'.home == s.home && s'.cancels == s.cancels && s'.t == s.t
    && s'.queuesNil == s.queuesNil && s'.stopped == s.stopped && s'.closed == s.closed
    && (forall d :: d in s.lanes ==> d in s'.lanes && s'.lanes[d] == s.lanes[d])
    && (forall d :: d in s'.lanes && d !in s.lanes ==> s'.lanes[d] == NEW_LANE)
  }

  lemma EnqueueAddsLane(s: Sys, c: nat)
    requires RequestEnabled(s, c, Enqueue) && !s.queuesNil
    ensures NewLaneAtMost(s, RequestNext(s, c, Enqueue))
  {
  }

  lemma NewLaneKeeps(s: Sys, s': Sys)
    requires LanesInv(s) && CancelsInv(s) && CloseInv(s) && !s.stopped && NewLaneAtMost(s, s')
    ensures LanesInv(s') && CancelsInv(s') && CloseInv(s')
  {
    assert LaneInv(NEW_LANE, "", s.home);
  }

  lemma EnqueueKeepsFlight(s: Sys, c: nat)
    requires FlightInv(s) && RequestEnabled(s, c, Enqueue) && !s.queuesNil
    ensures FlightInv(RequestNext(s, c, Enqueue))
  {
    EnqueueAddsLane(s, c);
  }

  lemma SendKeepsLane(l: Lane, d: Id, home: map<Id, Id>, job: Id)
    requires LaneInv(l, d, home) && |l.chan| < CHANNEL_CAPACITY
    requires job in home && home[job] == d && job !in l.sent
    ensures LaneInv(l.(chan := l.chan + [job], sent := l.sent + [job]), d, home)
  {
    assert l.chan + [job] == (l.sent + [job])[l.popped..];
    assert Distinct(l.sent + [job]);
  }

  lemma SendKeepsLanes(s: Sys, c: nat)
    requires LanesInv(s) && FlightInv(s) && RequestEnabled(s, c, Send)
    ensures LanesInv(RequestNext(s, c, Send))
  {
    var k := s.callers[c];
    SendKeepsLane(s.lanes[k.drive], k.drive, s.home, k.job);
  }

  lemma SendKeepsFlight(s: Sys, c: nat)
    requires FlightInv(s) && RequestEnabled(s, c, Send)
    ensures FlightInv(RequestNext(s, c, Send))
  {
    var s', k := RequestNext(s, c, Send), s.callers[c];
    forall b | b in s'.callers && InFlight(s'.callers[b])
      ensures s'.callers[b].drive in s'.lanes ==> s'.callers[b].job !in s'.lanes[s'.callers[b].drive].sent
    {
      assert b != c && s'.callers[b] == s.callers[b] && s.callers[b].job != k.job;
    }
  }

  lemma SendKeepsRest(s: Sys, c: nat)
    requires CancelsInv(s) && CloseInv(s) && RequestEnabled(s, c, Send)
    ensures CancelsInv(RequestNext(s, c, Send)) && CloseInv(RequestNext(s, c, Send))
  {
    var s' := RequestNext(s, c, Send);
    SendKeepsWorkers(s, c);
    assert s'.cancels == s.cancels && s'.home == s.home;
  }

  lemma SendKeepsWorkers(s: Sys, c: nat)
    requires RequestEnabled(s, c, Send)
    ensures var s' := RequestNext(s, c, Send);
            s'.lanes.Keys == s.lanes.Keys && forall d :: d in s.lanes ==> s'.lanes[d].worker == s.lanes[d].worker
  {
  }

  // ---- the other requests ----

  /** Neither the lanes nor `cancels`, `home` or the Close flags change, no new
      job is in flight and no row gets a new identity. */
  ghost predicate Harmless(s: Sys, s': Sys) {
    && s'.lanes == s.lanes && s'.home == s.home && s'.cancels == s.cancels
    && s'.queuesNil == s.queuesNil && s'.stopped == s.stopped && s'.closed == s.closed
    && (forall b :: b in s'.callers && InFlight(s'.callers[b]) ==>
          b in s.callers && InFlight(s.callers[b])
          && s.callers[b].job == s'.callers[b].job && s.callers[b].drive == s'.callers[b].drive)
    && NoNewRow(s.t, s'.t)
  }

  ghost predicate NoNewRow(t: Tables, t': Tables) {
    forall j :: j in t'.jobs ==> j in t.jobs && t'.jobs[j].driveId == t.jobs[j].driveId
  }

  lemma HarmlessKeeps(s: Sys, s': Sys)
    requires Inv(s) && Harmless(s, s')
    ensures Inv(s')
  {
  }

  lemma GoneIsHarmless(s: Sys, c: nat, t': Tables)
    requires NoNewRow(s.t, t')
    ensures Harmless(s, Gone(s, c).(t := t'))
  {
  }

  lemma BecomeIsHarmless(s: Sys, c: nat, k: Caller, mu: Option<nat>)
    requires !InFlight(k)
    ensures Harmless(s, Become(s, c, k).(startMu := mu))
  {
  }

  predicate Simple(s: Sys, req: RequestAct) {
    !req.Send? && !(req.Create? && !req.fails) && !(req.Enqueue? && !s.queuesNil)
  }

  lemma SimpleKeepsInv(s: Sys, c: nat, req: RequestAct)
    requires Inv(s) && RequestEnabled(s, c, req) && Simple(s, req)
    ensures Inv(RequestNext(s, c, req))
  {
    SimpleIsHarmless(s, c, req);
    HarmlessKeeps(s, RequestNext(s, c, req));
  }

  lemma SimpleIsHarmless(s: Sys, c: nat, req: RequestAct)
    requires RequestEnabled(s, c, req) && Simple(s, req)
    ensures Harmless(s, RequestNext(s, c, req))
  {
    match req
    case Arrive(disc) => BecomeIsHarmless(s, c, Waiting(disc), s.startMu);
    case Lock => BecomeIsHarmless(s, c, Holding(s.callers[c].disc), Some(c));
    case SubmitDirectly(disc) => BecomeIsHarmless(s, c, Checked(disc, false), s.startMu);
    case CancelLookup(job) => BecomeIsHarmless(s, c, Cancelling(job), s.startMu);
    case Check(_) =>
      BecomeIsHarmless(s, c, Checked(s.callers[c].disc, true), s.startMu);
      GoneIsHarmless(s, c, s.t);
    case CancelWrite(now) => CancelWriteIsHarmless(s, c, now);
    case _ => GoneIsHarmless(s, c, s.t);
  }

  lemma CancelWriteIsHarmless(s: Sys, c: nat, now: string)
    requires RequestEnabled(s, c, CancelWrite(now))
    ensures Harmless(s, RequestNext(s, c, CancelWrite(now)))
  {
    GoneIsHarmless(s, c, OrElse(UpdateJobState(s.t, s.callers[c].job, JobState.Cancelled, "", now), s.t));
  }

  /** Cancelling at once and deleting only write the tables. */
  lemma TablesOnlyKeeps(s: Sys, t': Tables)
    requires Inv(s) && NoNewRow(s.t, t')
    ensures Inv(s.(t := t'))
  {
    assert Harmless(s, s.(t := t'));
    HarmlessKeeps(s, s.(t := t'));
  }

  // ---- every step ----

  lemma CloseKeeps(s: Sys, a: Action)
    requires Inv(s) && Enabled(s, a) && (a.CloseQueues? || a.CloseStop? || a.CloseWait?)
    ensures Inv(Next(s, a))
  {
    assert Next(s, a).callers == s.callers;
  }

  lemma RequestKeepsInv(s: Sys, c: nat, req: RequestAct)
    requires Inv(s) && RequestEnabled(s, c, req)
    ensures Inv(RequestNext(s, c, req))
  {
    if Simple(s, req) {
      SimpleKeepsInv(s, c, req);
    } else if req.Send? {
      SendKeepsLanes(s, c);
      SendKeepsFlight(s, c);
      SendKeepsRest(s, c);
    } else if req.Create? {
      CreateKeepsLanes(s, c, req.id, req.skip);
      CreateKeepsFlight(s, c, req.id, req.skip);
      CreateKeepsRest(s, c, req.id, req.skip);
    } else {
      EnqueueAddsLane(s, c);
      NewLaneKeeps(s, RequestNext(s, c, req));
      EnqueueKeepsFlight(s, c);
    }
  }

  lemma WorkKeepsInv(s: Sys, d: Id, act: WorkerAct, now: string)
    requires Inv(s) && Enabled(s, Work(d, act, now))
    ensures Inv(Next(s, Work(d, act, now)))
  {
    WorkKeepsLanes(s, d, act, now);
    WorkKeepsRows(s, s.lanes[d], act, now);
    WorkKeepsFlight(s, d, act, now);
    WorkTurns(s, d, act, now);
    TurnKeepsCancels(s, Next(s, Work(d, act, now)), d);
    WorkKeepsClose(s, d, act, now);
  }

  lemma StepKeepsInv(s: Sys, a: Action)
    requires Inv(s) && Enabled(s, a)
    ensures Inv(Next(s, a))
  {
    match a
    case Request(c, req) => RequestKeepsInv(s, c, req);
    case Work(d, act, now) => WorkKeepsInv(s, d, act, now);
    case CancelAtOnce(job, now) =>
      TablesOnlyKeeps(s, OrElse(UpdateJobState(s.t, job, JobState.Cancelled, "", now), s.t));
    case Delete(jobs, discs) => TablesOnlyKeeps(s, DeleteDiscs(DeleteJobs(s.t, jobs), discs));
    case Crash(now) => BootInv(s.t, s.home, now);
    case Scan(found) => TablesOnlyKeeps(s, ScanDrives(s.t, found));
    case _ => CloseKeeps(s, a);
  }

  // ---- what the invariant says about runs ----

  ghost predicate Started(s: Sys) {
    exists t: Tables, home: map<Id, Id>, now: string :: RowsInv(t, home) && s == Boot(t, home, now)
  }

  lemma {:induction false} RunKeepsInv(states: seq<Sys>, actions: seq<Action>, i: nat)
    requires Run(states, actions) && i < |states| && Started(states[0])
    ensures Inv(states[i])
  {
    if i == 0 {
      var t, home, now :| RowsInv(t, home) && states[0] == Boot(t, home, now);
      BootInv(t, home, now);
    } else {
      RunKeepsInv(states, actions, i - 1);
      StepKeepsInv(states[i - 1], actions[i - 1]);
    }
  }

  /** A drive has at most one job inside handler.Run: two workers inside Run are
      on the drives of their job rows, and those differ. */
  lemma OneRunPerDrive(states: seq<Sys>, actions: seq<Action>, i: nat, d: Id, e: Id)
    requires Run(states, actions) && i < |states| && Started(states[0])
    requires d in states[i].lanes && e in states[i].lanes && d != e
    requires states[i].lanes[d].worker.InRun? && states[i].lanes[e].worker.InRun?
    ensures states[i].lanes[d].worker.drive != states[i].lanes[e].worker.drive
    ensures states[i].lanes[d].worker.job != states[i].lanes[e].worker.job
  {
    RunKeepsInv(states, actions, i);
    var s := states[i];
    assert s.home[s.lanes[d].worker.job] == d && s.home[s.lanes[e].worker.job] == e;
  }

  /** Jobs enter handler.Run in channel order, each at most once, on any drive. */
  lemma RunOrder(states: seq<Sys>, actions: seq<Action>, i: nat, d: Id, a: nat, b: nat)
    requires Run(states, actions) && i < |states| && Started(states[0])
    requires d in states[i].lanes && a < b < |states[i].lanes[d].entered|
    ensures var l := states[i].lanes[d];
            && l.entered[a] < l.entered[b] < l.popped <= |l.sent|
            && l.sent[l.entered[a]] != l.sent[l.entered[b]]
  {
    RunKeepsInv(states, actions, i);
  }

  lemma RunOncePerJob(states: seq<Sys>, actions: seq<Action>, i: nat, d: Id, e: Id, a: nat, b: nat)
    requires Run(states, actions) && i < |states| && Started(states[0])
    requires d in states[i].lanes && e in states[i].lanes && (d != e || a != b)
    requires a < |states[i].lanes[d].entered| && b < |states[i].lanes[e].entered|
    ensures var l, m := states[i].lanes[d], states[i].lanes[e];
            && l.entered[a] < |l.sent| && m.entered[b] < |m.sent|
            && l.sent[l.entered[a]] != m.sent[m.entered[b]]
  {
    RunKeepsInv(states, actions, i);
    var s := states[i];
    var l, m := s.lanes[d], s.lanes[e];
    assert l.entered[a] < |l.sent| && m.entered[b] < |m.sent|;
    if d != e {
      assert s.home[l.sent[l.entered[a]]] == d && s.home[m.sent[m.entered[b]]] == e;
    } else if a < b {
      RunOrder(states, actions, i, d, a, b);
    } else {
      RunOrder(states, actions, i, d, b, a);
    }
  }

  /** Cancel finds a job exactly while some worker is inside runJob for it. */
  lemma CancelsExact(states: seq<Sys>, actions: seq<Action>, i: nat, j: Id)
    requires Run(states, actions) && i < |states| && Started(states[0])
    ensures j in states[i].cancels <==> exists d :: d in states[i].lanes && Holds(states[i].lanes[d], j)
  {
    RunKeepsInv(states, actions, i);
    if j in states[i].cancels {
      assert Holds(states[i].lanes[states[i].home[j]], j);
    }
  }

  /** The same workers, all gone for good, with nothing new in handler.Run. */
  ghost predicate Silent(s: Sys, s': Sys) {
    && s'.closed && s'.lanes.Keys == s.lanes.Keys
    && forall d :: d in s.lanes ==> s'.lanes[d].worker.Exited? && s'.lanes[d].entered == s.lanes[d].entered
  }

  /** Once Close has returned no worker is left, and until the process restarts
      none ever starts and nothing enters Run again. */
  lemma SilentAfterClose(states: seq<Sys>, actions: seq<Action>, i: nat, k: nat)
    requires Run(states, actions) && Started(states[0]) && i <= k < |states|
    requires states[i].closed && forall n :: i <= n < k ==> !actions[n].Crash?
    ensures Silent(states[i], states[k])
  {
    ClosedAt(states, actions, i);
    ghost var silent := (n: nat) => n < |states| && Silent(states[i], states[n]);
    forall n: nat | i < n <= k && silent(n - 1)
      ensures silent(n)
    {
      SilentForOneMore(states, actions, states[i], n - 1);
    }
    Along(silent, i, k);
  }

  lemma ClosedAt(states: seq<Sys>, actions: seq<Action>, k: nat)
    requires Run(states, actions) && Started(states[0]) && k < |states| && states[k].closed
    ensures Silent(states[k], states[k])
  {
    RunKeepsInv(states, actions, k);
  }

  lemma ClosedStepAt(states: seq<Sys>, actions: seq<Action>, k: nat)
    requires Run(states, actions) && Started(states[0]) && k < |actions|
    requires states[k].closed && !actions[k].Crash?
    ensures Silent(states[k], states[k + 1])
  {
    RunKeepsInv(states, actions, k);
    ClosedStep(states[k], actions[k], states[k + 1]);
  }

  lemma SilentForOneMore(states: seq<Sys>, actions: seq<Action>, s: Sys, k: nat)
    requires Run(states, actions) && Started(states[0]) && k < |actions|
    requires Silent(s, states[k]) && !actions[k].Crash?
    ensures Silent(s, states[k + 1])
  {
    ClosedStepAt(states, actions, k);
    SilentTransitive(s, states[k], states[k + 1]);
  }

  lemma SilentTransitive(a: Sys, b: Sys, c: Sys)
    requires Silent(a, b) && Silent(b, c)
    ensures Silent(a, c)
  {
  }

  lemma ClosedStep(s: Sys, a: Action, s': Sys)
    requires CloseInv(s) && s.closed && Enabled(s, a) && s' == Next(s, a) && !a.Crash?
    ensures Silent(s, s')
  {
    match a
    case Request(c, req) => ClosedRequest(s, c, req);
    case Work(d, act, now) => ClosedWork(s, d, act, now);
    case _ =>
  }

  lemma ClosedRequest(s: Sys, c: nat, req: RequestAct)
    requires CloseInv(s) && s.closed && RequestEnabled(s, c, req)
    ensures Silent(s, RequestNext(s, c, req))
  {
    if req.Send? {
      SendKeepsWorkers(s, c);
    } else {
      assert RequestNext(s, c, req).lanes == s.lanes;
    }
  }

  /** No worker that has exited takes a step. */
  lemma ClosedWork(s: Sys, d: Id, act: WorkerAct, now: string)
    requires CloseInv(s) && s.closed && d in s.lanes
    ensures !WorkEnabled(s, s.lanes[d], act)
  {
  }
}
