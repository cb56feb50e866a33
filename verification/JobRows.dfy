/** The job protocol and the pipeline handlers together: what a job's step rows
    are once its handler has returned, in any run, from the row a start request
    created to the events the handler wrote (daemon/api/discs.go,
    daemon/jobs/orchestrator.go, daemon/jobs/sink.go). */
module JobRows {
  import opened Wrappers
  import opened Schema
  import opened SinkTrace
  import opened StepTrace
  import opened Protocol
  import opened ProtocolSafety
  import Recovery
  import Handlers

  predicate HasRow(t: Tables, j: Id, s: StepId) {
    (j, s) in t.steps
  }

  /** The job, unless it has been deleted, has its eight rows, as planned and
      then changed by these events. */
  ghost predicate Shows(t: Tables, j: Id, skip: set<StepId>, written: seq<SinkEvent>) {
    && (j in t.jobs ==> forall s: StepId :: HasRow(t, j, s))
    && (forall s: StepId :: HasRow(t, j, s) ==>
          t.steps[(j, s)].state == RowAfter(Planned(skip, s), s, written))
  }

  /** No row of the job appears or changes its state; they may go with the job. */
  ghost predicate KeepsRowsOf(t: Tables, t': Tables, j: Id) {
    && (forall s: StepId :: HasRow(t', j, s) ==> HasRow(t, j, s) && t'.steps[(j, s)].state == t.steps[(j, s)].state)
    && (j in t'.jobs ==> j in t.jobs && forall s: StepId :: HasRow(t, j, s) ==> HasRow(t', j, s))
  }

  lemma StillShows(t: Tables, t': Tables, j: Id, skip: set<StepId>, written: seq<SinkEvent>)
    requires Shows(t, j, skip, written) && KeepsRowsOf(t, t', j)
    ensures Shows(t', j, skip, written)
  {
  }

  // ---- who writes the rows of a job ----

  lemma WorkKeepsRowsOf(s: Sys, l: Lane, act: WorkerAct, now: string, j: Id)
    requires WorkEnabled(s, l, act) && !(act.SinkWrite? && l.worker.job == j)
    ensures KeepsRowsOf(s.t, WorkTables(s, l, act, now), j)
  {
    Recovery.WorkStepRows(s, l, act, now, j);
    Recovery.WorkJobKeys(s, l, act, now);
  }

  lemma CreateKeepsRowsOf(s: Sys, c: nat, id: Id, skip: set<StepId>, j: Id)
    requires RequestEnabled(s, c, Create(id, skip, false)) && id != j
    ensures KeepsRowsOf(s.t, RequestNext(s, c, Create(id, skip, false)).t, j)
  {
    var k := s.callers[c];
    OthersRowsStay(s.t, id, k.disc, s.t.discs[k.disc].driveId, skip, j);
  }

  lemma OthersRowsStay(t: Tables, id: Id, disc: Id, drive: Id, skip: set<StepId>, j: Id)
    requires id != j
    ensures KeepsRowsOf(t, InsertJob(t, id, disc, drive, skip), j)
  {
    var t' := InsertJob(t, id, disc, drive, skip);
    forall p: StepId
      ensures HasRow(t', j, p) <==> HasRow(t, j, p)
      ensures HasRow(t, j, p) ==> t'.steps[(j, p)] == t.steps[(j, p)]
    {
      NotItsRow(id, skip, j, p);
    }
  }

  lemma NotItsRow(id: Id, skip: set<StepId>, j: Id, p: StepId)
    requires id != j
    ensures (j, p) !in StepRows(id, skip, CanonicalSteps())
  {
  }

  lemma DeleteKeepsRowsOf(t: Tables, jobs: set<Id>, discs: set<Id>, j: Id)
    ensures KeepsRowsOf(t, DeleteDiscs(DeleteJobs(t, jobs), discs), j)
  {
    var left := DeleteJobs(t, jobs);
    assert forall s: StepId :: (j, s).0 == j;
    assert j in DeleteDiscs(left, discs).jobs ==> j !in jobs && j !in JobsOfDiscs(left, discs);
  }

  lemma RecoverKeepsRowsOf(t: Tables, now: string, j: Id)
    requires forall s: StepId :: HasRow(t, j, s) ==> !t.steps[(j, s)].state.Running?
    ensures KeepsRowsOf(t, Recover(t, now), j)
  {
  }

  lemma OtherKeepsRowsOf(s: Sys, a: Action, j: Id)
    requires Enabled(s, a) && !a.Work? && !a.Crash? && j in s.home
    ensures KeepsRowsOf(s.t, Next(s, a).t, j)
  {
    if a.Delete? {
      DeleteKeepsRowsOf(s.t, a.jobs, a.discs, j);
    } else if a.Request? {
      RequestKeepsRowsOf(s, a.c, a.req, j);
    } else {
      assert Next(s, a).t.steps == s.t.steps && Next(s, a).t.jobs.Keys == s.t.jobs.Keys;
    }
  }

  lemma RequestKeepsRowsOf(s: Sys, c: nat, req: RequestAct, j: Id)
    requires RequestEnabled(s, c, req) && j in s.home
    ensures KeepsRowsOf(s.t, RequestNext(s, c, req).t, j)
  {
    if req.Create? && !req.fails {
      CreateKeepsRowsOf(s, c, req.id, req.skip, j);
    } else if !req.CancelWrite? {
      SameTables(s, c, req);
    }
  }

  lemma SameTables(s: Sys, c: nat, req: RequestAct)
    requires RequestEnabled(s, c, req) && !(req.Create? && !req.fails) && !req.CancelWrite?
    ensures RequestNext(s, c, req).t == s.t
  {
    if req.Enqueue? && !s.queuesNil {
      EnqueueAddsLane(s, c);
    } else if req.Send? {
      SendSameTables(s, c);
    }
  }

  lemma SendSameTables(s: Sys, c: nat)
    requires RequestEnabled(s, c, Send)
    ensures RequestNext(s, c, Send).t == s.t
  {
  }

  // ---- where a job is ----

  ghost predicate Carries(s: Sys, c: nat, j: Id) {
    c in s.callers && InFlight(s.callers[c]) && s.callers[c].job == j
  }

  /** The worker has not received this position, or is on its way to the handler with it. */
  predicate ToCome(l: Lane, p: nat) {
    p >= l.popped || (p == l.popped - 1 && BeforeRun(l.worker))
  }

  ghost predicate QueuedAt(s: Sys, d: Id, p: nat, j: Id) {
    d in s.lanes && p < |s.lanes[d].sent| && s.lanes[d].sent[p] == j && ToCome(s.lanes[d], p)
  }

  /** The job may yet enter handler.Run: its request carries it, or its worker
      has not got to the handler with it. */
  ghost predicate Awaits(s: Sys, j: Id) {
    Carried(s, j) || Queued(s, j)
  }

  ghost predicate Carried(s: Sys, j: Id) {
    exists c :: Carries(s, c, j)
  }

  ghost predicate Queued(s: Sys, j: Id) {
    exists d, p: nat :: QueuedAt(s, d, p, j)
  }

  ghost predicate InRunOf(s: Sys, d: Id, j: Id) {
    d in s.lanes && s.lanes[d].worker.InRun? && s.lanes[d].worker.job == j
  }

  /** A request other than Send leaves the lanes alone, but for a new one. */
  lemma RequestKeepsLane(s: Sys, c: nat, req: RequestAct, d: Id)
    requires RequestEnabled(s, c, req) && !req.Send? && d in RequestNext(s, c, req).lanes
    ensures RequestNext(s, c, req).lanes[d] == if d in s.lanes then s.lanes[d] else NEW_LANE
  {
    if Simple(s, req) {
      SimpleIsHarmless(s, c, req);
    } else if req.Enqueue? {
      EnqueueAddsLane(s, c);
    } else {
      assert RequestNext(s, c, req).lanes == s.lanes;
    }
  }

  /** A Send adds the caller's job at the end of its drive's history. */
  lemma SendAddsJob(s: Sys, c: nat, d: Id)
    requires RequestEnabled(s, c, Send) && d in RequestNext(s, c, Send).lanes
    ensures d in s.lanes
    ensures var l, l' := s.lanes[d], RequestNext(s, c, Send).lanes[d];
            if d == s.callers[c].drive
            then l' == l.(chan := l.chan + [s.callers[c].job], sent := l.sent + [s.callers[c].job]) else l' == l
  {
  }

  /** A request moves no worker and adds to no history but what was sent. */
  lemma RequestKeepsHistory(s: Sys, c: nat, req: RequestAct, d: Id)
    requires RequestEnabled(s, c, req) && d in RequestNext(s, c, req).lanes
    ensures var l := RequestNext(s, c, req).lanes[d];
            if d in s.lanes then l == s.lanes[d].(chan := l.chan, sent := l.sent) else l == NEW_LANE
  {
    if req.Send? {
      SendAddsJob(s, c, d);
    } else {
      RequestKeepsLane(s, c, req, d);
    }
  }

  // ---- a job waits once ----

  /** Nothing but its own start request makes a job wait. */
  lemma AwaitsBefore(s: Sys, a: Action, j: Id)
    requires Enabled(s, a) && j in s.home && Awaits(Next(s, a), j)
    ensures Awaits(s, j) && !a.Crash?
  {
    if c :| Carries(Next(s, a), c, j) {
      CarriedBefore(s, a, c, j);
    } else {
      var d: Id, p: nat :| QueuedAt(Next(s, a), d, p, j);
      QueuedBefore(s, a, d, p, j);
    }
  }

  lemma CarriedBefore(s: Sys, a: Action, c: nat, j: Id)
    requires Enabled(s, a) && j in s.home && Carries(Next(s, a), c, j)
    ensures Carries(s, c, j) && !a.Crash?
  {
    if a.Request? {
      CallerBefore(s, a.c, a.req, c, j);
    }
  }

  lemma CallerBefore(s: Sys, c: nat, req: RequestAct, k: nat, j: Id)
    requires RequestEnabled(s, c, req) && j in s.home && Carries(RequestNext(s, c, req), k, j)
    ensures Carries(s, k, j)
  {
  }

  lemma QueuedBefore(s: Sys, a: Action, d: Id, p: nat, j: Id)
    requires Enabled(s, a) && j in s.home && QueuedAt(Next(s, a), d, p, j)
    ensures Awaits(s, j) && !a.Crash?
  {
    if a.Request? {
      RequestKeepsHistory(s, a.c, a.req, d);
      SentBefore(s, a.c, a.req, d, p, j);
    } else {
      if a.Work? && a.d == d {
        WorkSentBefore(s.lanes[d], s, a.act, p);
      }
      assert QueuedAt(s, d, p, j);
    }
  }

  lemma WorkSentBefore(l: Lane, s: Sys, act: WorkerAct, p: nat)
    requires WorkEnabled(s, l, act)
    ensures WorkLane(l, s.t, act).sent == l.sent
    ensures ToCome(WorkLane(l, s.t, act), p) ==> ToCome(l, p)
  {
  }

  lemma SentBefore(s: Sys, c: nat, req: RequestAct, d: Id, p: nat, j: Id)
    requires RequestEnabled(s, c, req) && QueuedAt(RequestNext(s, c, req), d, p, j)
    ensures Awaits(s, j)
  {
    if req.Send? {
      SendAddsJob(s, c, d);
      if p < |s.lanes[d].sent| {
        assert QueuedAt(s, d, p, j);
      } else {
        assert Carries(s, c, j);
      }
    } else {
      RequestKeepsLane(s, c, req, d);
      assert QueuedAt(s, d, p, j);
    }
  }

  /** A job that waits is not inside Run. */
  lemma WaitsOutside(s: Sys, d: Id, j: Id)
    requires Inv(s)
    ensures InRunOf(s, d, j) ==> !Awaits(s, j)
  {
    if InRunOf(s, d, j) {
      assert LaneInv(s.lanes[d], d, s.home);
      PositionOf(s, d, j, s.lanes[d].popped - 1);
    }
  }

  /** A job at a position that is past does not wait. */
  lemma PositionOf(s: Sys, d: Id, j: Id, p: nat)
    requires Inv(s) && d in s.lanes && p < |s.lanes[d].sent| && s.lanes[d].sent[p] == j && !ToCome(s.lanes[d], p)
    ensures !Awaits(s, j)
  {
    assert s.lanes[d].sent[p] in s.lanes[d].sent;
    assert LaneInv(s.lanes[d], d, s.home);
    forall c | c in s.callers && InFlight(s.callers[c])
      ensures s.callers[c].job != j
    {
    }
    forall e, q: nat | e in s.lanes && q < |s.lanes[e].sent| && s.lanes[e].sent[q] == j
      ensures !ToCome(s.lanes[e], q)
    {
      SentOnce(s, d, p, e, q);
    }
  }

  lemma SentOnce(s: Sys, d: Id, p: nat, e: Id, q: nat)
    requires LanesInv(s) && d in s.lanes && p < |s.lanes[d].sent| && e in s.lanes && q < |s.lanes[e].sent|
    requires s.lanes[d].sent[p] == s.lanes[e].sent[q]
    ensures d == e && p == q
  {
    assert LaneInv(s.lanes[d], d, s.home) && LaneInv(s.lanes[e], e, s.home);
    assert p < q || q < p || p == q;
  }

  // ---- from the start request to the handler ----

  /** As long as the job waits, its rows are as the start request wrote them. */
  ghost predicate FreshAt(s: Sys, j: Id, skip: set<StepId>) {
    j in s.home && (Awaits(s, j) ==> Shows(s.t, j, skip, []))
  }

  lemma HomeStays(s: Sys, a: Action, j: Id)
    requires Enabled(s, a) && j in s.home
    ensures j in Next(s, a).home
  {
    if a.Request? {
      Recovery.RequestSameWorkers(s, a.c, a.req);
    }
  }

  lemma StepKeepsFresh(s: Sys, a: Action, j: Id, skip: set<StepId>)
    requires Inv(s) && Enabled(s, a) && FreshAt(s, j, skip)
    ensures FreshAt(Next(s, a), j, skip)
  {
    HomeStays(s, a, j);
    if Awaits(Next(s, a), j) {
      AwaitsBefore(s, a, j);
      if a.Work? {
        WaitsOutside(s, a.d, j);
        WorkKeepsRowsOf(s, s.lanes[a.d], a.act, a.now, j);
      } else {
        OtherKeepsRowsOf(s, a, j);
      }
      StillShows(s.t, Next(s, a).t, j, skip, []);
    }
  }

  lemma CreateShows(s: Sys, c: nat, j: Id, skip: set<StepId>)
    requires RequestEnabled(s, c, Create(j, skip, false))
    ensures FreshAt(RequestNext(s, c, Create(j, skip, false)), j, skip)
  {
    var k := s.callers[c];
    forall p: StepId
      ensures HasRow(InsertJob(s.t, j, k.disc, s.t.discs[k.disc].driveId, skip), j, p)
      ensures InsertJob(s.t, j, k.disc, s.t.discs[k.disc].driveId, skip).steps[(j, p)].state == Planned(skip, p)
    {
      NewRow(s.t, j, k.disc, s.t.discs[k.disc].driveId, skip, p);
    }
  }

  // ---- from the handler on ----

  /** The events leave no step running. */
  ghost predicate Settles(skip: set<StepId>, trace: seq<SinkEvent>) {
    forall p: StepId :: !RowAfter(Planned(skip, p), p, trace).Running?
  }

  /** The job has entered Run, for good: inside, its rows show the events written
      so far, and afterwards all of them. */
  ghost predicate RunShows(s: Sys, d: Id, j: Id, skip: set<StepId>, trace: seq<SinkEvent>) {
    && j in s.home && s.home[j] == d && !Awaits(s, j)
    && if InRunOf(s, d, j) then ShowsSoFar(s.t, j, skip, trace, s.lanes[d].worker.todo)
       else Shows(s.t, j, skip, trace)
  }

  ghost predicate ShowsSoFar(t: Tables, j: Id, skip: set<StepId>, trace: seq<SinkEvent>, todo: seq<SinkEvent>) {
    && |todo| <= |trace| && todo == trace[|trace| - |todo|..]
    && Shows(t, j, skip, trace[..|trace| - |todo|])
  }

  /** No crash catches the handler of the job, and none of its step writes is lost. */
  ghost predicate Steady(s: Sys, a: Action, d: Id, j: Id) {
    InRunOf(s, d, j) ==> !a.Crash? && !(a.Work? && a.d == d && a.act.SinkWrite? && a.act.fails)
  }

  lemma EnteredWaitsNoMore(s: Sys, a: Action)
    requires Inv(s) && Enabled(s, a) && a.Work? && a.act.EnterRun?
    ensures !Awaits(Next(s, a), s.lanes[a.d].worker.job)
  {
    var l, s' := s.lanes[a.d], Next(s, a);
    assert LaneInv(l, a.d, s.home);
    StepKeepsInv(s, a);
    PositionOf(s', a.d, l.worker.job, l.popped - 1);
  }

  lemma StartingAwaits(s: Sys, d: Id)
    requires LanesInv(s) && d in s.lanes && s.lanes[d].worker.Starting?
    ensures Awaits(s, s.lanes[d].worker.job) && s.lanes[d].worker.job in s.home
    ensures s.home[s.lanes[d].worker.job] == d
  {
    var l := s.lanes[d];
    assert LaneInv(l, d, s.home);
    assert QueuedAt(s, d, l.popped - 1, l.worker.job);
  }

  lemma EnterShows(s: Sys, a: Action, skip: set<StepId>)
    requires Inv(s) && Enabled(s, a) && a.Work? && a.act.EnterRun?
    requires FreshAt(s, s.lanes[a.d].worker.job, skip)
    ensures RunShows(Next(s, a), a.d, s.lanes[a.d].worker.job, skip, a.act.todo)
  {
    var l, j := s.lanes[a.d], s.lanes[a.d].worker.job;
    StartingAwaits(s, a.d);
    EnteredWaitsNoMore(s, a);
    WorkKeepsRowsOf(s, l, a.act, a.now, j);
    StillShows(s.t, WorkTables(s, l, a.act, a.now), j, skip, []);
    assert a.act.todo[0..] == a.act.todo && a.act.todo[..0] == [];
  }

  lemma WriteShows(t: Tables, j: Id, skip: set<StepId>, trace: seq<SinkEvent>, todo: seq<SinkEvent>, now: string)
    requires ShowsSoFar(t, j, skip, trace, todo) && todo != []
    ensures ShowsSoFar(OrElse(UpdateJobStepState(t, j, todo[0].step, Written(todo[0]), now), t),
                       j, skip, trace, todo[1..])
  {
    var n := |trace| - |todo|;
    assert trace[..n + 1] == trace[..n] + [trace[n]] && trace[n] == todo[0];
    forall p: StepId
      ensures RowAfter(Planned(skip, p), p, trace[..n + 1])
           == if p == todo[0].step then Written(todo[0]) else RowAfter(Planned(skip, p), p, trace[..n])
    {
      RowSplit(Planned(skip, p), p, trace[..n], [trace[n]]);
      RowOfEvent(RowAfter(Planned(skip, p), p, trace[..n]), p, trace[n]);
    }
    WriteOneRow(t, j, todo[0], now);
  }

  lemma WriteOneRow(t: Tables, j: Id, e: SinkEvent, now: string)
    ensures var t' := OrElse(UpdateJobStepState(t, j, e.step, Written(e), now), t);
            && t'.jobs == t.jobs
            && forall p: StepId ::
                 && (HasRow(t', j, p) <==> HasRow(t, j, p))
                 && (HasRow(t, j, p) ==>
                       t'.steps[(j, p)].state == if p == e.step then Written(e) else t.steps[(j, p)].state)
  {
  }

  /** The worker's own steps inside the handler: a write, or the return. */
  lemma InsideKeepsRunShows(s: Sys, d: Id, act: WorkerAct, now: string, j: Id, skip: set<StepId>, trace: seq<SinkEvent>)
    requires RunShows(s, d, j, skip, trace) && InRunOf(s, d, j)
    requires Enabled(s, Work(d, act, now)) && Steady(s, Work(d, act, now), d, j)
    requires !Awaits(Next(s, Work(d, act, now)), j)
    ensures RunShows(Next(s, Work(d, act, now)), d, j, skip, trace)
  {
    var w := s.lanes[d].worker;
    if act.SinkWrite? {
      WriteShows(s.t, j, skip, trace, w.todo, now);
    } else {
      assert act.Return? && w.todo == [] && trace[..|trace|] == trace;
    }
  }

  lemma WorkKeepsRunShows(s: Sys, e: Id, act: WorkerAct, now: string,
                          d: Id, j: Id, skip: set<StepId>, trace: seq<SinkEvent>)
    requires Inv(s) && RunShows(s, d, j, skip, trace)
    requires Enabled(s, Work(e, act, now)) && Steady(s, Work(e, act, now), d, j)
    requires !Awaits(Next(s, Work(e, act, now)), j)
    ensures RunShows(Next(s, Work(e, act, now)), d, j, skip, trace)
  {
    assert LaneInv(s.lanes[e], e, s.home);
    if InRunOf(s, d, j) && e == d {
      InsideKeepsRunShows(s, d, act, now, j, skip, trace);
    } else {
      OtherWorkKeeps(s, e, act, now, d, j);
      StillShowsSoFar(s, Next(s, Work(e, act, now)), d, j, skip, trace);
    }
  }

  /** Any other worker step leaves the job's rows alone, and does not bring it
      into a handler again. */
  lemma OtherWorkKeeps(s: Sys, e: Id, act: WorkerAct, now: string, d: Id, j: Id)
    requires Inv(s) && j in s.home && s.home[j] == d && !Awaits(s, j)
    requires Enabled(s, Work(e, act, now)) && !(InRunOf(s, d, j) && e == d)
    ensures SameRun(s, Next(s, Work(e, act, now)), d, j)
  {
    assert LaneInv(s.lanes[e], e, s.home);
    WorkKeepsRowsOf(s, s.lanes[e], act, now, j);
    if e == d {
      NotEnteredTwice(s, d, act, j);
    } else {
      OtherLaneStays(s, e, act, now, d);
    }
  }

  lemma OtherLaneStays(s: Sys, e: Id, act: WorkerAct, now: string, d: Id)
    requires Enabled(s, Work(e, act, now)) && d != e
    ensures var s' := Next(s, Work(e, act, now));
            (d in s'.lanes <==> d in s.lanes) && (d in s.lanes ==> s'.lanes[d] == s.lanes[d]) && s'.home == s.home
  {
  }

  /** A worker of this drive that is not inside Run for the job does not get there. */
  lemma NotEnteredTwice(s: Sys, d: Id, act: WorkerAct, j: Id)
    requires LanesInv(s) && d in s.lanes && WorkEnabled(s, s.lanes[d], act) && !Awaits(s, j) && !InRunOf(s, d, j)
    ensures var w := WorkLane(s.lanes[d], s.t, act).worker; !(w.InRun? && w.job == j)
  {
    var l := s.lanes[d];
    assert LaneInv(l, d, s.home);
    if act.EnterRun? {
      assert l.worker.job == j ==> QueuedAt(s, d, l.popped - 1, j);
    }
  }

  ghost predicate SameRun(s: Sys, s': Sys, d: Id, j: Id) {
    && KeepsRowsOf(s.t, s'.t, j) && (InRunOf(s', d, j) <==> InRunOf(s, d, j))
    && (InRunOf(s, d, j) ==> s'.lanes[d].worker == s.lanes[d].worker)
    && (j in s.home ==> j in s'.home && s'.home[j] == s.home[j])
  }

  lemma StillShowsSoFar(s: Sys, s': Sys, d: Id, j: Id, skip: set<StepId>, trace: seq<SinkEvent>)
    requires RunShows(s, d, j, skip, trace) && SameRun(s, s', d, j) && !Awaits(s', j)
    ensures RunShows(s', d, j, skip, trace)
  {
    if InRunOf(s, d, j) {
      StillShows(s.t, s'.t, j, skip, trace[..|trace| - |s.lanes[d].worker.todo|]);
    } else {
      StillShows(s.t, s'.t, j, skip, trace);
    }
  }

  lemma OtherKeepsRun(s: Sys, a: Action, d: Id, j: Id)
    requires Enabled(s, a) && !a.Work? && !a.Crash? && j in s.home
    ensures SameRun(s, Next(s, a), d, j)
  {
    OtherKeepsRowsOf(s, a, j);
    if a.Request? {
      Recovery.RequestSameWorkers(s, a.c, a.req);
    }
  }

  /** A crash finds no step of the job running, once its handler has returned. */
  lemma CrashKeepsRun(s: Sys, now: string, d: Id, j: Id, skip: set<StepId>, trace: seq<SinkEvent>)
    requires RunShows(s, d, j, skip, trace) && Settles(skip, trace) && !InRunOf(s, d, j)
    ensures SameRun(s, Next(s, Crash(now)), d, j)
  {
    RecoverKeepsRowsOf(s.t, now, j);
  }

  lemma StepKeepsRunShows(s: Sys, a: Action, d: Id, j: Id, skip: set<StepId>, trace: seq<SinkEvent>)
    requires Inv(s) && Enabled(s, a) && Steady(s, a, d, j)
    requires RunShows(s, d, j, skip, trace) && Settles(skip, trace)
    ensures RunShows(Next(s, a), d, j, skip, trace)
  {
    if Awaits(Next(s, a), j) {
      AwaitsBefore(s, a, j);
    }
    if a.Work? {
      WorkKeepsRunShows(s, a.d, a.act, a.now, d, j, skip, trace);
    } else {
      if a.Crash? {
        CrashKeepsRun(s, a.now, d, j, skip, trace);
      } else {
        OtherKeepsRun(s, a, d, j);
      }
      StillShowsSoFar(s, Next(s, a), d, j, skip, trace);
    }
  }

  // ---- whole runs ----

  /** The start request's insert of the job. */
  predicate Creates(a: Action, j: Id, skip: set<StepId>) {
    a.Request? && a.req == Create(j, skip, false)
  }

  /** The job's worker takes it into its handler, which is to write this trace. */
  predicate Enters(s: Sys, a: Action, d: Id, j: Id, trace: seq<SinkEvent>) {
    && a.Work? && a.d == d && a.act.EnterRun? && a.act.todo == trace
    && d in s.lanes && s.lanes[d].worker.Starting? && s.lanes[d].worker.job == j
  }

  lemma CreateStep(s: Sys, a: Action, s': Sys, j: Id, skip: set<StepId>)
    requires Enabled(s, a) && s' == Next(s, a) && Creates(a, j, skip)
    ensures FreshAt(s', j, skip)
  {
    CreateShows(s, a.c, j, skip);
  }

  lemma EnterStep(s: Sys, a: Action, s': Sys, d: Id, j: Id, skip: set<StepId>, trace: seq<SinkEvent>)
    requires Inv(s) && Enabled(s, a) && s' == Next(s, a) && Enters(s, a, d, j, trace) && FreshAt(s, j, skip)
    ensures RunShows(s', d, j, skip, trace)
  {
    EnterShows(s, a, skip);
  }

  lemma FreshNext(states: seq<Sys>, actions: seq<Action>, i: nat, j: Id, skip: set<StepId>)
    requires Run(states, actions) && Started(states[0]) && 0 < i < |states| && FreshAt(states[i - 1], j, skip)
    ensures FreshAt(states[i], j, skip)
  {
    RunKeepsInv(states, actions, i - 1);
    StepKeepsFresh(states[i - 1], actions[i - 1], j, skip);
  }

  lemma FreshUntil(states: seq<Sys>, actions: seq<Action>, f: nat, i: nat, j: Id, skip: set<StepId>)
    requires Run(states, actions) && Started(states[0]) && f <= i < |states| && FreshAt(states[f], j, skip)
    ensures FreshAt(states[i], j, skip)
  {
    ghost var holds := (k: nat) => k < |states| && FreshAt(states[k], j, skip);
    forall k: nat | f < k <= i && holds(k - 1)
      ensures holds(k)
    {
      FreshNext(states, actions, k, j, skip);
    }
    Along(holds, f, i);
  }

  lemma ShowsNext(states: seq<Sys>, actions: seq<Action>, i: nat, d: Id, j: Id, skip: set<StepId>,
                  trace: seq<SinkEvent>)
    requires Run(states, actions) && Started(states[0]) && 0 < i < |states| && Settles(skip, trace)
    requires RunShows(states[i - 1], d, j, skip, trace) && Steady(states[i - 1], actions[i - 1], d, j)
    ensures RunShows(states[i], d, j, skip, trace)
  {
    RunKeepsInv(states, actions, i - 1);
    StepKeepsRunShows(states[i - 1], actions[i - 1], d, j, skip, trace);
  }

  lemma ShowsFrom(states: seq<Sys>, actions: seq<Action>, f: nat, i: nat,
                  d: Id, j: Id, skip: set<StepId>, trace: seq<SinkEvent>)
    requires Run(states, actions) && Started(states[0]) && f <= i < |states| && Settles(skip, trace)
    requires RunShows(states[f], d, j, skip, trace)
    requires SteadyBetween(states, actions, f, i, d, j)
    ensures RunShows(states[i], d, j, skip, trace)
  {
    ghost var holds := (k: nat) => k < |states| && RunShows(states[k], d, j, skip, trace);
    forall k: nat | f < k <= i && holds(k - 1)
      ensures holds(k)
    {
      ShowsNext(states, actions, k, d, j, skip, trace);
    }
    Along(holds, f, i);
  }

  ghost predicate SteadyBetween(states: seq<Sys>, actions: seq<Action>, f: nat, i: nat, d: Id, j: Id)
    requires i < |states| && |states| == |actions| + 1
  {
    forall k :: f <= k < i ==> Steady(states[k], actions[k], d, j)
  }

  /** From the start request to the handler's return. */
  lemma ShowsAtEnd(states: seq<Sys>, actions: seq<Action>, c: nat, e: nat, i: nat,
                   d: Id, j: Id, skip: set<StepId>, trace: seq<SinkEvent>)
    requires Run(states, actions) && Started(states[0]) && c < e < i < |states| && Settles(skip, trace)
    requires Creates(actions[c], j, skip) && Enters(states[e], actions[e], d, j, trace)
    requires SteadyBetween(states, actions, e + 1, i, d, j)
    ensures RunShows(states[i], d, j, skip, trace)
  {
    CreateStep(states[c], actions[c], states[c + 1], j, skip);
    FreshUntil(states, actions, c + 1, e, j, skip);
    RunKeepsInv(states, actions, e);
    EnterStep(states[e], actions[e], states[e + 1], d, j, skip, trace);
    ShowsFrom(states, actions, e + 1, i, d, j, skip, trace);
  }

  lemma HandlerSettles(skip: set<StepId>, failed: Option<StepId>, ejectFailed: bool)
    requires Eject !in skip && (failed.Some? ==> failed.value !in skip)
    ensures Settles(skip, Handlers.HandlerTrace(skip, failed, ejectFailed))
  {
    forall q: StepId
      ensures RowAfter(Planned(skip, q), q, Handlers.HandlerTrace(skip, failed, ejectFailed))
           == Handlers.Outcome(skip, failed, q)
    {
      Handlers.HandlerOutcome(skip, failed, ejectFailed, q);
    }
  }

  /** For every run, with any other traffic in between: a job created with this
      plan, whose handler wrote the events of a run failing at `failed` or
      nowhere, has, from the handler's return on, through later restarts too, and
      unless it is deleted, all eight rows as that run is meant to leave them. */
  lemma JobEndsAsItsHandlerRan(states: seq<Sys>, actions: seq<Action>, c: nat, e: nat, i: nat, d: Id, j: Id,
                               skip: set<StepId>, failed: Option<StepId>, ejectFailed: bool, p: StepId)
    requires Run(states, actions) && Started(states[0]) && c < e < i < |states|
    requires Creates(actions[c], j, skip)
    requires Enters(states[e], actions[e], d, j, Handlers.HandlerTrace(skip, failed, ejectFailed))
    requires Eject !in skip && (failed.Some? ==> failed.value !in skip)
    requires SteadyBetween(states, actions, e + 1, i, d, j) && !InRunOf(states[i], d, j)
    ensures j in states[i].t.jobs ==> HasRow(states[i].t, j, p)
    ensures HasRow(states[i].t, j, p) ==> states[i].t.steps[(j, p)].state == Handlers.Outcome(skip, failed, p)
  {
    HandlerSettles(skip, failed, ejectFailed);
    Handlers.HandlerOutcome(skip, failed, ejectFailed, p);
    ShowsAtEnd(states, actions, c, e, i, d, j, skip, Handlers.HandlerTrace(skip, failed, ejectFailed));
  }
}
