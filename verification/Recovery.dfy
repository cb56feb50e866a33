/** Crash recovery, job by job. In every run in which no late cancel of a job
    lands inside its handler and no write that ends one of its steps is lost, a
    running step of that job means a running job, so the start-up statements
    leave no trace of a crash on it. Both conditions are needed, and the runs
    that show it start from a clean boot. */
module Recovery {
  import opened Wrappers
  import opened Schema
  import opened SinkTrace
  import opened StepTrace
  import opened Protocol
  import opened ProtocolSafety
  import opened ProtocolRuns

  predicate StepRuns(t: Tables, j: Id, step: StepId) {
    (j, step) in t.steps && t.steps[(j, step)].state.Running?
  }

  ghost predicate NoStepRuns(t: Tables, j: Id) {
    forall step: StepId :: !StepRuns(t, j, step)
  }

  // ---- the start-up statements ----

  /** Afterwards no job waits or runs and no drive is identifying; jobs that
      were paused or finished keep their rows, and so does every step that was
      not running. */
  lemma RecoverCleans(t: Tables, now: string)
    ensures var r := Recover(t, now);
            && (forall j :: j in r.jobs ==> !Orphaned(r.jobs[j].state))
            && (forall d :: d in r.drives ==> !r.drives[d].state.Identifying?)
            && r.jobs.Keys == t.jobs.Keys && r.steps.Keys == t.steps.Keys && r.drives.Keys == t.drives.Keys
            && (forall j :: j in t.jobs && !Orphaned(t.jobs[j].state) ==> r.jobs[j] == t.jobs[j])
            && (forall j :: j in t.jobs && Orphaned(t.jobs[j].state) ==>
                  r.jobs[j] == t.jobs[j].(state := JobState.Interrupted, finishedAt := now))
            && (forall k :: k in t.steps && !t.steps[k].state.Running? ==> r.steps[k] == t.steps[k])
            && (forall d :: d in t.drives && !t.drives[d].state.Identifying? ==> r.drives[d] == t.drives[d])
            && r.discs == t.discs && r.logs == t.logs
  {
  }

  /** They end a running step exactly if its job was waiting, running or already
      interrupted. */
  lemma RecoverClearsStep(t: Tables, now: string, j: Id, step: StepId)
    requires StepRuns(t, j, step)
    ensures !StepRuns(Recover(t, now), j, step) <==>
            j in t.jobs && (Orphaned(t.jobs[j].state) || t.jobs[j].state.Interrupted?)
  {
    assert (j, step) in Recover(t, now).steps;
  }

  /** And they start none. */
  lemma RecoverStartsNone(t: Tables, now: string, j: Id, step: StepId)
    ensures StepRuns(Recover(t, now), j, step) ==> StepRuns(t, j, step)
  {
  }

  /** A second restart changes nothing more. */
  lemma RecoverTwice(t: Tables, now: string, later: string)
    ensures Recover(Recover(t, now), later) == Recover(t, now)
  {
    var r := Recover(t, now);
    var r' := Recover(r, later);
    assert r'.drives == r.drives;
    assert r'.jobs == r.jobs;
    assert r'.steps == r.steps;
  }

  // ---- the invariant, for one job ----

  ghost predicate RunsStep(l: Lane, j: Id, step: StepId) {
    l.worker.InRun? && l.worker.job == j && l.worker.cur == Some(step)
  }

  /** A running step of the job is the current one of the worker that runs it. */
  ghost predicate StepsInv(s: Sys, j: Id) {
    forall step: StepId :: StepRuns(s.t, j, step) ==>
      j in s.home && s.home[j] in s.lanes && RunsStep(s.lanes[s.home[j]], j, step)
  }

  /** The job's step rows go with its job row. */
  ghost predicate StepRefs(t: Tables, j: Id) {
    forall step: StepId :: (j, step) in t.steps ==> j in t.jobs
  }

  predicate AtHandler(w: Worker) {
    w.Starting? || w.InRun?
  }

  ghost predicate Runner(l: Lane, t: Tables, j: Id) {
    && (AtHandler(l.worker) && l.worker.job == j && j in t.jobs ==> t.jobs[j].state.Running?)
    && (l.worker.InRun? ==> Disciplined(l.worker.cur, l.worker.todo))
  }

  ghost predicate RunnersInv(s: Sys, j: Id) {
    forall d :: d in s.lanes ==> Runner(s.lanes[d], s.t, j)
  }

  ghost predicate Tidy(s: Sys, j: Id) {
    StepsInv(s, j) && StepRefs(s.t, j) && RunnersInv(s, j)
  }

  /** Some worker is at or inside handler.Run for the job. */
  ghost predicate InHandler(s: Sys, j: Id) {
    exists d :: d in s.lanes && AtHandler(s.lanes[d].worker) && s.lanes[d].worker.job == j
  }

  /** No late cancel lands on the job inside its handler, and no write that ends
      one of its steps is lost. */
  ghost predicate Faithful(s: Sys, a: Action, j: Id) {
    && (a.Request? && a.req.CancelWrite? && a.c in s.callers && s.callers[a.c] == Cancelling(j) ==> !InHandler(s, j))
    && (a.Work? && a.act.SinkWrite? && a.act.fails && a.d in s.lanes ==> LosesNoEnd(s.lanes[a.d].worker, j))
  }

  predicate LosesNoEnd(w: Worker, j: Id) {
    w.InRun? && w.job == j ==> w.todo != [] && w.todo[0].Start?
  }

  ghost predicate FaithfulRun(states: seq<Sys>, actions: seq<Action>, j: Id) {
    && Run(states, actions)
    && forall i :: 0 <= i < |actions| ==> Faithful(states[i], actions[i], j)
  }

  lemma TidyMeansRunning(s: Sys, j: Id, step: StepId)
    requires Tidy(s, j) && StepRuns(s.t, j, step)
    ensures j in s.t.jobs && s.t.jobs[j].state.Running?
  {
  }

  // ---- worker steps ----

  /** A worker step writes step rows only as a sink write of its own job. */
  lemma WorkStepRows(s: Sys, l: Lane, act: WorkerAct, now: string, j: Id)
    requires WorkEnabled(s, l, act) && !(act.SinkWrite? && l.worker.job == j)
    ensures var t' := WorkTables(s, l, act, now);
            forall step: StepId :: (j, step) in t'.steps <==> (j, step) in s.t.steps
    ensures var t' := WorkTables(s, l, act, now);
            forall step: StepId :: (j, step) in t'.steps ==> t'.steps[(j, step)] == s.t.steps[(j, step)]
  {
  }

  lemma WorkJobKeys(s: Sys, l: Lane, act: WorkerAct, now: string)
    requires WorkEnabled(s, l, act)
    ensures WorkTables(s, l, act, now).jobs.Keys == s.t.jobs.Keys
    ensures WorkTables(s, l, act, now).steps.Keys == s.t.steps.Keys
  {
  }

  /** A worker with a current step has nothing to do but write. */
  lemma RunningOnlyWrites(s: Sys, l: Lane, act: WorkerAct, j: Id, step: StepId)
    requires WorkEnabled(s, l, act) && RunsStep(l, j, step) && Disciplined(l.worker.cur, l.worker.todo)
    ensures act.SinkWrite? && l.worker.job == j
  {
  }

  lemma SinkWriteSteps(s: Sys, d: Id, fails: bool, now: string, j: Id, step: StepId)
    requires d in s.lanes && WorkEnabled(s, s.lanes[d], SinkWrite(fails)) && s.lanes[d].worker.job == j
    requires forall p: StepId :: StepRuns(s.t, j, p) ==> RunsStep(s.lanes[d], j, p)
    requires Disciplined(s.lanes[d].worker.cur, s.lanes[d].worker.todo)
    requires fails ==> s.lanes[d].worker.todo[0].Start?
    requires StepRuns(WorkTables(s, s.lanes[d], SinkWrite(fails), now), j, step)
    ensures RunsStep(WorkLane(s.lanes[d], s.t, SinkWrite(fails)), j, step)
  {
    var w := s.lanes[d].worker;
    assert Allowed(w.cur, w.todo[0]);
    if step != w.todo[0].step {
      assert StepRuns(s.t, j, step);
    }
  }

  lemma WorkStepsOf(s: Sys, d: Id, act: WorkerAct, now: string, j: Id, step: StepId)
    requires AtHome(s) && StepsInv(s, j) && RunnersInv(s, j)
    requires Enabled(s, Work(d, act, now)) && Faithful(s, Work(d, act, now), j)
    requires StepRuns(WorkTables(s, s.lanes[d], act, now), j, step)
    ensures j in s.home && s.home[j] in s.lanes
    ensures RunsStep(if s.home[j] == d then WorkLane(s.lanes[d], s.t, act) else s.lanes[s.home[j]], j, step)
  {
    var l := s.lanes[d];
    assert Runner(l, s.t, j);
    if RunsStep(l, j, step) {
      RunningOnlyWrites(s, l, act, j, step);
    }
    if act.SinkWrite? && l.worker.job == j {
      assert s.home[j] == d;
      SinkWriteSteps(s, d, act.fails, now, j, step);
    } else {
      WorkStepRows(s, l, act, now, j);
      assert StepRuns(s.t, j, step);
    }
  }

  /** s' is s with one lane and the tables replaced. */
  ghost predicate OneLane(s: Sys, s': Sys, d: Id, l': Lane, t': Tables) {
    d in s.lanes && s'.t == t' && s'.home == s.home && s'.lanes == s.lanes[d := l']
  }

  lemma WorkKeepsSteps(s: Sys, d: Id, act: WorkerAct, now: string, j: Id, s': Sys)
    requires AtHome(s) && StepsInv(s, j) && RunnersInv(s, j)
    requires Enabled(s, Work(d, act, now)) && Faithful(s, Work(d, act, now), j)
    requires OneLane(s, s', d, WorkLane(s.lanes[d], s.t, act), WorkTables(s, s.lanes[d], act, now))
    ensures StepsInv(s', j)
  {
    forall step: StepId | StepRuns(s'.t, j, step)
      ensures j in s.home && s.home[j] in s'.lanes && RunsStep(s'.lanes[s.home[j]], j, step)
    {
      WorkStepsOf(s, d, act, now, j, step);
    }
  }

  lemma WorkKeepsRunner(s: Sys, l: Lane, act: WorkerAct, now: string, j: Id)
    requires Runner(l, s.t, j) && WorkEnabled(s, l, act)
    ensures Runner(WorkLane(l, s.t, act), WorkTables(s, l, act, now), j)
  {
  }

  /** A worker step writes at most its own job's row. */
  lemma WorkOwnRow(s: Sys, l: Lane, act: WorkerAct, now: string, j: Id)
    requires WorkEnabled(s, l, act) && !(Busy(l.worker) && l.worker.job == j)
    ensures j in WorkTables(s, l, act, now).jobs <==> j in s.t.jobs
    ensures j in s.t.jobs ==> WorkTables(s, l, act, now).jobs[j] == s.t.jobs[j]
  {
  }

  lemma WorkKeepsRunners(s: Sys, d: Id, act: WorkerAct, now: string, j: Id)
    requires AtHome(s) && RunnersInv(s, j) && Enabled(s, Work(d, act, now))
    ensures RunnersInv(Next(s, Work(d, act, now)), j)
  {
    var l, t' := s.lanes[d], WorkTables(s, s.lanes[d], act, now);
    WorkKeepsRunner(s, l, act, now, j);
    forall e | e in s.lanes && e != d
      ensures Runner(s.lanes[e], t', j)
    {
      OtherRunner(s, d, e, act, now, j);
    }
  }

  lemma OtherRunner(s: Sys, d: Id, e: Id, act: WorkerAct, now: string, j: Id)
    requires AtHome(s) && RunnersInv(s, j) && Enabled(s, Work(d, act, now)) && e in s.lanes && e != d
    ensures Runner(s.lanes[e], WorkTables(s, s.lanes[d], act, now), j)
  {
    assert Runner(s.lanes[e], s.t, j);
    if AtHandler(s.lanes[e].worker) && s.lanes[e].worker.job == j {
      assert s.home[j] == e;
      WorkOwnRow(s, s.lanes[d], act, now, j);
    }
  }

  lemma WorkKeepsTidy(s: Sys, d: Id, act: WorkerAct, now: string, j: Id)
    requires AtHome(s) && Tidy(s, j)
    requires Enabled(s, Work(d, act, now)) && Faithful(s, Work(d, act, now), j)
    ensures Tidy(Next(s, Work(d, act, now)), j)
  {
    WorkKeepsSteps(s, d, act, now, j, Next(s, Work(d, act, now)));
    WorkKeepsRunners(s, d, act, now, j);
    WorkJobKeys(s, s.lanes[d], act, now);
  }

  // ---- requests and the rest ----

  /** A write from outside the workers starts no step of the job, keeps its step
      rows with its job row, and leaves it running inside its handler. */
  ghost predicate Outside(s: Sys, t': Tables, j: Id) {
    && (forall step: StepId :: StepRuns(t', j, step) ==> StepRuns(s.t, j, step))
    && (StepRefs(s.t, j) ==> StepRefs(t', j))
    && (InHandler(s, j) && j in t'.jobs ==>
          j in s.t.jobs && (s.t.jobs[j].state.Running? ==> t'.jobs[j].state.Running?))
  }

  /** No worker moves, and new lanes are idle. */
  ghost predicate SameWorkers(s: Sys, s': Sys) {
    && (forall i :: i in s.home ==> i in s'.home && s'.home[i] == s.home[i])
    && (forall d :: d in s.lanes ==> d in s'.lanes && s'.lanes[d].worker == s.lanes[d].worker)
    && (forall d :: d in s'.lanes && d !in s.lanes ==> s'.lanes[d].worker.AtSelect?)
  }

  lemma OutsideKeeps(s: Sys, s': Sys, j: Id)
    requires Tidy(s, j) && SameWorkers(s, s') && Outside(s, s'.t, j)
    ensures Tidy(s', j)
  {
    forall d | d in s'.lanes
      ensures Runner(s'.lanes[d], s'.t, j)
    {
      if d in s.lanes {
        assert Runner(s.lanes[d], s.t, j);
        assert AtHandler(s.lanes[d].worker) && s.lanes[d].worker.job == j ==> InHandler(s, j);
      }
    }
  }

  lemma RequestSameWorkers(s: Sys, c: nat, req: RequestAct)
    requires RequestEnabled(s, c, req)
    ensures SameWorkers(s, RequestNext(s, c, req))
  {
    if Simple(s, req) {
      SimpleIsHarmless(s, c, req);
    } else if req.Send? {
      SendKeepsWorkers(s, c);
    } else if req.Enqueue? {
      EnqueueAddsLane(s, c);
    } else {
      assert RequestNext(s, c, req).lanes == s.lanes;
    }
  }

  lemma CancelIsOutside(s: Sys, job: Id, now: string, j: Id)
    requires job == j ==> !InHandler(s, j)
    ensures Outside(s, OrElse(UpdateJobState(s.t, job, JobState.Cancelled, "", now), s.t), j)
  {
  }

  lemma CreateIsOutside(s: Sys, c: nat, id: Id, skip: set<StepId>, j: Id)
    requires AtHome(s) && RequestEnabled(s, c, Create(id, skip, false))
    ensures Outside(s, RequestNext(s, c, Create(id, skip, false)).t, j)
  {
    var t' := RequestNext(s, c, Create(id, skip, false)).t;
    var rows := StepRows(id, skip, CanonicalSteps());
    assert forall k :: k in rows ==> k.0 == id && !rows[k].state.Running?;
    assert forall k :: k in t'.steps ==> t'.steps[k] == if k in rows then rows[k] else s.t.steps[k];
    assert InHandler(s, j) ==> j in s.home;
  }

  lemma DeleteIsOutside(s: Sys, jobs: set<Id>, discs: set<Id>, j: Id)
    ensures Outside(s, DeleteDiscs(DeleteJobs(s.t, jobs), discs), j)
  {
    var t' := DeleteDiscs(DeleteJobs(s.t, jobs), discs);
    assert forall i :: i in t'.jobs ==> i in s.t.jobs && t'.jobs[i] == s.t.jobs[i];
    assert forall k :: k in t'.steps ==> k in s.t.steps && t'.steps[k] == s.t.steps[k];
    forall step: StepId | StepRefs(s.t, j) && (j, step) in t'.steps
      ensures j in t'.jobs
    {
      assert (j, step).0 == j && j in s.t.jobs;
      assert j !in jobs && j !in JobsOfDiscs(DeleteJobs(s.t, jobs), discs);
    }
  }

  lemma RequestIsOutside(s: Sys, c: nat, req: RequestAct, j: Id)
    requires AtHome(s) && RequestEnabled(s, c, req) && Faithful(s, Request(c, req), j)
    ensures Outside(s, RequestNext(s, c, req).t, j)
  {
    if req.Create? && !req.fails {
      CreateIsOutside(s, c, req.id, req.skip, j);
    } else if req.CancelWrite? {
      CancelIsOutside(s, s.callers[c].job, req.now, j);
    } else {
      assert RequestNext(s, c, req).t == s.t;
    }
  }

  lemma RequestKeepsTidy(s: Sys, c: nat, req: RequestAct, j: Id)
    requires AtHome(s) && Tidy(s, j) && RequestEnabled(s, c, req) && Faithful(s, Request(c, req), j)
    ensures Tidy(RequestNext(s, c, req), j)
  {
    RequestSameWorkers(s, c, req);
    RequestIsOutside(s, c, req, j);
    OutsideKeeps(s, RequestNext(s, c, req), j);
  }

  /** Whoever is not in `cancels` is not inside its handler. */
  lemma NotRegistered(s: Sys, j: Id)
    requires CancelsInv(s) && j !in s.cancels
    ensures !InHandler(s, j)
  {
  }

  lemma TablesStepKeepsTidy(s: Sys, a: Action, j: Id)
    requires CancelsInv(s) && Tidy(s, j) && Enabled(s, a) && (a.CancelAtOnce? || a.Delete? || a.Scan?)
    ensures Tidy(Next(s, a), j)
  {
    if a.Delete? {
      DeleteIsOutside(s, a.jobs, a.discs, j);
      OutsideKeeps(s, Next(s, a), j);
    } else if a.CancelAtOnce? && a.job !in s.cancels {
      NotRegistered(s, a.job);
      CancelIsOutside(s, a.job, a.now, j);
      OutsideKeeps(s, Next(s, a), j);
    } else if a.Scan? {
      OutsideKeeps(s, Next(s, a), j);
    }
  }

  lemma BootTidy(t: Tables, home: map<Id, Id>, now: string, j: Id)
    requires StepRefs(t, j) && NoStepRuns(Recover(t, now), j)
    ensures Tidy(Boot(t, home, now), j)
  {
    RecoverCleans(t, now);
  }

  lemma CrashClears(s: Sys, now: string, j: Id)
    requires Tidy(s, j)
    ensures NoStepRuns(Recover(s.t, now), j)
  {
    forall step: StepId
      ensures !StepRuns(Recover(s.t, now), j, step)
    {
      RecoverStartsNone(s.t, now, j, step);
      if StepRuns(s.t, j, step) {
        TidyMeansRunning(s, j, step);
        RecoverClearsStep(s.t, now, j, step);
      }
    }
  }

  lemma HomeOfInv(s: Sys)
    requires LanesInv(s)
    ensures AtHome(s)
  {
    forall d | d in s.lanes && Busy(s.lanes[d].worker)
      ensures s.lanes[d].worker.job in s.home && s.home[s.lanes[d].worker.job] == d
    {
      assert LaneInv(s.lanes[d], d, s.home);
    }
  }

  /** Every step that is faithful to a job keeps it tidy. */
  lemma StepKeepsTidy(s: Sys, a: Action, j: Id)
    requires LanesInv(s) && CancelsInv(s) && Tidy(s, j) && Enabled(s, a) && Faithful(s, a, j)
    ensures Tidy(Next(s, a), j)
  {
    HomeOfInv(s);
    match a
    case Request(c, req) => RequestKeepsTidy(s, c, req, j);
    case Work(d, act, now) => WorkKeepsTidy(s, d, act, now, j);
    case CancelAtOnce(_, _) => TablesStepKeepsTidy(s, a, j);
    case Delete(_, _) => TablesStepKeepsTidy(s, a, j);
    case Scan(_) => TablesStepKeepsTidy(s, a, j);
    case Crash(now) =>
      CrashClears(s, now, j);
      BootTidy(s.t, s.home, now, j);
    case _ => assert Next(s, a).t == s.t && Next(s, a).lanes == s.lanes;
  }

  // ---- what it says about runs ----

  ghost predicate StartedTidy(s: Sys, j: Id) {
    exists t: Tables, home: map<Id, Id>, now: string ::
      RowsInv(t, home) && StepRefs(t, j) && NoStepRuns(Recover(t, now), j) && s == Boot(t, home, now)
  }

  lemma {:induction false} RunKeepsTidy(states: seq<Sys>, actions: seq<Action>, j: Id, i: nat)
    requires FaithfulRun(states, actions, j) && i < |states| && StartedTidy(states[0], j)
    ensures Inv(states[i]) && Tidy(states[i], j)
  {
    if i == 0 {
      var t, home, now :|
        RowsInv(t, home) && StepRefs(t, j) && NoStepRuns(Recover(t, now), j) && states[0] == Boot(t, home, now);
      BootInv(t, home, now);
      BootTidy(t, home, now, j);
    } else {
      RunKeepsTidy(states, actions, j, i - 1);
      StepKeepsInv(states[i - 1], actions[i - 1]);
      StepKeepsTidy(states[i - 1], actions[i - 1], j);
    }
  }

  /** In every run that is faithful to a job, earlier crashes included, a running
      step of it means that it runs, and it has at most one. */
  lemma RunningStepsInRuns(states: seq<Sys>, actions: seq<Action>, j: Id, i: nat, a: StepId)
    requires FaithfulRun(states, actions, j) && i < |states| && StartedTidy(states[0], j)
    requires StepRuns(states[i].t, j, a)
    ensures j in states[i].t.jobs && states[i].t.jobs[j].state.Running?
    ensures forall b: StepId :: StepRuns(states[i].t, j, b) ==> b == a
  {
    RunKeepsTidy(states, actions, j, i);
    TidyMeansRunning(states[i], j, a);
  }

  /** A crash at any point of such a run, followed by start-up: the job neither
      waits nor runs, none of its steps runs, and if it had finished, its row
      and its steps are as they were. */
  lemma CrashAnywhere(states: seq<Sys>, actions: seq<Action>, j: Id, i: nat, now: string)
    requires FaithfulRun(states, actions, j) && i < |states| && StartedTidy(states[0], j)
    ensures var t, r := states[i].t, Next(states[i], Crash(now)).t;
            && NoStepRuns(r, j)
            && (j in r.jobs ==> !Orphaned(r.jobs[j].state))
            && (j in t.jobs && Terminal(t.jobs[j].state) ==> j in r.jobs && r.jobs[j] == t.jobs[j])
            && (forall a: StepId :: j in t.jobs && Terminal(t.jobs[j].state) && (j, a) in t.steps ==>
                  (j, a) in r.steps && r.steps[(j, a)] == t.steps[(j, a)])
  {
    RunKeepsTidy(states, actions, j, i);
    CrashClears(states[i], now, j);
    RecoverCleans(states[i].t, now);
    forall a: StepId | j in states[i].t.jobs && Terminal(states[i].t.jobs[j].state) && (j, a) in states[i].t.steps
      ensures !states[i].t.steps[(j, a)].state.Running?
    {
      if StepRuns(states[i].t, j, a) {
        TidyMeansRunning(states[i], j, a);
      }
    }
  }

  // ---- both conditions are needed ----

  /** The job has finished or been cancelled, and its step runs on after the
      restart: no later restart will end it. */
  ghost predicate Stranded(t: Tables, j: Id, step: StepId) {
    StepRuns(t, j, step) && j in t.jobs && Terminal(t.jobs[j].state) && !t.jobs[j].state.Interrupted?
  }

  lemma StrandedForGood(t: Tables, j: Id, step: StepId, now: string)
    requires Stranded(t, j, step)
    ensures Stranded(Recover(t, now), j, step)
  {
    RecoverCleans(t, now);
    RecoverClearsStep(t, now, j, step);
  }

  lemma CrashStrands(o: Sys, s: Sys, j: Id, step: StepId, now: string)
    requires Leads(o, s) && Stranded(s.t, j, step)
    ensures Leads(o, Next(s, Crash(now))) && Stranded(Next(s, Crash(now)).t, j, step)
  {
    LeadsOn(o, s, Crash(now));
    StrandedForGood(s.t, j, step, now);
  }

  /** A cancel that lands on a job inside Run, with a crash after it, strands the
      job's running step. */
  lemma LateCancelStrandsStep(o: Sys, s: Sys, d: Id, c: nat, now: string) returns (e: Sys)
    requires Leads(o, s) && d in s.lanes && s.lanes[d].worker.InRun? && s.lanes[d].worker.cur.Some?
    requires c in s.callers && s.callers[c] == Cancelling(s.lanes[d].worker.job) && s.lanes[d].worker.job in s.t.jobs
    requires StepRuns(s.t, s.lanes[d].worker.job, s.lanes[d].worker.cur.value)
    ensures Leads(o, e) && Stranded(e.t, s.lanes[d].worker.job, s.lanes[d].worker.cur.value)
  {
    var late := Next(s, Request(c, CancelWrite(now)));
    LeadsOn(o, s, Request(c, CancelWrite(now)));
    CrashStrands(o, late, s.lanes[d].worker.job, s.lanes[d].worker.cur.value, now);
    e := Next(late, Crash(now));
  }

  /** Where a run stands whose handler has still to write `todo`, while a step
      that it will not touch again is running in the store. */
  ghost predicate Forgets(s: Sys, d: Id, step: StepId) {
    && d in s.lanes && s.lanes[d].worker.InRun? && s.lanes[d].worker.job in s.t.jobs
    && StepRuns(s.t, s.lanes[d].worker.job, step)
    && forall i :: 0 <= i < |s.lanes[d].worker.todo| ==> s.lanes[d].worker.todo[i].step != step
  }

  /** The handler writes the rest of its events, all of them successfully. */
  lemma {:induction false} RestIsWritten(o: Sys, s: Sys, d: Id, step: StepId, now: string) returns (e: Sys)
    requires Leads(o, s) && Forgets(s, d, step)
    ensures Leads(o, e) && Forgets(e, d, step)
    ensures e.lanes[d].worker.todo == [] && e.lanes[d].worker.job == s.lanes[d].worker.job
    decreases |s.lanes[d].worker.todo|
  {
    if s.lanes[d].worker.todo == [] {
      e := s;
    } else {
      WriteForgets(s, d, step, now);
      LeadsOn(o, s, Work(d, SinkWrite(false), now));
      e := RestIsWritten(o, Next(s, Work(d, SinkWrite(false), now)), d, step, now);
    }
  }

  lemma WriteForgets(s: Sys, d: Id, step: StepId, now: string)
    requires Forgets(s, d, step) && s.lanes[d].worker.todo != []
    ensures Enabled(s, Work(d, SinkWrite(false), now))
    ensures var s', w := Next(s, Work(d, SinkWrite(false), now)), s.lanes[d].worker;
            Forgets(s', d, step) && s'.lanes[d].worker.job == w.job && s'.lanes[d].worker.todo == w.todo[1..]
  {
  }

  lemma EndStrands(o: Sys, s: Sys, d: Id, step: StepId, now: string) returns (e: Sys)
    requires Leads(o, s) && Forgets(s, d, step) && s.lanes[d].worker.todo == []
    ensures Leads(o, e) && Stranded(e.t, s.lanes[d].worker.job, step)
  {
    var s1 := Next(s, Work(d, Return, now));
    LeadsOn(o, s, Work(d, Return, now));
    e := JobEnds(o, s1, d, s.lanes[d].worker.job, step, now);
  }

  lemma JobEnds(o: Sys, s: Sys, d: Id, j: Id, step: StepId, now: string) returns (e: Sys)
    requires Leads(o, s) && d in s.lanes && s.lanes[d].worker.Returned? && s.lanes[d].worker.job == j
    requires j in s.t.jobs && StepRuns(s.t, j, step)
    ensures Leads(o, e) && Stranded(e.t, j, step)
  {
    var s' := Next(s, Work(d, MarkFinal(false), now));
    LeadsOn(o, s, Work(d, MarkFinal(false), now));
    CrashStrands(o, s', j, step, now);
    e := Next(s', Crash(now));
  }

  /** Losing any write that ends a running step strands it, unless a later event
      of the handler is about the same step again: the handler goes on, the job
      ends, and a crash changes nothing. */
  lemma LostWriteStrandsStep(o: Sys, s: Sys, d: Id, now: string) returns (e: Sys)
    requires Leads(o, s) && d in s.lanes && s.lanes[d].worker.InRun? && s.lanes[d].worker.job in s.t.jobs
    requires var w := s.lanes[d].worker;
             && w.todo != [] && !w.todo[0].Start? && StepRuns(s.t, w.job, w.todo[0].step)
             && forall i :: 0 < i < |w.todo| ==> w.todo[i].step != w.todo[0].step
    ensures Leads(o, e) && Stranded(e.t, s.lanes[d].worker.job, s.lanes[d].worker.todo[0].step)
  {
    var step := s.lanes[d].worker.todo[0].step;
    var s1 := Next(s, Work(d, SinkWrite(true), now));
    LeadsOn(o, s, Work(d, SinkWrite(true), now));
    LossForgets(s, d, now);
    var s2 := RestIsWritten(o, s1, d, step, now);
    e := EndStrands(o, s2, d, step, now);
  }

  lemma LossForgets(s: Sys, d: Id, now: string)
    requires d in s.lanes && s.lanes[d].worker.InRun? && s.lanes[d].worker.job in s.t.jobs
    requires var w := s.lanes[d].worker;
             && w.todo != [] && StepRuns(s.t, w.job, w.todo[0].step)
             && forall i :: 0 < i < |w.todo| ==> w.todo[i].step != w.todo[0].step
    ensures var s' := Next(s, Work(d, SinkWrite(true), now));
            Forgets(s', d, s.lanes[d].worker.todo[0].step) && s'.lanes[d].worker.job == s.lanes[d].worker.job
  {
  }

  // ---- and both failures are reached from a clean boot ----

  /** Job "a" is inside a handler with this trace, which has written its first n
      events, and a Cancel has missed it. */
  ghost predicate Inside(s: Sys, d: Id, trace: seq<SinkEvent>, n: nat) {
    && n <= |trace| && d in s.lanes
    && s.lanes[d].worker == InRun("a", d, trace[n..], CurAfter(trace, n), NoError)
    && 1 in s.callers && s.callers[1] == Cancelling("a") && "a" in s.t.jobs
    && (forall step: StepId :: ("a", step) in s.t.steps)
    && (n > 0 ==> s.t.steps[("a", trace[n - 1].step)].state == Written(trace[n - 1]))
  }

  function CurAfter(trace: seq<SinkEvent>, n: nat): Option<StepId>
    requires n <= |trace|
  {
    if n > 0 && trace[n - 1].Start? then Some(trace[n - 1].step) else None
  }

  lemma ReachInside(t: Tables, disc: Id, skip: set<StepId>, trace: seq<SinkEvent>, now: string) returns (e: Sys)
    requires t.jobs == map[] && disc in t.discs && t.discs[disc].driveId != "" && Disciplined(None, trace)
    ensures Leads(Boot(t, map[], now), e) && Inside(e, t.discs[disc].driveId, trace, 0)
  {
    var d, s := t.discs[disc].driveId, FirstJobLoaded(t, disc, skip, now);
    ReachLoaded(t, disc, skip, now);
    FirstJobRow(t, disc, skip, now);
    LeadsOn(Boot(t, map[], now), s, Work(d, MarkRunning(false), now));
    var s1 := Next(s, Work(d, MarkRunning(false), now));
    assert s1.lanes[d].worker == Starting("a", d) && s1.t.steps == s.t.steps;
    e := HandlerStarts(Boot(t, map[], now), s1, d, trace, now);
  }

  lemma HandlerStarts(o: Sys, s: Sys, d: Id, trace: seq<SinkEvent>, now: string) returns (e: Sys)
    requires Leads(o, s) && d in s.lanes && s.lanes[d].worker == Starting("a", d) && s.lanes[d].popped > 0
    requires Disciplined(None, trace) && 1 in s.callers && s.callers[1] == Cancelling("a") && "a" in s.t.jobs
    requires forall step: StepId :: ("a", step) in s.t.steps
    ensures Leads(o, e) && Inside(e, d, trace, 0)
  {
    var enter := Work(d, EnterRun(trace, NoError, true), now);
    LeadsOn(o, s, enter);
    e := Next(s, enter);
    assert trace[0..] == trace;
  }

  lemma WritesOneMore(s: Sys, d: Id, trace: seq<SinkEvent>, n: nat, now: string)
    requires Inside(s, d, trace, n) && n < |trace|
    ensures Enabled(s, Work(d, SinkWrite(false), now))
    ensures Inside(Next(s, Work(d, SinkWrite(false), now)), d, trace, n + 1)
  {
    assert trace[n..][1..] == trace[n + 1..] && trace[n..][0] == trace[n];
  }

  lemma {:induction false} HandlerGetsTo(o: Sys, s: Sys, d: Id, trace: seq<SinkEvent>, n: nat, now: string)
    returns (e: Sys)
    requires Leads(o, s) && Inside(s, d, trace, 0) && n <= |trace|
    ensures Leads(o, e) && Inside(e, d, trace, n)
  {
    e := s;
    if n > 0 {
      e := HandlerGetsTo(o, s, d, trace, n - 1, now);
      WritesOneMore(e, d, trace, n - 1, now);
      LeadsOn(o, e, Work(d, SinkWrite(false), now));
      e := Next(e, Work(d, SinkWrite(false), now));
    }
  }

  lemma {:induction false} PassedAt(order: seq<StepId>, k: nat, i: nat)
    requires i < k <= |order|
    ensures |Passed(order, k)| == 2 * k
    ensures Passed(order, k)[2 * i] == Start(order[i]) && Passed(order, k)[2 * i + 1] == Finish(order[i])
  {
    if k > 1 {
      PassedAt(order, k - 1, if i < k - 1 then i else 0);
    }
  }

  /** The full trace of a plan without a failure starts and finishes each kept
      step in turn, and comes back to none. */
  lemma StepInTrace(skip: set<StepId>, step: StepId) returns (n: nat)
    requires step !in skip
    ensures Order(skip) != []
    ensures var trace := FullTrace(Order(skip), false);
            && n + 1 < |trace| && trace[n] == Start(step) && trace[n + 1] == Finish(step)
            && forall i :: n + 1 < i < |trace| ==> trace[i].step != step
  {
    var order := Order(skip);
    OrderIsCanonical(skip);
    assert step in order;
    var k :| 0 <= k < |order| && order[k] == step;
    n := 2 * k;
    PassedAt(order, |order|, k);
    assert FullTrace(order, false) == Passed(order, |order|);
    forall i | n + 1 < i < |Passed(order, |order|)|
      ensures Passed(order, |order|)[i].step != step
    {
      PassedAt(order, |order|, i / 2);
      assert i == 2 * (i / 2) || i == 2 * (i / 2) + 1;
      assert k < i / 2;
    }
  }

  /** From a clean boot, for any plan and any step it keeps: a handler that meets
      no error is in that step, and a Cancel has missed the job. */
  lemma ReachStep(t: Tables, disc: Id, skip: set<StepId>, step: StepId, now: string)
    returns (e: Sys, n: nat)
    requires t.jobs == map[] && disc in t.discs && t.discs[disc].driveId != "" && step !in skip
    ensures Order(skip) != []
    ensures var trace := FullTrace(Order(skip), false);
            && n + 1 < |trace| && trace[n] == Start(step) && trace[n + 1] == Finish(step)
            && (forall i :: n + 1 < i < |trace| ==> trace[i].step != step)
            && Inside(e, t.discs[disc].driveId, trace, n + 1)
    ensures Leads(Boot(t, map[], now), e)
  {
    n := StepInTrace(skip, step);
    var trace := FullTrace(Order(skip), false);
    TracesAreDisciplined(Order(skip), 0, false);
    e := ReachInside(t, disc, skip, trace, now);
    e := HandlerGetsTo(Boot(t, map[], now), e, t.discs[disc].driveId, trace, n + 1, now);
  }

  /** From a clean boot, a split Cancel and a crash strand whichever step of
      whichever plan is running. */
  lemma LateCancelRun(t: Tables, disc: Id, skip: set<StepId>, step: StepId, now: string) returns (e: Sys)
    requires t.jobs == map[] && disc in t.discs && t.discs[disc].driveId != "" && step !in skip
    ensures Leads(Boot(t, map[], now), e) && Stranded(e.t, "a", step)
  {
    var s, n := ReachStep(t, disc, skip, step, now);
    e := LateCancelStrandsStep(Boot(t, map[], now), s, t.discs[disc].driveId, 1, now);
  }

  /** From a clean boot, the loss of the one write that ends the step, and a
      crash, strand it too. */
  lemma LostWriteRun(t: Tables, disc: Id, skip: set<StepId>, step: StepId, now: string) returns (e: Sys)
    requires t.jobs == map[] && disc in t.discs && t.discs[disc].driveId != "" && step !in skip
    ensures Leads(Boot(t, map[], now), e) && Stranded(e.t, "a", step)
  {
    var s, n := ReachStep(t, disc, skip, step, now);
    e := LostWriteStrandsStep(Boot(t, map[], now), s, t.discs[disc].driveId, now);
  }
}
