/** How a job ends: the state of its row and of its drive, from the result of
    its handler to any later moment of any run (daemon/jobs/orchestrator.go,
    runJob). */
module JobEnds {
  import opened Wrappers
  import opened Schema
  import opened SinkTrace
  import opened StepTrace
  import opened Protocol
  import opened ProtocolSafety
  import opened JobRows
  import Recovery
  import Handlers

  // ---- a worker comes to a job once ----

  /** The worker has the job from the time it takes it off the channel. */
  predicate HasJob(w: Worker, j: Id) {
    Busy(w) && w.job == j
  }

  /** A job that no longer waits is not taken up again. */
  lemma NotTakenUp(s: Sys, d: Id, act: WorkerAct, j: Id)
    requires LanesInv(s) && d in s.lanes && WorkEnabled(s, s.lanes[d], act) && !Awaits(s, j)
    ensures HasJob(WorkLane(s.lanes[d], s.t, act).worker, j) ==> HasJob(s.lanes[d].worker, j)
  {
    var l := s.lanes[d];
    assert LaneInv(l, d, s.home);
    if act.Pop? {
      assert l.chan[0] == l.sent[l.popped];
      assert l.chan[0] == j ==> QueuedAt(s, d, l.popped, j);
    }
  }

  /** Nor is it on its way to the handler. */
  lemma NotBeforeRun(s: Sys, d: Id, j: Id)
    requires LanesInv(s) && d in s.lanes && !Awaits(s, j)
    ensures HasJob(s.lanes[d].worker, j) ==> !BeforeRun(s.lanes[d].worker)
  {
    var l := s.lanes[d];
    assert LaneInv(l, d, s.home);
    if HasJob(l.worker, j) && BeforeRun(l.worker) {
      assert QueuedAt(s, d, l.popped - 1, j);
    }
  }

  /** A worker with the job is on the job's own drive. */
  lemma OnItsDrive(s: Sys, e: Id, j: Id)
    requires LanesInv(s) && e in s.lanes && HasJob(s.lanes[e].worker, j)
    ensures j in s.home && s.home[j] == e
  {
    assert LaneInv(s.lanes[e], e, s.home);
  }

  // ---- from the handler to the final write ----

  /** The job has entered Run, for good, and its worker carries what Run returns. */
  ghost predicate Carrying(s: Sys, d: Id, j: Id, err: RunError) {
    && j in s.home && s.home[j] == d && !Awaits(s, j)
    && (d in s.lanes && HasJob(s.lanes[d].worker, j) && (s.lanes[d].worker.InRun? || s.lanes[d].worker.Returned?) ==>
          s.lanes[d].worker.err == err)
  }

  lemma EnterCarries(s: Sys, a: Action, s': Sys, d: Id, j: Id, trace: seq<SinkEvent>)
    requires Inv(s) && Enabled(s, a) && s' == Next(s, a) && Enters(s, a, d, j, trace)
    ensures Carrying(s', d, j, a.act.err)
  {
    StartingAwaits(s, d);
    EnteredWaitsNoMore(s, a);
  }

  lemma StepKeepsCarrying(s: Sys, a: Action, s': Sys, d: Id, j: Id, err: RunError)
    requires Inv(s) && Enabled(s, a) && s' == Next(s, a) && Carrying(s, d, j, err)
    ensures Carrying(s', d, j, err)
  {
    JobStaysGone(s, a, j);
    if a.Work? {
      if a.d == d {
        WorkKeepsResult(s, d, a.act, j, err);
      }
    } else if a.Request? {
      Recovery.RequestSameWorkers(s, a.c, a.req);
    }
  }

  lemma JobStaysGone(s: Sys, a: Action, j: Id)
    requires Enabled(s, a) && j in s.home && !Awaits(s, j)
    ensures !Awaits(Next(s, a), j) && j in Next(s, a).home && Next(s, a).home[j] == s.home[j]
  {
    if Awaits(Next(s, a), j) {
      AwaitsBefore(s, a, j);
    }
    if a.Request? {
      Recovery.RequestSameWorkers(s, a.c, a.req);
    }
  }

  lemma WorkKeepsResult(s: Sys, d: Id, act: WorkerAct, j: Id, err: RunError)
    requires LanesInv(s) && d in s.lanes && WorkEnabled(s, s.lanes[d], act) && Carrying(s, d, j, err)
    ensures var w := WorkLane(s.lanes[d], s.t, act).worker;
            HasJob(w, j) && (w.InRun? || w.Returned?) ==> w.err == err
  {
    NotTakenUp(s, d, act, j);
    NotBeforeRun(s, d, j);
  }

  // ---- from the final write on ----

  /** The job's worker, if it still has it, is past the final write. */
  ghost predicate Past(s: Sys, d: Id, j: Id) {
    && j in s.home && s.home[j] == d && !Awaits(s, j)
    && (d in s.lanes && HasJob(s.lanes[d].worker, j) ==> s.lanes[d].worker.Finalized? || s.lanes[d].worker.Leaving?)
  }

  /** And its row, if it is still there, has this state and message. */
  ghost predicate Ended(s: Sys, d: Id, j: Id, st: JobState, msg: string) {
    && Past(s, d, j)
    && (j in s.t.jobs ==> s.t.jobs[j].state == st && (st.Failed? ==> s.t.jobs[j].errorMessage == msg))
  }

  /** A cancel that writes the row of the job. */
  predicate CancelLands(s: Sys, a: Action, j: Id) {
    || (a.Request? && a.req.CancelWrite? && a.c in s.callers && s.callers[a.c] == Cancelling(j))
    || (a.CancelAtOnce? && a.job == j && j !in s.cancels)
  }

  /** The state that an error calls for. */
  function StateFor(err: RunError): JobState {
    if err.NoError? then JobState.Done else if err.ContextEnded? then JobState.Cancelled else JobState.Failed
  }

  lemma UnhandledEnds(s: Sys, a: Action, s': Sys, d: Id, j: Id)
    requires Inv(s) && Enabled(s, a) && s' == Next(s, a) && a.Work? && a.d == d && a.act == NoHandler(false)
    requires HasJob(s.lanes[d].worker, j)
    ensures Ended(s', d, j, JobState.Failed, "no handler")
  {
    OnItsDrive(s, d, j);
    LetGoWaitsNoMore(s, a, j);
  }

  lemma LetGoWaitsNoMore(s: Sys, a: Action, j: Id)
    requires Inv(s) && Enabled(s, a) && a.Work? && a.act.NoHandler? && HasJob(s.lanes[a.d].worker, j)
    ensures !Awaits(Next(s, a), j)
  {
    var l := s.lanes[a.d];
    assert LaneInv(l, a.d, s.home);
    StepKeepsInv(s, a);
    PositionOf(Next(s, a), a.d, j, l.popped - 1);
  }

  lemma FinalWriteEnds(s: Sys, a: Action, s': Sys, d: Id, j: Id, err: RunError)
    requires Inv(s) && Enabled(s, a) && s' == Next(s, a) && Carrying(s, d, j, err)
    requires a.Work? && a.d == d && a.act == MarkFinal(false) && s.lanes[d].worker.job == j
    ensures Ended(s', d, j, StateFor(err), FinalMessage(err))
  {
    JobStaysGone(s, a, j);
  }

  /** Deleted or kept, the row does not change. */
  ghost predicate SameRow(t: Tables, t': Tables, j: Id) {
    j in t'.jobs ==> j in t.jobs && t'.jobs[j].state == t.jobs[j].state
                     && t'.jobs[j].errorMessage == t.jobs[j].errorMessage
  }

  /** Once past its final write, a worker does not write the job's row again,
      and no other worker ever does. */
  lemma WorkKeepsRow(s: Sys, e: Id, act: WorkerAct, now: string, d: Id, j: Id)
    requires Inv(s) && e in s.lanes && WorkEnabled(s, s.lanes[e], act) && Past(s, d, j)
    ensures SameRow(s.t, WorkTables(s, s.lanes[e], act, now), j)
  {
    if HasJob(s.lanes[e].worker, j) {
      OnItsDrive(s, e, j);
    } else {
      Recovery.WorkOwnRow(s, s.lanes[e], act, now, j);
    }
  }

  lemma WorkKeepsPast(s: Sys, e: Id, act: WorkerAct, now: string, d: Id, j: Id)
    requires Inv(s) && Enabled(s, Work(e, act, now)) && Past(s, d, j)
    ensures Past(Next(s, Work(e, act, now)), d, j)
  {
    JobStaysGone(s, Work(e, act, now), j);
    if e == d {
      WorkPast(s, d, act, j);
    } else {
      OtherLaneStays(s, e, act, now, d);
    }
  }

  lemma WorkPast(s: Sys, d: Id, act: WorkerAct, j: Id)
    requires LanesInv(s) && d in s.lanes && WorkEnabled(s, s.lanes[d], act) && Past(s, d, j)
    ensures var w := WorkLane(s.lanes[d], s.t, act).worker; HasJob(w, j) ==> w.Finalized? || w.Leaving?
  {
    NotTakenUp(s, d, act, j);
  }

  lemma OtherKeepsPast(s: Sys, a: Action, d: Id, j: Id)
    requires Inv(s) && Enabled(s, a) && !a.Work? && Past(s, d, j)
    ensures Past(Next(s, a), d, j)
  {
    JobStaysGone(s, a, j);
    LanesKeepWorkers(s, a);
  }

  /** Other steps move no worker; a crash takes all of them away. */
  lemma LanesKeepWorkers(s: Sys, a: Action)
    requires Enabled(s, a) && !a.Work?
    ensures forall d :: d in Next(s, a).lanes ==>
              if d in s.lanes then Next(s, a).lanes[d].worker == s.lanes[d].worker
              else Next(s, a).lanes[d].worker.AtSelect?
  {
    if a.Request? {
      Recovery.RequestSameWorkers(s, a.c, a.req);
    }
  }

  lemma RequestKeepsRow(s: Sys, c: nat, req: RequestAct, j: Id)
    requires RequestEnabled(s, c, req) && j in s.home && !CancelLands(s, Request(c, req), j)
    ensures SameRow(s.t, RequestNext(s, c, req).t, j)
  {
    if !(req.Create? && !req.fails) && !req.CancelWrite? {
      SameTables(s, c, req);
    }
  }

  lemma RestKeepsRow(s: Sys, a: Action, j: Id)
    requires Enabled(s, a) && !a.Work? && !a.Request? && !CancelLands(s, a, j)
    requires j in s.t.jobs ==> !Orphaned(s.t.jobs[j].state)
    ensures SameRow(s.t, Next(s, a).t, j)
  {
  }

  lemma StepKeepsEnded(s: Sys, a: Action, s': Sys, d: Id, j: Id, st: JobState, msg: string)
    requires Inv(s) && Enabled(s, a) && s' == Next(s, a) && Ended(s, d, j, st, msg)
    requires st.Done? || st.Failed? || st.Cancelled?
    requires !CancelLands(s, a, j)
    ensures Ended(s', d, j, st, msg)
  {
    if a.Work? {
      WorkKeepsPast(s, a.d, a.act, a.now, d, j);
      WorkKeepsRow(s, a.d, a.act, a.now, d, j);
    } else {
      OtherKeepsPast(s, a, d, j);
      if a.Request? {
        RequestKeepsRow(s, a.c, a.req, j);
      } else {
        RestKeepsRow(s, a, j);
      }
    }
  }

  // ---- whole runs ----

  /** Each state follows from a state that has the invariant. */
  lemma StepAt(states: seq<Sys>, actions: seq<Action>, k: nat) returns (s: Sys, a: Action, s': Sys)
    requires Run(states, actions) && Started(states[0]) && 0 < k < |states|
    ensures s == states[k - 1] && a == actions[k - 1] && s' == states[k]
    ensures Inv(s) && Enabled(s, a) && s' == Next(s, a)
  {
    RunKeepsInv(states, actions, k - 1);
    s, a, s' := states[k - 1], actions[k - 1], states[k];
  }

  lemma CarriesFrom(states: seq<Sys>, actions: seq<Action>, e: nat, i: nat, d: Id, j: Id, trace: seq<SinkEvent>)
    requires Run(states, actions) && Started(states[0]) && e < i < |states|
    requires Enters(states[e], actions[e], d, j, trace)
    ensures Carrying(states[i], d, j, actions[e].act.err)
  {
    CarriesFirst(states, actions, e, d, j, trace);
    ghost var holds := (k: nat) => k < |states| && Carrying(states[k], d, j, actions[e].act.err);
    forall k: nat | e + 1 < k <= i && holds(k - 1)
      ensures holds(k)
    {
      CarriesOn(states, actions, k, d, j, actions[e].act.err);
    }
    Along(holds, e + 1, i);
  }

  lemma CarriesFirst(states: seq<Sys>, actions: seq<Action>, e: nat, d: Id, j: Id, trace: seq<SinkEvent>)
    requires Run(states, actions) && Started(states[0]) && e < |actions|
    requires Enters(states[e], actions[e], d, j, trace)
    ensures Carrying(states[e + 1], d, j, actions[e].act.err)
  {
    RunKeepsInv(states, actions, e);
    EnterCarries(states[e], actions[e], states[e + 1], d, j, trace);
  }

  lemma CarriesOn(states: seq<Sys>, actions: seq<Action>, k: nat, d: Id, j: Id, err: RunError)
    requires Run(states, actions) && Started(states[0]) && 0 < k < |states| && Carrying(states[k - 1], d, j, err)
    ensures Carrying(states[k], d, j, err)
  {
    var s, a, s' := StepAt(states, actions, k);
    StepKeepsCarrying(s, a, s', d, j, err);
  }

  /** Between f and i no cancel writes the job's row. */
  ghost predicate NoCancelBetween(states: seq<Sys>, actions: seq<Action>, f: nat, i: nat, j: Id)
    requires i < |states| && |states| == |actions| + 1
  {
    forall k :: f <= k < i ==> !CancelLands(states[k], actions[k], j)
  }

  lemma EndedFrom(states: seq<Sys>, actions: seq<Action>, f: nat, i: nat, d: Id, j: Id, st: JobState, msg: string)
    requires Run(states, actions) && Started(states[0]) && f <= i < |states|
    requires Ended(states[f], d, j, st, msg) && (st.Done? || st.Failed? || st.Cancelled?)
    requires NoCancelBetween(states, actions, f, i, j)
    ensures Ended(states[i], d, j, st, msg)
  {
    ghost var holds := (k: nat) => k < |states| && Ended(states[k], d, j, st, msg);
    forall k: nat | f < k <= i && holds(k - 1)
      ensures holds(k)
    {
      EndedOn(states, actions, k, d, j, st, msg);
    }
    Along(holds, f, i);
  }

  lemma EndedOn(states: seq<Sys>, actions: seq<Action>, k: nat, d: Id, j: Id, st: JobState, msg: string)
    requires Run(states, actions) && Started(states[0]) && 0 < k < |states|
    requires Ended(states[k - 1], d, j, st, msg) && (st.Done? || st.Failed? || st.Cancelled?)
    requires !CancelLands(states[k - 1], actions[k - 1], j)
    ensures Ended(states[k], d, j, st, msg)
  {
    var s, a, s' := StepAt(states, actions, k);
    StepKeepsEnded(s, a, s', d, j, st, msg);
  }

  /** The worker of drive d writes the job's final state, and the write works. */
  predicate MarksFinal(s: Sys, a: Action, d: Id, j: Id) {
    a.Work? && a.d == d && a.act == MarkFinal(false) && d in s.lanes && HasJob(s.lanes[d].worker, j)
  }

  lemma EndsFirst(states: seq<Sys>, actions: seq<Action>, e: nat, m: nat, d: Id, j: Id, trace: seq<SinkEvent>)
    requires Run(states, actions) && Started(states[0]) && e < m < |actions|
    requires Enters(states[e], actions[e], d, j, trace) && MarksFinal(states[m], actions[m], d, j)
    ensures var err := actions[e].act.err; Ended(states[m + 1], d, j, StateFor(err), FinalMessage(err))
  {
    CarriesFrom(states, actions, e, m, d, j, trace);
    RunKeepsInv(states, actions, m);
    FinalWriteEnds(states[m], actions[m], states[m + 1], d, j, actions[e].act.err);
  }

  /** For every run: from its final write on, through later restarts, and as long
      as no cancel is written over it, a job that is still there has the state
      that what its handler returned calls for. */
  lemma JobEndsInItsState(states: seq<Sys>, actions: seq<Action>, e: nat, m: nat, i: nat,
                          d: Id, j: Id, trace: seq<SinkEvent>)
    requires Run(states, actions) && Started(states[0]) && e < m < i < |states|
    requires Enters(states[e], actions[e], d, j, trace) && MarksFinal(states[m], actions[m], d, j)
    requires NoCancelBetween(states, actions, m + 1, i, j)
    ensures j in states[i].t.jobs ==>
              match actions[e].act.err
              case NoError => states[i].t.jobs[j].state.Done?
              case ContextEnded => states[i].t.jobs[j].state.Cancelled?
              case Failure(msg) => states[i].t.jobs[j].state.Failed? && states[i].t.jobs[j].errorMessage == msg
  {
    var err := actions[e].act.err;
    EndsFirst(states, actions, e, m, d, j, trace);
    EndedFrom(states, actions, m + 1, i, d, j, StateFor(err), FinalMessage(err));
  }

  /** A job whose disc no handler takes ends failed in the same way. */
  lemma UnhandledJobFails(states: seq<Sys>, actions: seq<Action>, m: nat, i: nat, d: Id, j: Id)
    requires Run(states, actions) && Started(states[0]) && m < i < |states|
    requires actions[m].Work? && actions[m].d == d && actions[m].act == NoHandler(false)
    requires d in states[m].lanes && HasJob(states[m].lanes[d].worker, j)
    requires NoCancelBetween(states, actions, m + 1, i, j)
    ensures j in states[i].t.jobs ==> states[i].t.jobs[j].state.Failed?
  {
    RunKeepsInv(states, actions, m);
    UnhandledEnds(states[m], actions[m], states[m + 1], d, j);
    EndedFrom(states, actions, m + 1, i, d, j, JobState.Failed, "no handler");
  }

  /** The handler of the job is not entered again. */
  lemma PastTheHandler(states: seq<Sys>, actions: seq<Action>, e: nat, m: nat, i: nat,
                       d: Id, j: Id, trace: seq<SinkEvent>)
    requires Run(states, actions) && Started(states[0]) && e < m < i < |states|
    requires Enters(states[e], actions[e], d, j, trace) && MarksFinal(states[m], actions[m], d, j)
    ensures !InRunOf(states[i], d, j)
  {
    EndsFirst(states, actions, e, m, d, j, trace);
    var past := (k: nat) => k < |states| && Past(states[k], d, j);
    forall k: nat | m + 1 < k <= i && past(k - 1)
      ensures past(k)
    {
      PastOn(states, actions, k, d, j);
    }
    Along(past, m + 1, i);
  }

  lemma PastOn(states: seq<Sys>, actions: seq<Action>, k: nat, d: Id, j: Id)
    requires Run(states, actions) && Started(states[0]) && 0 < k < |states| && Past(states[k - 1], d, j)
    ensures Past(states[k], d, j)
  {
    var s, a := states[k - 1], actions[k - 1];
    RunKeepsInv(states, actions, k - 1);
    if a.Work? {
      WorkKeepsPast(s, a.d, a.act, a.now, d, j);
    } else {
      OtherKeepsPast(s, a, d, j);
    }
  }

  /** The handler's half of the link: it returns no error exactly if no step of
      its failed, as the handlers' Run contracts say. */
  ghost predicate ReturnsAsItRan(trace: seq<SinkEvent>, err: RunError,
                                 skip: set<StepId>, failed: Option<StepId>, ejectFailed: bool)
  {
    trace == Handlers.HandlerTrace(skip, failed, ejectFailed) && (err.NoError? <==> failed.None?)
  }

  ghost predicate DoneOrSkipped(t: Tables, j: Id, p: StepId) {
    HasRow(t, j, p) && (t.steps[(j, p)].state.Done? || t.steps[(j, p)].state.Skipped?)
  }

  /** A job whose handler failed at a step never ends done, and one whose handler
      did not never ends failed or cancelled: its row says done exactly if all its
      step rows say done or skipped. */
  lemma JobAndStepsAgree(states: seq<Sys>, actions: seq<Action>, c: nat, e: nat, m: nat, i: nat, d: Id, j: Id,
                         skip: set<StepId>, failed: Option<StepId>, ejectFailed: bool, trace: seq<SinkEvent>)
    requires Run(states, actions) && Started(states[0]) && c < e < m < i < |states|
    requires Creates(actions[c], j, skip) && Enters(states[e], actions[e], d, j, trace)
    requires ReturnsAsItRan(trace, actions[e].act.err, skip, failed, ejectFailed)
    requires Eject !in skip && (failed.Some? ==> failed.value !in skip)
    requires SteadyBetween(states, actions, e + 1, i, d, j)
    requires MarksFinal(states[m], actions[m], d, j) && NoCancelBetween(states, actions, m + 1, i, j)
    requires j in states[i].t.jobs
    ensures forall p: StepId :: HasRow(states[i].t, j, p)
    ensures states[i].t.jobs[j].state.Done? <==> failed.None?
    ensures failed.Some? ==> states[i].t.jobs[j].state.Failed? || states[i].t.jobs[j].state.Cancelled?
    ensures states[i].t.jobs[j].state.Done? <==> forall p: StepId :: DoneOrSkipped(states[i].t, j, p)
  {
    JobEndsInItsState(states, actions, e, m, i, d, j, trace);
    PastTheHandler(states, actions, e, m, i, d, j, trace);
    forall p: StepId
      ensures HasRow(states[i].t, j, p)
      ensures states[i].t.steps[(j, p)].state == Handlers.Outcome(skip, failed, p)
    {
      JobEndsAsItsHandlerRan(states, actions, c, e, i, d, j, skip, failed, ejectFailed, p);
    }
    if failed.Some? {
      assert !DoneOrSkipped(states[i].t, j, failed.value);
    }
  }

  // ---- the drive ----

  /** From Run to the write that sets its drive idle, a worker is at the job's end. */
  predicate AtTheDrive(w: Worker) {
    w.InRun? || w.Returned? || w.Finalized?
  }

  /** The drive is ripping for as long as its worker is there with this job. */
  ghost predicate RipsFor(s: Sys, d: Id, j: Id) {
    && j in s.home && s.home[j] == d && !Awaits(s, j)
    && (d in s.lanes && HasJob(s.lanes[d].worker, j) && AtTheDrive(s.lanes[d].worker) && d in s.t.drives ==>
          s.t.drives[d].state.Ripping?)
  }

  /** Workers of other drives do not write this one. */
  lemma OtherDriveStays(s: Sys, e: Id, act: WorkerAct, now: string, d: Id)
    requires LanesInv(s) && e in s.lanes && WorkEnabled(s, s.lanes[e], act)
    requires e != d || !(act.EnterRun? || act.MarkIdle?)
    ensures var t' := WorkTables(s, s.lanes[e], act, now);
            (d in t'.drives <==> d in s.t.drives) && (d in s.t.drives ==> t'.drives[d] == s.t.drives[d])
  {
    assert LaneInv(s.lanes[e], e, s.home);
  }

  lemma WorkKeepsRipping(s: Sys, e: Id, act: WorkerAct, now: string, d: Id, j: Id)
    requires Inv(s) && Enabled(s, Work(e, act, now)) && RipsFor(s, d, j)
    ensures RipsFor(Next(s, Work(e, act, now)), d, j)
  {
    JobStaysGone(s, Work(e, act, now), j);
    if e != d {
      OtherDriveStays(s, e, act, now, d);
      OtherLaneStays(s, e, act, now, d);
    } else {
      OwnWorkRips(s, d, act, now, j);
    }
  }

  lemma OwnWorkRips(s: Sys, d: Id, act: WorkerAct, now: string, j: Id)
    requires LanesInv(s) && d in s.lanes && WorkEnabled(s, s.lanes[d], act) && RipsFor(s, d, j)
    ensures var w, t' := WorkLane(s.lanes[d], s.t, act).worker, WorkTables(s, s.lanes[d], act, now);
            HasJob(w, j) && AtTheDrive(w) && d in t'.drives ==> t'.drives[d].state.Ripping?
  {
    NotTakenUp(s, d, act, j);
    NotBeforeRun(s, d, j);
    if !act.EnterRun? && !act.MarkIdle? {
      OtherDriveStays(s, d, act, now, d);
    }
  }

  lemma OtherKeepsDrives(s: Sys, a: Action)
    requires Enabled(s, a) && !a.Work? && !a.Crash? && !a.Scan?
    ensures Next(s, a).t.drives == s.t.drives
  {
    if a.Request? {
      RequestKeepsDrives(s, a.c, a.req);
    }
  }

  lemma RequestKeepsDrives(s: Sys, c: nat, req: RequestAct)
    requires RequestEnabled(s, c, req)
    ensures RequestNext(s, c, req).t.drives == s.t.drives
  {
    if !(req.Create? && !req.fails) && !req.CancelWrite? {
      SameTables(s, c, req);
    }
  }

  lemma StepKeepsRipping(s: Sys, a: Action, s': Sys, d: Id, j: Id)
    requires Inv(s) && Enabled(s, a) && s' == Next(s, a) && RipsFor(s, d, j)
    ensures RipsFor(s', d, j)
  {
    if a.Work? {
      WorkKeepsRipping(s, a.d, a.act, a.now, d, j);
    } else {
      JobStaysGone(s, a, j);
      LanesKeepWorkers(s, a);
      if !a.Crash? && !a.Scan? {
        OtherKeepsDrives(s, a);
      }
    }
  }

  lemma EnterRips(s: Sys, a: Action, s': Sys, d: Id, j: Id, trace: seq<SinkEvent>)
    requires Inv(s) && Enabled(s, a) && s' == Next(s, a) && Enters(s, a, d, j, trace) && !a.act.fails
    ensures RipsFor(s', d, j)
  {
    StartingAwaits(s, d);
    EnteredWaitsNoMore(s, a);
    assert LaneInv(s.lanes[d], d, s.home);
  }

  lemma RipsOn(states: seq<Sys>, actions: seq<Action>, k: nat, d: Id, j: Id)
    requires Run(states, actions) && Started(states[0]) && 0 < k < |states| && RipsFor(states[k - 1], d, j)
    ensures RipsFor(states[k], d, j)
  {
    var s, a, s' := StepAt(states, actions, k);
    StepKeepsRipping(s, a, s', d, j);
  }

  lemma RipsFirst(states: seq<Sys>, actions: seq<Action>, e: nat, d: Id, j: Id, trace: seq<SinkEvent>)
    requires Run(states, actions) && Started(states[0]) && e < |actions|
    requires Enters(states[e], actions[e], d, j, trace) && !actions[e].act.fails
    ensures RipsFor(states[e + 1], d, j)
  {
    RunKeepsInv(states, actions, e);
    EnterRips(states[e], actions[e], states[e + 1], d, j, trace);
  }

  /** For every run: a drive whose "ripping" write worked is ripping for as long
      as its worker has not come to set it idle, whatever the other drives do. */
  lemma DriveRipsWithItsJob(states: seq<Sys>, actions: seq<Action>, e: nat, i: nat, d: Id, j: Id,
                            trace: seq<SinkEvent>)
    requires Run(states, actions) && Started(states[0]) && e < i < |states|
    requires Enters(states[e], actions[e], d, j, trace) && !actions[e].act.fails
    requires d in states[i].lanes && HasJob(states[i].lanes[d].worker, j) && AtTheDrive(states[i].lanes[d].worker)
    requires d in states[i].t.drives
    ensures states[i].t.drives[d].state.Ripping?
  {
    RipsFirst(states, actions, e, d, j, trace);
    var holds := (k: nat) => k < |states| && RipsFor(states[k], d, j);
    forall k: nat | e + 1 < k <= i && holds(k - 1)
      ensures holds(k)
    {
      RipsOn(states, actions, k, d, j);
    }
    Along(holds, e + 1, i);
  }

  ghost predicate IdleDrive(s: Sys, d: Id) {
    d in s.t.drives ==> s.t.drives[d].state.Idle? && s.t.drives[d].lastError == ""
  }

  /** The next job's "ripping" write. */
  predicate StartsRipping(a: Action, d: Id) {
    a.Work? && a.d == d && a.act.EnterRun? && !a.act.fails
  }

  lemma StepKeepsIdle(s: Sys, a: Action, s': Sys, d: Id)
    requires Inv(s) && Enabled(s, a) && s' == Next(s, a) && IdleDrive(s, d) && !StartsRipping(a, d)
    ensures IdleDrive(s', d)
  {
    if a.Work? {
      if a.d != d || !(a.act.EnterRun? || a.act.MarkIdle?) {
        OtherDriveStays(s, a.d, a.act, a.now, d);
      } else {
        assert LaneInv(s.lanes[d], d, s.home);
      }
    } else if !a.Crash? && !a.Scan? {
      OtherKeepsDrives(s, a);
    }
  }

  lemma IdleOn(states: seq<Sys>, actions: seq<Action>, k: nat, d: Id)
    requires Run(states, actions) && Started(states[0]) && 0 < k < |states| && IdleDrive(states[k - 1], d)
    requires !StartsRipping(actions[k - 1], d)
    ensures IdleDrive(states[k], d)
  {
    var s, a, s' := StepAt(states, actions, k);
    StepKeepsIdle(s, a, s', d);
  }

  lemma IdleFirst(states: seq<Sys>, actions: seq<Action>, m: nat, d: Id)
    requires Run(states, actions) && Started(states[0]) && m < |actions|
    requires actions[m].Work? && actions[m].d == d && actions[m].act == MarkIdle(false)
    ensures IdleDrive(states[m + 1], d)
  {
    RunKeepsInv(states, actions, m);
    assert LaneInv(states[m].lanes[d], d, states[m].home);
  }

  /** For every run: once its worker has set it idle, a drive stays idle, through
      restarts too, until the next job of the drive starts ripping. */
  lemma DriveIsIdleAfterwards(states: seq<Sys>, actions: seq<Action>, m: nat, i: nat, d: Id)
    requires Run(states, actions) && Started(states[0]) && m < i < |states|
    requires actions[m].Work? && actions[m].d == d && actions[m].act == MarkIdle(false)
    requires NoJobBetween(actions, m + 1, i, d)
    ensures d in states[i].t.drives ==> states[i].t.drives[d].state.Idle? && states[i].t.drives[d].lastError == ""
  {
    IdleFirst(states, actions, m, d);
    IdleFrom(states, actions, m + 1, i, d);
  }

  ghost predicate NoJobBetween(actions: seq<Action>, f: nat, i: nat, d: Id)
    requires i <= |actions|
  {
    forall k :: f <= k < i ==> !StartsRipping(actions[k], d)
  }

  lemma IdleFrom(states: seq<Sys>, actions: seq<Action>, f: nat, i: nat, d: Id)
    requires Run(states, actions) && Started(states[0]) && f <= i < |states|
    requires IdleDrive(states[f], d) && NoJobBetween(actions, f, i, d)
    ensures IdleDrive(states[i], d)
  {
    var idle := (k: nat) => k < |states| && IdleDrive(states[k], d);
    forall k: nat | f < k <= i && idle(k - 1)
      ensures idle(k)
    {
      IdleOn(states, actions, k, d);
    }
    Along(idle, f, i);
  }
}
