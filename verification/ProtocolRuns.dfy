/** Runs of the job protocol built step by step: how a start request, a worker
    and a Cancel get to the places where the order of their steps matters. */
module ProtocolRuns {
  import opened Wrappers
  import opened Schema
  import opened SinkTrace
  import opened Protocol

  /** Some run through StartDisc leads from s to e. */
  ghost predicate Leads(s: Sys, e: Sys) {
    exists states: seq<Sys>, actions: seq<Action> :: LeadsBy(s, e, states, actions)
  }

  ghost predicate LeadsBy(s: Sys, e: Sys, states: seq<Sys>, actions: seq<Action>) {
    && Run(states, actions) && states[0] == s && states[|actions|] == e
    && forall i :: 0 <= i < |actions| ==> !(actions[i].Request? && actions[i].req.SubmitDirectly?)
  }

  lemma LeadsFromStart(s: Sys)
    ensures Leads(s, s)
  {
    assert LeadsBy(s, s, [s], []);
  }

  lemma LeadsOn(s: Sys, m: Sys, a: Action)
    requires Leads(s, m) && Enabled(m, a) && !(a.Request? && a.req.SubmitDirectly?)
    ensures Leads(s, Next(m, a))
  {
    var states, actions :| LeadsBy(s, m, states, actions);
    assert LeadsBy(s, Next(m, a), states + [Next(m, a)], actions + [a]);
  }

  /** A start request on a disc without an active job takes the free lock and passes the check. */
  lemma StartLocks(o: Sys, s: Sys, disc: Id, c: nat)
    requires Leads(o, s)
    requires !DiscHasActiveJob(s.t, disc) && s.startMu.None? && c !in s.callers
    ensures Leads(o, Become(s, c, Checked(disc, true)).(startMu := Some(c)))
  {
    var s1 := Become(s, c, Waiting(disc));
    var s2 := Become(s, c, Holding(disc)).(startMu := Some(c));
    assert s.callers[c := Waiting(disc)][c := Holding(disc)] == s.callers[c := Holding(disc)];
    assert s.callers[c := Holding(disc)][c := Checked(disc, true)] == s.callers[c := Checked(disc, true)];
    LeadsOn(o, s, Request(c, Arrive(disc)));
    LeadsOn(o, s1, Request(c, Lock));
    LeadsOn(o, s2, Request(c, Check(false)));
  }

  function WithNewJob(s: Sys, disc: Id, c: nat, newId: Id, skip: set<StepId>): Sys
    requires disc in s.t.discs
  {
    var drive := s.t.discs[disc].driveId;
    Become(s, c, Made(newId, drive, true)).(
      startMu := Some(c), home := s.home[newId := drive], t := InsertJob(s.t, newId, disc, drive, skip))
  }

  predicate CanStart(s: Sys, disc: Id, c: nat, newId: Id) {
    && disc in s.t.discs && s.t.discs[disc].driveId != "" && !DiscHasActiveJob(s.t, disc)
    && s.startMu.None? && c !in s.callers && newId !in s.home && newId !in s.t.jobs
  }

  lemma StartCreates(o: Sys, s: Sys, disc: Id, c: nat, newId: Id, skip: set<StepId>)
    requires Leads(o, s) && CanStart(s, disc, c, newId)
    ensures Leads(o, WithNewJob(s, disc, c, newId, skip))
  {
    StartLocks(o, s, disc, c);
    var s3 := Become(s, c, Checked(disc, true)).(startMu := Some(c));
    var made := Made(newId, s.t.discs[disc].driveId, true);
    assert s.callers[c := Checked(disc, true)][c := made] == s.callers[c := made];
    LeadsOn(o, s3, Request(c, Create(newId, skip, false)));
  }

  /** The job is on its drive's new channel, and its request is gone. */
  function WithJobSent(s: Sys, job: Id, d: Id): Sys {
    s.(lanes := s.lanes[d := Lane([job], AtSelect, [job], 0, [])], callers := s.callers - {0}, startMu := None)
  }

  /** The job is sent to its drive's new worker. */
  lemma JobIsSent(o: Sys, s: Sys, job: Id, d: Id)
    requires Leads(o, s) && d !in s.lanes && !s.queuesNil
    requires 0 in s.callers && s.callers[0] == Made(job, d, true)
    ensures Leads(o, WithJobSent(s, job, d))
  {
    var s1 := Next(s, Request(0, Enqueue));
    assert s1.lanes == s.lanes[d := NEW_LANE] && s1.callers == s.callers[0 := Sending(job, d, true)];
    LeadsOn(o, s, Request(0, Enqueue));
    SendOnNewLane(s, s1, job, d);
    LeadsOn(o, s1, Request(0, Send));
  }

  lemma SendOnNewLane(s: Sys, s1: Sys, job: Id, d: Id)
    requires 0 in s.callers
    requires s1 == s.(lanes := s.lanes[d := NEW_LANE], callers := s.callers[0 := Sending(job, d, true)])
    ensures RequestEnabled(s1, 0, Send) && RequestNext(s1, 0, Send) == WithJobSent(s, job, d)
  {
    assert [] + [job] == [job];
    assert s1.lanes[d := Lane([job], AtSelect, [job], 0, [])] == s.lanes[d := Lane([job], AtSelect, [job], 0, [])];
    assert s1.callers - {0} == s.callers - {0};
  }

  /** A Cancel looks the job up before its worker has registered it, and misses. */
  lemma CancelMisses(o: Sys, s: Sys, job: Id, c: nat)
    requires Leads(o, s) && c !in s.callers && job !in s.cancels
    ensures Leads(o, Become(s, c, Cancelling(job)))
  {
    LeadsOn(o, s, Request(c, CancelLookup(job)));
  }

  /** The lane of a job that its worker has received and registered. */
  function ReceivedLane(job: Id, w: Worker): Lane {
    Lane([], w, [job], 1, [])
  }

  function WithWorker(s: Sys, job: Id, d: Id, w: Worker): Sys {
    s.(lanes := s.lanes[d := ReceivedLane(job, w)], cancels := s.cancels + {job})
  }

  /** The worker takes the job, registers it and reads its row. */
  lemma JobIsLoaded(o: Sys, s: Sys, job: Id, d: Id, now: string)
    requires Leads(o, s) && d in s.lanes && s.lanes[d] == Lane([job], AtSelect, [job], 0, [])
    requires job in s.t.jobs && s.t.jobs[job].driveId == d && !s.t.jobs[job].state.Cancelled?
    ensures Leads(o, WithWorker(s, job, d, Loaded(job, d)))
  {
    var s1 := s.(lanes := s.lanes[d := ReceivedLane(job, Popped(job))]);
    assert [job][1..] == [];
    LeadsOn(o, s, Work(d, Pop, now));
    var s2 := WithWorker(s, job, d, Registered(job));
    Overwritten(s, d, ReceivedLane(job, Popped(job)), ReceivedLane(job, Registered(job)));
    LeadsOn(o, s1, Work(d, Register, now));
    Overwritten(s, d, ReceivedLane(job, Registered(job)), ReceivedLane(job, Loaded(job, d)));
    assert s2.t == s.t;
    LeadsOn(o, s2, Work(d, Load(false), now));
    assert WithWorker(s, job, d, Loaded(job, d)).cancels == s2.cancels;
  }

  lemma Overwritten(s: Sys, d: Id, l: Lane, m: Lane)
    ensures s.lanes[d := l][d := m] == s.lanes[d := m]
  {
  }

  // ---- a first job, as far as its worker's read ----

  /** The tables after start-up and one start request, for the job "a". */
  function WithFirstJob(t: Tables, disc: Id, skip: set<StepId>, now: string): Tables
    requires disc in t.discs
  {
    InsertJob(Recover(t, now), "a", disc, t.discs[disc].driveId, skip)
  }

  lemma FirstJobRow(t: Tables, disc: Id, skip: set<StepId>, now: string)
    requires t.jobs == map[] && disc in t.discs
    ensures var t' := WithFirstJob(t, disc, skip, now);
            && t'.jobs == map["a" := Job(disc, t.discs[disc].driveId, JobState.Queued, "", "", "")]
            && t'.discs == t.discs
            && forall s: StepId :: ("a", s) in t'.steps && t'.steps[("a", s)] == FreshStep(s in skip)
  {
    assert Recover(t, now).jobs == map[];
    forall s: StepId
      ensures s in CanonicalSteps()
    {
      StepIsCanonical(s);
    }
    var rows := StepRows("a", skip, CanonicalSteps());
    assert forall s: StepId :: ("a", s) in rows;
  }

  lemma StepIsCanonical(s: StepId)
    ensures s in CanonicalSteps()
  {
    var c := CanonicalSteps();
    match s
    case Detect => assert c[0] == s;
    case Identify => assert c[1] == s;
    case Rip => assert c[2] == s;
    case Transcode => assert c[3] == s;
    case Compress => assert c[4] == s;
    case Move => assert c[5] == s;
    case Notify => assert c[6] == s;
    case Eject => assert c[7] == s;
  }

  /** The worker has read job "a", and the Cancel of caller 1 has missed it. */
  function FirstJobLoaded(t: Tables, disc: Id, skip: set<StepId>, now: string): Sys
    requires disc in t.discs
  {
    var d := t.discs[disc].driveId;
    Sys(WithFirstJob(t, disc, skip, now), map[d := ReceivedLane("a", Loaded("a", d))], false, {"a"}, false, false, None,
        map[1 := Cancelling("a")], map["a" := d])
  }

  function FirstJobSent(t: Tables, disc: Id, skip: set<StepId>, now: string): Sys
    requires disc in t.discs
  {
    var d := t.discs[disc].driveId;
    Sys(WithFirstJob(t, disc, skip, now), map[d := Lane(["a"], AtSelect, ["a"], 0, [])], false, {}, false, false, None,
        map[], map["a" := d])
  }

  lemma ReachSent(t: Tables, disc: Id, skip: set<StepId>, now: string)
    requires t.jobs == map[] && disc in t.discs && t.discs[disc].driveId != ""
    ensures Leads(Boot(t, map[], now), FirstJobSent(t, disc, skip, now))
  {
    var s := Boot(t, map[], now);
    var d := t.discs[disc].driveId;
    assert s.t.jobs == map[] && s.t.discs == t.discs;
    LeadsFromStart(s);
    StartCreates(s, s, disc, 0, "a", skip);
    var made := WithNewJob(s, disc, 0, "a", skip);
    JobIsSent(s, made, "a", d);
    var sent := WithJobSent(made, "a", d);
    assert sent.callers == map[] && sent.home == map["a" := d];
    assert sent.lanes == map[d := Lane(["a"], AtSelect, ["a"], 0, [])];
    assert sent == FirstJobSent(t, disc, skip, now);
  }

  lemma ReachLoaded(t: Tables, disc: Id, skip: set<StepId>, now: string)
    requires t.jobs == map[] && disc in t.discs && t.discs[disc].driveId != ""
    ensures Leads(Boot(t, map[], now), FirstJobLoaded(t, disc, skip, now))
  {
    var s, sent := Boot(t, map[], now), FirstJobSent(t, disc, skip, now);
    var d := t.discs[disc].driveId;
    ReachSent(t, disc, skip, now);
    CancelMisses(s, sent, "a", 1);
    var missed := Become(sent, 1, Cancelling("a"));
    JobIsLoaded(s, missed, "a", d, now);
    var loaded := WithWorker(missed, "a", d, Loaded("a", d));
    assert loaded.lanes == map[d := ReceivedLane("a", Loaded("a", d))] && loaded.cancels == {"a"};
    assert loaded == FirstJobLoaded(t, disc, skip, now);
  }
}
