/** What history clean-up leaves behind (daemon/state/store.go, ClearHistory,
    DeleteJobAndOrphans, PruneHistoryBefore): each transaction's statements,
    with their cascades, against the rows that are meant to stay. */
module History {
  import opened Wrappers
  import opened Schema
  import opened Timestamps
  import Protocol

  function FinishedJobs(t: Tables): set<Id> {
    set j | j in t.jobs && Terminal(t.jobs[j].state)
  }

  /** The rows left when some finished or deleted jobs and some discs go. */
  function Without(t: Tables, jobs: set<Id>, discs: set<Id>): Tables {
    Tables(t.drives, t.discs - discs, t.jobs - jobs,
           map k | k in t.steps && k.0 !in jobs :: t.steps[k],
           map l | l in t.logs && t.logs[l] !in jobs :: t.logs[l])
  }

  /** Every job of the disc is among the given ones. */
  predicate OnlyJobsOf(t: Tables, d: Id, jobs: set<Id>) {
    forall j :: j in t.jobs && t.jobs[j].discId == d ==> j in jobs
  }

  // ---- ClearHistory ----

  /** Discs with jobs, all of them finished. */
  function SpentDiscs(t: Tables): set<Id> {
    set d | d in t.discs && DiscHasAnyJob(t, d) && !DiscHasActiveJob(t, d)
  }

  /** The transaction: delete spent discs (cascading), then finished jobs. */
  function ClearStatements(t: Tables): Tables {
    var t1 := DeleteDiscs(t, SpentDiscs(t));
    DeleteJobs(t1, FinishedJobs(t1))
  }

  /** Exactly the finished jobs go, with their steps and logs, and exactly the
      discs that had jobs but no active one. */
  lemma ClearHistoryExact(t: Tables)
    ensures ClearStatements(t) == Without(t, FinishedJobs(t), SpentDiscs(t))
  {
    var t1 := DeleteDiscs(t, SpentDiscs(t));
    var cascaded, mopped := JobsOfDiscs(t, SpentDiscs(t)), FinishedJobs(t1);
    assert cascaded + mopped == FinishedJobs(t);
    DeleteTwice(t, cascaded, mopped);
    assert ClearStatements(t) == DeleteJobs(DeleteJobs(t, cascaded), mopped).(discs := t.discs - SpentDiscs(t));
  }

  lemma DeleteTwice(t: Tables, a: set<Id>, b: set<Id>)
    ensures DeleteJobs(DeleteJobs(t, a), b) == DeleteJobs(t, a + b)
  {
    var one, two := DeleteJobs(t, a + b), DeleteJobs(DeleteJobs(t, a), b);
    assert two.jobs == one.jobs;
    assert two.steps == one.steps;
    assert two.logs == one.logs;
  }

  /** The count taken up front is the number of jobs removed in all, though the
      last statement removes only those the cascades left. */
  lemma ClearHistoryCount(t: Tables)
    ensures |FinishedJobs(t)| == |t.jobs| - |ClearStatements(t).jobs|
    ensures forall j :: j in t.jobs ==> (j in ClearStatements(t).jobs <==> Active(t.jobs[j].state))
  {
    ClearHistoryExact(t);
    CountWithout(t, FinishedJobs(t));
  }

  lemma CountWithout(t: Tables, gone: set<Id>)
    requires gone <= t.jobs.Keys
    ensures |gone| == |t.jobs| - |t.jobs - gone|
  {
    assert (t.jobs - gone).Keys == t.jobs.Keys - gone;
  }

  /** Discs that never had a job stay, and so does every disc with an active one. */
  lemma ClearHistoryKeepsDiscs(t: Tables, d: Id)
    requires d in t.discs
    ensures d in ClearStatements(t).discs <==> !DiscHasAnyJob(t, d) || DiscHasActiveJob(t, d)
  {
    ClearHistoryExact(t);
  }

  // ---- DeleteJobAndOrphans ----

  function DeleteJobStatements(t: Tables, job: Id): Tables
    requires job in t.jobs
  {
    var t1 := DeleteJobs(t, {job});
    var disc := t.jobs[job].discId;
    if DiscHasAnyJob(t1, disc) then t1 else DeleteDiscs(t1, {disc})
  }

  /** The disc goes with its only job. */
  lemma DeleteJobExact(t: Tables, job: Id)
    requires job in t.jobs
    ensures var disc := t.jobs[job].discId;
            DeleteJobStatements(t, job) == Without(t, {job}, if OnlyJobsOf(t, disc, {job}) then {disc} else {})
  {
    var disc := t.jobs[job].discId;
    var t1 := DeleteJobs(t, {job});
    if OnlyJobsOf(t, disc, {job}) {
      assert !DiscHasAnyJob(t1, disc);
      assert JobsOfDiscs(t1, {disc}) == {};
      DeleteNothing(t1);
    } else {
      var j: Id :| j in t.jobs && t.jobs[j].discId == disc && j != job;
      assert j in t1.jobs;
      assert t.discs - {} == t.discs;
    }
  }

  lemma DeleteNothing(t: Tables)
    ensures DeleteJobs(t, {}) == t
  {
    assert DeleteJobs(t, {}).jobs == t.jobs;
    assert DeleteJobs(t, {}).steps == t.steps;
    assert DeleteJobs(t, {}).logs == t.logs;
  }

  // ---- PruneHistoryBefore ----

  /** Finished jobs whose end, as a string, is before the cutoff. */
  function OldJobs(t: Tables, cutoff: string): set<Id> {
    set j | j in t.jobs && Terminal(t.jobs[j].state) && Less(t.jobs[j].finishedAt, cutoff)
  }

  lemma OldJobsByState(t: Tables, cutoff: string)
    ensures forall j :: j in t.jobs ==>
              (j in OldJobs(t, cutoff) <==>
               (t.jobs[j].state.Done? || t.jobs[j].state.Failed? || t.jobs[j].state.Cancelled?
                || t.jobs[j].state.Interrupted?) && Less(t.jobs[j].finishedAt, cutoff))
  {
  }

  /** The discs left without a job once the given ones are gone. */
  function BareDiscs(t: Tables, gone: set<Id>): set<Id> {
    set d | d in t.discs && OnlyJobsOf(t, d, gone)
  }

  function JoblessDiscs(t: Tables): set<Id> {
    set d | d in t.discs && !DiscHasAnyJob(t, d)
  }

  function PruneStatements(t: Tables, cutoff: string): Tables {
    var t1 := DeleteJobs(t, OldJobs(t, cutoff));
    DeleteDiscs(t1, JoblessDiscs(t1))
  }

  /** Old jobs go, and every disc without a job that stays, including those
      that never had one. */
  lemma PruneExact(t: Tables, cutoff: string)
    ensures PruneStatements(t, cutoff) == Without(t, OldJobs(t, cutoff), BareDiscs(t, OldJobs(t, cutoff)))
  {
    var gone := OldJobs(t, cutoff);
    var t1 := DeleteJobs(t, gone);
    assert JobsOfDiscs(t1, JoblessDiscs(t1)) == {};
    DeleteNothing(t1);
    assert forall j :: j in t.jobs && j !in gone ==> j in t1.jobs && t1.jobs[j] == t.jobs[j];
    assert forall d :: DiscHasAnyJob(t1, d) <==> !OnlyJobsOf(t, d, gone);
    assert JoblessDiscs(t1) == BareDiscs(t, gone);
  }

  /** A disc awaiting a decision is pruned by the retention sweep, but survives ClearHistory. */
  lemma SweepTakesUndecidedDiscs(t: Tables, d: Id, cutoff: string)
    requires d in t.discs && !DiscHasAnyJob(t, d)
    ensures d !in PruneStatements(t, cutoff).discs && d in ClearStatements(t).discs
  {
    PruneExact(t, cutoff);
    ClearHistoryKeepsDiscs(t, d);
  }

  /** For times written by the store: finished jobs from an earlier second than
      the cutoff go, those from a later second stay. */
  lemma PruneBySecond(t: Tables, j: Id, ended: Instant, cutoff: Instant)
    requires j in t.jobs && Terminal(t.jobs[j].state) && t.jobs[j].finishedAt == Timestamp(ended)
    requires Valid(ended) && Valid(cutoff)
    ensures Seconds(ended) < Seconds(cutoff) ==> j !in PruneStatements(t, Timestamp(cutoff)).jobs
    ensures Seconds(ended) > Seconds(cutoff) ==> j in PruneStatements(t, Timestamp(cutoff)).jobs
  {
    PruneExact(t, Timestamp(cutoff));
    if Seconds(ended) != Seconds(cutoff) {
      StringOrderIsTimeOrder(ended, cutoff);
    }
  }

  /** Active jobs always stay. */
  lemma PruneKeepsActive(t: Tables, j: Id, cutoff: string)
    requires j in t.jobs && Active(t.jobs[j].state)
    ensures var r := PruneStatements(t, cutoff);
            && j in r.jobs && r.jobs[j] == t.jobs[j]
            && (t.jobs[j].discId in t.discs ==> t.jobs[j].discId in r.discs)
            && (forall s: StepId :: (j, s) in t.steps ==> (j, s) in r.steps && r.steps[(j, s)] == t.steps[(j, s)])
  {
    PruneExact(t, cutoff);
  }

  /** The cooldown check sees a job that ended in a later second than its cutoff
      and, if that is the only finished one, misses one from an earlier second. */
  lemma CooldownBySecond(t: Tables, drive: Id, j: Id, ended: Instant, cutoff: Instant)
    requires j in t.jobs && Terminal(t.jobs[j].state) && t.jobs[j].driveId == drive
    requires t.jobs[j].finishedAt == Timestamp(ended) && Valid(ended) && Valid(cutoff)
    ensures Seconds(ended) > Seconds(cutoff) ==> HasRecentJobOnDrive(t, drive, Timestamp(cutoff))
    ensures Seconds(ended) < Seconds(cutoff)
            && (forall i :: i in t.jobs && t.jobs[i].driveId == drive && Terminal(t.jobs[i].state) ==> i == j)
            ==> !HasRecentJobOnDrive(t, drive, Timestamp(cutoff))
  {
    if Seconds(ended) != Seconds(cutoff) {
      StringOrderIsTimeOrder(ended, cutoff);
    }
  }

  // ---- referential integrity, and the job protocol's view ----

  lemma WithoutKeepsIntegrity(t: Tables, jobs: set<Id>, discs: set<Id>)
    requires Integrity(t) && forall j :: j in t.jobs && t.jobs[j].discId in discs ==> j in jobs
    ensures Integrity(Without(t, jobs, discs))
  {
    var r := Without(t, jobs, discs);
    assert forall k :: k in r.steps ==> k in t.steps && k.0 in t.jobs;
    assert forall l :: l in r.logs ==> l in t.logs && t.logs[l] in t.jobs;
  }

  lemma HistoryKeepsIntegrity(t: Tables, job: Id, cutoff: string)
    requires Integrity(t)
    ensures Integrity(ClearStatements(t))
    ensures Integrity(PruneStatements(t, cutoff))
    ensures job in t.jobs ==> Integrity(DeleteJobStatements(t, job))
  {
    ClearHistoryExact(t);
    assert forall j :: j in t.jobs && t.jobs[j].discId in SpentDiscs(t) ==> j in FinishedJobs(t);
    WithoutKeepsIntegrity(t, FinishedJobs(t), SpentDiscs(t));
    PruneExact(t, cutoff);
    WithoutKeepsIntegrity(t, OldJobs(t, cutoff), BareDiscs(t, OldJobs(t, cutoff)));
    if job in t.jobs {
      DeleteJobExact(t, job);
      var disc := t.jobs[job].discId;
      WithoutKeepsIntegrity(t, {job}, if OnlyJobsOf(t, disc, {job}) then {disc} else {});
    }
  }

  /** A Delete step of the job protocol that takes all jobs of the discs it takes. */
  lemma DeleteStep(s: Protocol.Sys, jobs: set<Id>, discs: set<Id>)
    requires forall j :: j in s.t.jobs && s.t.jobs[j].discId in discs ==> j in jobs
    ensures Protocol.Next(s, Protocol.Delete(jobs, discs)).t == Without(s.t, jobs, discs)
  {
    var t1 := DeleteJobs(s.t, jobs);
    assert JobsOfDiscs(t1, discs) == {};
    DeleteNothing(t1);
  }

  /** Each of the three transactions is such a step, and so keeps what every
      step of the protocol keeps. */
  lemma ClearIsDelete(s: Protocol.Sys)
    ensures Protocol.Next(s, Protocol.Delete(FinishedJobs(s.t), SpentDiscs(s.t))).t == ClearStatements(s.t)
  {
    ClearHistoryExact(s.t);
    assert forall j :: j in s.t.jobs && s.t.jobs[j].discId in SpentDiscs(s.t) ==> j in FinishedJobs(s.t);
    DeleteStep(s, FinishedJobs(s.t), SpentDiscs(s.t));
  }

  lemma PruneIsDelete(s: Protocol.Sys, cutoff: string)
    ensures var old' := OldJobs(s.t, cutoff);
            Protocol.Next(s, Protocol.Delete(old', BareDiscs(s.t, old'))).t == PruneStatements(s.t, cutoff)
  {
    PruneExact(s.t, cutoff);
    DeleteStep(s, OldJobs(s.t, cutoff), BareDiscs(s.t, OldJobs(s.t, cutoff)));
  }

  lemma DeleteJobIsDelete(s: Protocol.Sys, job: Id)
    requires job in s.t.jobs
    ensures var disc := s.t.jobs[job].discId;
            var bare := if OnlyJobsOf(s.t, disc, {job}) then {disc} else {};
            Protocol.Next(s, Protocol.Delete({job}, bare)).t == DeleteJobStatements(s.t, job)
  {
    var disc := s.t.jobs[job].discId;
    DeleteJobExact(s.t, job);
    DeleteStep(s, {job}, if OnlyJobsOf(s.t, disc, {job}) then {disc} else {});
  }
}
