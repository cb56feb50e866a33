/** The store: five tables, changed in place by single statements and by
    transactions that commit all their statements or none (daemon/state/store.go).
    Each method is proved against the table functions that the other modules
    reason about. */
module Store {
  import opened Wrappers
  import opened Schema
  import opened History
  import opened Timestamps

  /** What the store reports: no such row, a refused insert, or a failed query. */
  datatype StoreError = NotFound | Constraint | Unavailable

  class Store {
    var drives: map<Id, Drive>
    var discs: map<Id, Disc>
    var jobs: map<Id, Job>
    var steps: map<(Id, StepId), StepRow>
    var logs: map<nat, Id>

    function View(): Tables
      reads this
    {
      Tables(drives, discs, jobs, steps, logs)
    }

    constructor ()
      ensures View() == Tables(map[], map[], map[], map[], map[])
    {
      drives, discs, jobs, steps, logs := map[], map[], map[], map[], map[];
    }

    // ---- statements with cascades ----

    method DeleteJobRows(gone: set<Id>)
      modifies this
      ensures View() == DeleteJobs(old(View()), gone)
    {
      steps := map k | k in steps && k.0 !in gone :: steps[k];
      logs := map l | l in logs && logs[l] !in gone :: logs[l];
      jobs := jobs - gone;
    }

    method DeleteDiscRows(gone: set<Id>)
      modifies this
      ensures View() == DeleteDiscs(old(View()), gone)
    {
      DeleteJobRows(JobsOfDiscs(View(), gone));
      discs := discs - gone;
    }

    // ---- drives ----

    method UpdateDriveState(id: Id, st: DriveState) returns (r: Result<(), StoreError>)
      modifies this
      ensures match Schema.UpdateDriveState(old(View()), id, st)
              case Some(t) => r.Ok? && View() == t
              case None => r == Err(NotFound) && View() == old(View())
      ensures r.Ok? <==> id in old(drives)
      ensures r.Ok? ==> drives.Keys == old(drives).Keys && drives[id].state == st
                        && drives[id].lastError == (if st.Idle? then "" else old(drives)[id].lastError)
                        && forall d :: d in drives && d != id ==> drives[d] == old(drives)[d]
    {
      if id !in drives {
        return Err(NotFound);
      }
      var row := drives[id];
      drives := drives[id := row.(state := st, lastError := if st.Idle? then "" else row.lastError)];
      r := Ok(());
    }

    method UpdateDriveLastError(id: Id, msg: string) returns (r: Result<(), StoreError>)
      modifies this
      ensures r.Ok? <==> id in old(drives)
      ensures View() == if r.Ok? then Noted(old(View()), id, msg) else old(View())
    {
      if id !in drives {
        return Err(NotFound);
      }
      drives := drives[id := drives[id].(lastError := msg)];
      r := Ok(());
    }

    /** The compare-and-set that guards identify: of any callers, only one that
        finds the drive idle or in error succeeds, and then nobody else can. */
    method ClaimDriveForIdentify(id: Id) returns (claimed: bool)
      modifies this
      ensures claimed <==> id in old(drives) && (old(drives)[id].state.Idle? || old(drives)[id].state.Error?)
      ensures claimed ==> id in drives && drives[id] == old(drives)[id].(state := DriveState.Identifying)
      ensures View() == ClaimDrive(old(View()), id)
      ensures !Claimable(View(), id)
    {
      claimed := id in drives && (drives[id].state.Idle? || drives[id].state.Error?);
      if claimed {
        drives := drives[id := drives[id].(state := DriveState.Identifying)];
      }
    }

    method ResetIdentifyingDrives() returns (n: nat)
      modifies this
      ensures View() == ResetIdentifying(old(View()))
      ensures forall d :: d in drives ==>
                drives[d].state == if old(drives)[d].state.Identifying? then DriveState.Idle else old(drives)[d].state
      ensures n == |set d | d in old(drives) && old(drives)[d].state.Identifying?|
    {
      n := |set d | d in drives && drives[d].state.Identifying?|;
      drives := map d | d in drives ::
        if drives[d].state.Identifying? then drives[d].(state := DriveState.Idle) else drives[d];
    }

    // ---- discs ----

    /** Fails on a taken ID, an unknown drive, or the unique index on drive and
        non-empty TOC hash; a row without a drive never conflicts. */
    method CreateDisc(id: Id, d: Disc) returns (r: Result<(), StoreError>)
      modifies this
      ensures r.Ok? <==> Insertable(old(View()), id, d)
      ensures View() == if r.Ok? then old(View()).(discs := old(discs)[id := d]) else old(View())
      ensures r.Ok? && OneRowPerToc(old(View())) ==> OneRowPerToc(View())
    {
      if id in discs || (d.driveId != "" && d.driveId !in drives) {
        return Err(Constraint);
      }
      assert forall e :: e in discs && HasToc(discs[e], d.driveId, d.toc) ==>
        e in MatchingToc(View(), d.driveId, d.toc);
      if d.driveId != "" && d.toc != "" && MatchingToc(View(), d.driveId, d.toc) != {} {
        return Err(Constraint);
      }
      discs := discs[id := d];
      r := Ok(());
    }

    /** The most recently created disc of the drive with this TOC hash. */
    method GetDiscByDriveTOC(drive: Id, toc: string) returns (r: Option<Id>)
      ensures r.None? <==> drive == "" || toc == ""
                           || forall d :: d in discs ==> !(discs[d].driveId == drive && discs[d].toc == toc)
      ensures r.Some? ==> r.value in discs && discs[r.value].driveId == drive && discs[r.value].toc == toc
                          && forall d :: d in discs && discs[d].driveId == drive && discs[d].toc == toc ==>
                               discs[d].createdAt <= discs[r.value].createdAt
    {
      if drive == "" || toc == "" {
        return None;
      }
      var among := MatchingToc(View(), drive, toc);
      assert forall d :: d in discs && HasToc(discs[d], drive, toc) ==> d in among;
      r := Newest(among);
    }

    /** The same by metadata ID, among the discs created at or after the cutoff. */
    method GetDiscByDriveAndMetadataID(drive: Id, meta: string, cutoff: nat) returns (r: Option<Id>)
      ensures r.None? <==> drive == "" || meta == ""
                           || forall d :: d in discs ==> !(discs[d].driveId == drive && discs[d].metadataId == meta
                                                           && discs[d].createdAt >= cutoff)
      ensures r.Some? ==> r.value in discs && discs[r.value].driveId == drive && discs[r.value].metadataId == meta
                          && discs[r.value].createdAt >= cutoff
                          && forall d :: d in discs && discs[d].driveId == drive && discs[d].metadataId == meta ==>
                               discs[d].createdAt <= discs[r.value].createdAt
    {
      if drive == "" || meta == "" {
        return None;
      }
      var among := set d | d in discs && HasMetadata(discs[d], drive, meta, cutoff);
      assert forall d :: d in discs && HasMetadata(discs[d], drive, meta, cutoff) ==> d in among;
      r := Newest(among);
    }

    /** ORDER BY created_at DESC LIMIT 1 */
    method Newest(among: set<Id>) returns (r: Option<Id>)
      requires among <= discs.Keys
      ensures r.None? <==> among == {}
      ensures r.Some? ==> r.value in among && forall d :: d in among ==> discs[d].createdAt <= discs[r.value].createdAt
    {
      r := None;
      var rest := among;
      while rest != {}
        invariant rest <= among
        invariant r.None? <==> rest == among
        invariant r.Some? ==> r.value in among
                              && forall d :: d in among - rest ==> discs[d].createdAt <= discs[r.value].createdAt
        decreases |rest|
      {
        var d := PickOne(rest);
        if r.None? || discs[d].createdAt > discs[r.value].createdAt {
          r := Some(d);
        }
        rest := rest - {d};
      }
    }

    /** Refreshes an existing row, keeping its ID, drive, TOC hash and age. */
    method UpdateDiscMetadata(id: Id, title: string, metadataId: string) returns (r: Result<(), StoreError>)
      modifies this
      ensures r.Ok? <==> id in old(discs)
      ensures View() == if r.Ok? then Retitled(old(View()), id, title, metadataId) else old(View())
    {
      if id !in discs {
        return Err(NotFound);
      }
      discs := discs[id := discs[id].(title := title, metadataId := metadataId)];
      r := Ok(());
    }

    // ---- jobs ----

    /** The whole insert commits, or nothing does: a taken ID or a dangling disc
        or drive rolls it back. Every canonical step gets a row, skipped exactly
        if the caller listed it as skipped. */
    method CreateJob(id: Id, disc: Id, drive: Id, planned: seq<(StepId, StepState)>) returns (r: Result<(), StoreError>)
      modifies this
      ensures r.Ok? <==> id !in old(jobs) && disc in old(discs) && (drive == "" || drive in old(drives))
      ensures View() == if r.Ok? then InsertJob(old(View()), id, disc, drive, SkippedIn(planned)) else old(View())
      ensures r.Ok? && Integrity(old(View())) ==> Integrity(View())
    {
      var skip := SkippedSteps(planned);
      if id in jobs || disc !in discs || (drive != "" && drive !in drives) {
        return Err(Constraint);
      }
      ghost var t := View();
      jobs := jobs[id := Job(disc, drive, JobState.Queued, "", "", "")];
      steps := WithStepRows(steps, id, skip);
      assert View() == InsertJob(t, id, disc, drive, skip);
      if Integrity(t) {
        InsertKeepsIntegrity(t, id, disc, drive, skip);
      }
      r := Ok(());
    }

    static method SkippedSteps(planned: seq<(StepId, StepState)>) returns (skip: set<StepId>)
      ensures skip == SkippedIn(planned)
    {
      skip := {};
      for i := 0 to |planned|
        invariant skip == SkippedIn(planned[..i])
      {
        SkippedInOneMore(planned, i);
        if planned[i].1.Skipped? {
          skip := skip + {planned[i].0};
        }
      }
      assert planned[..|planned|] == planned;
    }

    static method WithStepRows(base: map<(Id, StepId), StepRow>, id: Id, skip: set<StepId>)
      returns (rows: map<(Id, StepId), StepRow>)
      ensures rows == base + StepRows(id, skip, CanonicalSteps())
    {
      var order := CanonicalSteps();
      rows := base;
      for i := 0 to |order|
        invariant rows == base + StepRows(id, skip, order[..i])
      {
        OneMoreStepRow(base, id, skip, order, i);
        rows := rows[(id, order[i]) := FreshStep(order[i] in skip)];
      }
      assert order[..|order|] == order;
    }

    method UpdateJobState(id: Id, st: JobState, errMsg: string, now: string) returns (r: Result<(), StoreError>)
      modifies this
      ensures r.Ok? <==> id in old(jobs)
      ensures jobs.Keys == old(jobs).Keys
      ensures r.Ok? ==>
                var was, row := old(jobs)[id], jobs[id];
                && (forall j :: j in jobs && j != id ==> jobs[j] == old(jobs)[j])
                && row.state == st && row.discId == was.discId && row.driveId == was.driveId
                && row.startedAt == (if st.Running? && was.startedAt == "" then now else was.startedAt)
                && row.finishedAt == (if st.Done? || st.Failed? || st.Cancelled? || st.Interrupted? then now
                                      else was.finishedAt)
                && row.errorMessage == (if st.Failed? then errMsg else was.errorMessage)
      ensures match Schema.UpdateJobState(old(View()), id, st, errMsg, now)
              case Some(t) => r.Ok? && View() == t
              case None => r == Err(NotFound) && View() == old(View())
    {
      if id !in jobs {
        return Err(NotFound);
      }
      var row := jobs[id].(state := st);
      match st {
        case Running =>
          if row.startedAt == "" {
            row := row.(startedAt := now);
          }
        case Done => row := row.(finishedAt := now);
        case Failed => row := row.(finishedAt := now, errorMessage := errMsg);
        case Cancelled => row := row.(finishedAt := now);
        case Interrupted => row := row.(finishedAt := now);
        case _ =>
      }
      jobs := jobs[id := row];
      r := Ok(());
    }

    method UpdateJobStepState(id: Id, step: StepId, st: StepState, now: string) returns (r: Result<(), StoreError>)
      modifies this
      ensures r.Ok? <==> (id, step) in old(steps)
      ensures steps.Keys == old(steps).Keys
      ensures r.Ok? ==>
                var was, row := old(steps)[(id, step)], steps[(id, step)];
                && steps == old(steps)[(id, step) := row]
                && row.state == st && row.attempts == was.attempts + (if st.Running? then 1 else 0)
                && row.startedAt == (if st.Running? && was.startedAt == "" then now else was.startedAt)
                && row.finishedAt == (if st.Done? || st.Skipped? || st.Failed? then now else was.finishedAt)
      ensures match Schema.UpdateJobStepState(old(View()), id, step, st, now)
              case Some(t) => r.Ok? && View() == t
              case None => r == Err(NotFound) && View() == old(View())
    {
      if (id, step) !in steps {
        return Err(NotFound);
      }
      var row := steps[(id, step)].(state := st);
      match st {
        case Running =>
          row := row.(attempts := row.attempts + 1, startedAt := if row.startedAt == "" then now else row.startedAt);
        case Pending =>
        case _ => row := row.(finishedAt := now);
      }
      steps := steps[(id, step) := row];
      r := Ok(());
    }

    method DiscHasActiveJob(disc: Id) returns (active: bool)
      ensures active <==> disc != "" && exists j ::
                            && j in jobs && jobs[j].discId == disc
                            && (jobs[j].state.Queued? || jobs[j].state.Identifying?
                                || jobs[j].state.Running? || jobs[j].state.Paused?)
    {
      if disc == "" {
        return false;
      }
      var found := set j | j in jobs && jobs[j].discId == disc && Active(jobs[j].state);
      active := |found| > 0;
      assert forall j :: j in jobs && jobs[j].discId == disc && Active(jobs[j].state) ==> j in found;
    }

    /** Paused jobs do not count here. */
    method HasActiveJobOnDrive(drive: Id) returns (busy: bool)
      ensures busy <==> drive != "" && exists j ::
                          && j in jobs && jobs[j].driveId == drive
                          && (jobs[j].state.Queued? || jobs[j].state.Running? || jobs[j].state.Identifying?)
    {
      if drive == "" {
        return false;
      }
      var found := set j | j in jobs && jobs[j].driveId == drive
                           && (jobs[j].state.Queued? || jobs[j].state.Running? || jobs[j].state.Identifying?);
      busy := |found| > 0;
      assert forall j :: (j in jobs && jobs[j].driveId == drive
                          && (jobs[j].state.Queued? || jobs[j].state.Running? || jobs[j].state.Identifying?)) ==>
                           j in found;
    }

    /** Nothing counts as recent with no cooldown. */
    method HasRecentJobOnDrive(drive: Id, cooldown: int, cutoff: string) returns (recent: bool)
      ensures recent <==> drive != "" && cooldown > 0 && Schema.HasRecentJobOnDrive(View(), drive, cutoff)
      ensures recent <==> drive != "" && cooldown > 0
                          && exists j ::
                               && j in jobs && jobs[j].driveId == drive
                               && (jobs[j].state.Done? || jobs[j].state.Failed? || jobs[j].state.Cancelled?
                                   || jobs[j].state.Interrupted?)
                               && !Less(jobs[j].finishedAt, cutoff)
    {
      if drive == "" || cooldown <= 0 {
        return false;
      }
      var found := set j | j in jobs && jobs[j].driveId == drive && Terminal(jobs[j].state)
                           && !Less(jobs[j].finishedAt, cutoff);
      recent := |found| > 0;
      assert forall j :: (j in jobs && jobs[j].driveId == drive && Terminal(jobs[j].state)
                          && !Less(jobs[j].finishedAt, cutoff)) ==> j in found;
    }

    /** Start-up recovery; n counts the jobs flipped. */
    method MarkInterruptedJobs(now: string) returns (n: nat)
      modifies this
      ensures View() == MarkInterrupted(old(View()), now)
      ensures n == |set j | j in old(jobs) && Orphaned(old(jobs)[j].state)|
      ensures forall j :: j in jobs ==>
                var was := old(jobs)[j];
                jobs[j] == if was.state.Queued? || was.state.Identifying? || was.state.Running?
                           then was.(state := JobState.Interrupted, finishedAt := now) else was
    {
      n := |set j | j in jobs && Orphaned(jobs[j].state)|;
      jobs := map j | j in jobs ::
        if Orphaned(jobs[j].state) then jobs[j].(state := JobState.Interrupted, finishedAt := now) else jobs[j];
      var interrupted := set j | j in jobs && jobs[j].state.Interrupted?;
      steps := map k | k in steps ::
        if steps[k].state.Running? && k.0 in interrupted
        then steps[k].(state := StepState.Failed, finishedAt := now)
        else steps[k];
      assert View().steps == MarkInterrupted(old(View()), now).steps;
    }

    // ---- history ----

    /** Removes exactly the finished jobs and the discs with nothing but
        finished jobs, and reports how many jobs went. */
    method ClearHistory() returns (n: nat)
      modifies this
      ensures View() == Without(old(View()), FinishedJobs(old(View())), SpentDiscs(old(View())))
      ensures forall j :: j in old(jobs) ==>
                (j in jobs <==> old(jobs)[j].state.Queued? || old(jobs)[j].state.Identifying?
                                || old(jobs)[j].state.Running? || old(jobs)[j].state.Paused?)
      ensures n == |old(jobs)| - |jobs|
      ensures Integrity(old(View())) ==> Integrity(View())
    {
      ghost var t := View();
      n := |FinishedJobs(View())|;
      DeleteDiscRows(SpentDiscs(View()));
      DeleteJobRows(FinishedJobs(View()));
      ClearHistoryExact(t);
      ClearHistoryCount(t);
      if Integrity(t) {
        HistoryKeepsIntegrity(t, "", "");
      }
    }

    /** Removes one job, and its disc exactly if no other job refers to it. */
    method DeleteJobAndOrphans(job: Id) returns (r: Result<(), StoreError>)
      modifies this
      ensures r.Ok? <==> job in old(jobs)
      ensures r.Err? ==> View() == old(View())
      ensures r.Ok? ==>
                var disc := old(jobs)[job].discId;
                View() == Without(old(View()), {job}, if OnlyJobsOf(old(View()), disc, {job}) then {disc} else {})
      ensures Integrity(old(View())) ==> Integrity(View())
    {
      ghost var t := View();
      if job !in jobs {
        return Err(NotFound);
      }
      var disc := jobs[job].discId;
      DeleteJobRows({job});
      if !DiscHasAnyJob(View(), disc) {
        DeleteDiscRows({disc});
      }
      DeleteJobExact(t, job);
      if Integrity(t) {
        HistoryKeepsIntegrity(t, job, "");
      }
      r := Ok(());
    }

    /** The retention sweep. */
    method PruneHistoryBefore(cutoff: string) returns (n: nat)
      modifies this
      ensures View() == Without(old(View()), OldJobs(old(View()), cutoff),
                                BareDiscs(old(View()), OldJobs(old(View()), cutoff)))
      ensures forall j :: j in old(jobs) ==>
                (j !in jobs <==> && (old(jobs)[j].state.Done? || old(jobs)[j].state.Failed?
                                     || old(jobs)[j].state.Cancelled? || old(jobs)[j].state.Interrupted?)
                                 && Less(old(jobs)[j].finishedAt, cutoff))
      ensures n == |old(jobs)| - |jobs|
      ensures Integrity(old(View())) ==> Integrity(View())
    {
      ghost var t := View();
      var gone := OldJobs(View(), cutoff);
      n := |gone|;
      DeleteJobRows(gone);
      DeleteDiscRows(JoblessDiscs(View()));
      PruneExact(t, cutoff);
      OldJobsByState(t, cutoff);
      CountWithout(t, gone);
      if Integrity(t) {
        HistoryKeepsIntegrity(t, "", cutoff);
      }
    }
  }

  // ---- disc lookup and the unique index ----

  predicate HasToc(d: Disc, drive: Id, toc: string) {
    d.driveId == drive && d.toc == toc
  }

  predicate HasMetadata(d: Disc, drive: Id, meta: string, cutoff: nat) {
    d.driveId == drive && d.metadataId == meta && d.createdAt >= cutoff
  }

  function MatchingToc(t: Tables, drive: Id, toc: string): set<Id> {
    set d | d in t.discs && HasToc(t.discs[d], drive, toc)
  }

  /** At most one row per drive and non-empty TOC hash. */
  ghost predicate OneRowPerToc(t: Tables) {
    forall a, b :: (a in t.discs && b in t.discs && t.discs[a].driveId != "" && t.discs[a].toc != ""
                    && HasToc(t.discs[b], t.discs[a].driveId, t.discs[a].toc)) ==> a == b
  }

  ghost predicate Insertable(t: Tables, id: Id, d: Disc) {
    && id !in t.discs && (d.driveId == "" || d.driveId in t.drives)
    && (d.driveId != "" && d.toc != "" ==> forall e :: e in t.discs ==> !HasToc(t.discs[e], d.driveId, d.toc))
  }

  function Retitled(t: Tables, id: Id, title: string, metadataId: string): Tables
    requires id in t.discs
  {
    t.(discs := t.discs[id := t.discs[id].(title := title, metadataId := metadataId)])
  }

  function Noted(t: Tables, id: Id, msg: string): Tables
    requires id in t.drives
  {
    t.(drives := t.drives[id := t.drives[id].(lastError := msg)])
  }

  // ---- planned steps ----

  lemma OneMoreStepRow(base: map<(Id, StepId), StepRow>, id: Id, skip: set<StepId>, order: seq<StepId>, i: nat)
    requires i < |order|
    ensures base + StepRows(id, skip, order[..i + 1])
         == (base + StepRows(id, skip, order[..i]))[(id, order[i]) := FreshStep(order[i] in skip)]
  {
    assert order[..i + 1] == order[..i] + [order[i]];
  }

  lemma InsertKeepsIntegrity(t: Tables, id: Id, disc: Id, drive: Id, skip: set<StepId>)
    requires Integrity(t) && disc in t.discs
    ensures Integrity(InsertJob(t, id, disc, drive, skip))
  {
    EveryStepIsCanonical();
  }

  function SkippedIn(planned: seq<(StepId, StepState)>): set<StepId> {
    set i | 0 <= i < |planned| && planned[i].1.Skipped? :: planned[i].0
  }

  lemma SkippedInOneMore(planned: seq<(StepId, StepState)>, i: nat)
    requires i < |planned|
    ensures SkippedIn(planned[..i + 1])
         == SkippedIn(planned[..i]) + if planned[i].1.Skipped? then {planned[i].0} else {}
  {
    var a, b := planned[..i + 1], planned[..i];
    forall s | s in SkippedIn(a)
      ensures s in SkippedIn(b) || (planned[i].1.Skipped? && s == planned[i].0)
    {
      var k :| 0 <= k < |a| && a[k].1.Skipped? && a[k].0 == s;
      if k < i {
        assert b[k] == a[k];
      }
    }
    forall s | s in SkippedIn(b)
      ensures s in SkippedIn(a)
    {
      var k :| 0 <= k < |b| && b[k].1.Skipped? && b[k].0 == s;
      assert a[k] == b[k];
    }
    assert a[i] == planned[i];
  }

  lemma EveryStepIsCanonical()
    ensures forall s: StepId :: s in CanonicalSteps()
  {
    var c := CanonicalSteps();
    assert c[0].Detect? && c[1].Identify? && c[2].Rip? && c[3].Transcode?;
    assert c[4].Compress? && c[5].Move? && c[6].Notify? && c[7].Eject?;
    forall s: StepId
      ensures s in c
    {
      match s
      case Detect => case Identify => case Rip => case Transcode =>
      case Compress => case Move => case Notify => case Eject =>
    }
  }

  /** A new job starts with all eight steps: the skipped ones skipped, the rest pending. */
  lemma NewJobSteps(t: Tables, id: Id, disc: Id, drive: Id, planned: seq<(StepId, StepState)>, s: StepId)
    ensures var r := InsertJob(t, id, disc, drive, SkippedIn(planned));
            && (id, s) in r.steps
            && r.steps[(id, s)].state
               == (if (s, StepState.Skipped) in planned then StepState.Skipped else StepState.Pending)
  {
    EveryStepIsCanonical();
    var rows := StepRows(id, SkippedIn(planned), CanonicalSteps());
    assert (id, s) in rows;
    assert s in SkippedIn(planned) <==> (s, StepState.Skipped) in planned;
  }
}
