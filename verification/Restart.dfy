/** What a restart means for the discs, jobs and drives that the daemon had in
    hand: which discs can be started again, what ClearHistory and the retention
    sweep take, and which drives are held back (daemon/cmd/discecho/main.go,
    daemon/state/store.go, daemon/api/discs.go). */
module Restart {
  import opened Wrappers
  import opened Schema
  import opened SinkTrace
  import opened Protocol
  import opened ProtocolRuns
  import opened History
  import Timestamps

  predicate WaitsOrRuns(st: JobState) {
    st.Queued? || st.Identifying? || st.Running?
  }

  /** The states after the recovery statements, job by job. */
  lemma StateAfterRestart(t: Tables, now: string, j: Id)
    requires j in t.jobs
    ensures j in Recover(t, now).jobs
    ensures var row := Recover(t, now).jobs[j];
            row == if t.jobs[j].state.Queued? || t.jobs[j].state.Identifying? || t.jobs[j].state.Running?
                   then t.jobs[j].(state := JobState.Interrupted, finishedAt := now) else t.jobs[j]
  {
  }

  /** Which states hold a disc back: exactly these four. */
  lemma ActiveByState(t: Tables, disc: Id)
    ensures DiscHasActiveJob(t, disc) <==>
            exists j ::
              && j in t.jobs && t.jobs[j].discId == disc
              && (t.jobs[j].state.Queued? || t.jobs[j].state.Identifying?
                  || t.jobs[j].state.Running? || t.jobs[j].state.Paused?)
  {
  }

  ghost predicate HasPausedJob(t: Tables, disc: Id) {
    exists j :: j in t.jobs && t.jobs[j].discId == disc && t.jobs[j].state.Paused?
  }

  /** After a restart a disc has an active job exactly if one of its jobs was
      paused; whatever else it had in hand no longer counts. */
  lemma ActiveAfterRestart(t: Tables, now: string, disc: Id)
    ensures DiscHasActiveJob(Recover(t, now), disc) <==> HasPausedJob(t, disc)
  {
    forall j | j in t.jobs
      ensures j in Recover(t, now).jobs && Recover(t, now).jobs[j].discId == t.jobs[j].discId
      ensures Recover(t, now).jobs[j].state.Paused? <==> t.jobs[j].state.Paused?
      ensures !WaitsOrRuns(Recover(t, now).jobs[j].state)
    {
      StateAfterRestart(t, now, j);
    }
    if HasPausedJob(t, disc) {
      var j :| j in t.jobs && t.jobs[j].discId == disc && t.jobs[j].state.Paused?;
      assert Recover(t, now).jobs[j].state.Paused?;
    }
  }

  /** So a start request for any other disc gets past the check right away, and
      has its job in the store. */
  lemma DiscStartsAgain(t: Tables, home: map<Id, Id>, now: string, disc: Id, c: nat, newId: Id, skip: set<StepId>)
    requires !HasPausedJob(t, disc)
    requires disc in t.discs && t.discs[disc].driveId != "" && newId !in home && newId !in t.jobs
    ensures var s := Boot(t, home, now);
            && Leads(s, Become(s, c, Checked(disc, true)).(startMu := Some(c)))
            && Leads(s, WithNewJob(s, disc, c, newId, skip))
            && newId in WithNewJob(s, disc, c, newId, skip).t.jobs
            && WithNewJob(s, disc, c, newId, skip).t.jobs[newId].state.Queued?
            && WithNewJob(s, disc, c, newId, skip).t.jobs[newId].discId == disc
  {
    var s := Boot(t, home, now);
    ActiveAfterRestart(t, now, disc);
    LeadsFromStart(s);
    StartLocks(s, s, disc, c);
    StartCreates(s, s, disc, c, newId, skip);
  }

  /** And a disc with a paused job is refused: the check lets the request go
      without a job. */
  lemma PausedDiscIsRefused(t: Tables, home: map<Id, Id>, now: string, disc: Id, c: nat)
    requires HasPausedJob(t, disc)
    ensures var held := Become(Boot(t, home, now), c, Holding(disc)).(startMu := Some(c));
            RequestNext(held, c, Check(false)) == Gone(held, c)
  {
    ActiveAfterRestart(t, now, disc);
  }

  /** ClearHistory after a restart takes every job that was waiting or running at
      the crash, as it takes the finished ones; only the paused ones stay. */
  lemma ClearAfterRestart(t: Tables, now: string, j: Id)
    requires j in t.jobs
    ensures j in ClearStatements(Recover(t, now)).jobs <==> t.jobs[j].state.Paused?
  {
    ClearHistoryExact(Recover(t, now));
    StateAfterRestart(t, now, j);
  }

  /** A disc that had jobs goes with them, unless one of them was paused; one
      that never had a job stays. */
  lemma ClearedDiscs(t: Tables, now: string, disc: Id)
    requires disc in t.discs
    ensures disc in ClearStatements(Recover(t, now)).discs <==> HasPausedJob(t, disc) || !DiscHasAnyJob(t, disc)
  {
    var r := Recover(t, now);
    ClearHistoryExact(r);
    ActiveAfterRestart(t, now, disc);
    assert r.jobs.Keys == t.jobs.Keys && forall j :: j in t.jobs ==> r.jobs[j].discId == t.jobs[j].discId;
    assert DiscHasAnyJob(r, disc) <==> DiscHasAnyJob(t, disc) by {
      if DiscHasAnyJob(t, disc) {
        var j :| j in t.jobs && t.jobs[j].discId == disc;
        assert r.jobs[j].discId == disc;
      }
    }
  }

  /** The retention sweep takes such a job exactly once the restart itself is old
      enough, and until then its drive is in its cooldown. */
  lemma SweepAfterRestart(t: Tables, now: string, cutoff: string, j: Id)
    requires j in t.jobs && (t.jobs[j].state.Queued? || t.jobs[j].state.Identifying? || t.jobs[j].state.Running?)
    ensures j !in PruneStatements(Recover(t, now), cutoff).jobs <==> Timestamps.Less(now, cutoff)
    ensures !Timestamps.Less(now, cutoff) ==> HasRecentJobOnDrive(Recover(t, now), t.jobs[j].driveId, cutoff)
  {
    var r := Recover(t, now);
    PruneExact(r, cutoff);
    StateAfterRestart(t, now, j);
    OldJobsByState(r, cutoff);
  }

  /** After the scan and the recovery statements no found drive is held back, and
      none at all is identifying. */
  lemma DrivesAfterRestart(t: Tables, found: set<Id>, now: string, d: Id)
    requires d in t.drives
    ensures var r := Recover(ScanDrives(t, found), now);
            && d in r.drives
            && r.drives[d].state == (if d in found || t.drives[d].state.Identifying? then DriveState.Idle
                                     else t.drives[d].state)
            && (d in found ==> Claimable(r, d))
  {
  }
}
