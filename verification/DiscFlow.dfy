/** One media-change event from claim to release, and one forced re-identify, as
    the daemon runs them on the store (daemon/cmd/discecho/discflow.go,
    daemon/api/discs.go). Every store call on the way may fail. IdentifyFlow
    interleaves any number of them. */
module DiscFlow {
  import opened Wrappers
  import opened Schema
  import opened Store
  import Timestamps

  /** discDedupWindow, in seconds */
  const DEDUP_WINDOW: nat := 120

  /** A disc as identify found it, before it has a row. */
  datatype Fresh = Fresh(toc: string, metadataId: string, title: string)

  datatype Identified =
    | NoCandidates(partial: Option<Fresh>)
    | Broken
    | Found(disc: Fresh)

  /** The refresh of a row is several statements: title and metadata ID first,
      then columns outside this model. */
  datatype Refresh = Works | FailsFirst | FailsLater

  /** Which store calls of persistDisc fail. */
  datatype Faults = Faults(byToc: bool, byMetadata: bool, refresh: Refresh, insert: bool)

  function Cutoff(now: nat): nat {
    if now < DEDUP_WINDOW then 0 else now - DEDUP_WINDOW
  }

  /** Every old row is still there, for the same physical disc. */
  ghost predicate RowsKept(before: map<Id, Disc>, after: map<Id, Disc>) {
    forall d :: d in before ==>
      d in after && after[d].(title := before[d].title, metadataId := before[d].metadataId) == before[d]
  }

  ghost predicate KnownByToc(discs: map<Id, Disc>, drive: Id, f: Fresh) {
    f.toc != "" && exists d :: d in discs && HasToc(discs[d], drive, f.toc)
  }

  ghost predicate KnownByMetadata(discs: map<Id, Disc>, drive: Id, f: Fresh, now: nat) {
    f.metadataId != "" && exists d ::
      && d in discs && discs[d].driveId == drive && discs[d].metadataId == f.metadataId
      && discs[d].createdAt + DEDUP_WINDOW >= now
  }

  ghost predicate Known(discs: map<Id, Disc>, drive: Id, f: Fresh, now: nat) {
    drive != "" && (KnownByToc(discs, drive, f) || KnownByMetadata(discs, drive, f, now))
  }

  /** The row is this drive's, and has the hash if any row of the drive does. */
  ghost predicate KnownAs(discs: map<Id, Disc>, drive: Id, f: Fresh, row: Id) {
    row in discs && discs[row].driveId == drive && (KnownByToc(discs, drive, f) ==> discs[row].toc == f.toc)
  }

  /** The row is this drive's and carries what identify found. */
  predicate Shows(row: Disc, drive: Id, f: Fresh) {
    row.driveId == drive && row.title == f.title && row.metadataId == f.metadataId
  }

  ghost predicate HasRowFor(discs: map<Id, Disc>, drive: Id, f: Fresh) {
    exists d :: d in discs && Shows(discs[d], drive, f)
  }

  /** A lookup that is reached fails; the one by metadata ID is reached only for
      a disc not known by its hash. */
  ghost predicate LookupFails(discs: map<Id, Disc>, drive: Id, f: Fresh, faults: Faults) {
    drive != "" && ((f.toc != "" && faults.byToc)
                    || (f.metadataId != "" && faults.byMetadata && !KnownByToc(discs, drive, f)))
  }

  ghost predicate PersistFails(t: Tables, drive: Id, f: Fresh, id: Id, now: nat, faults: Faults) {
    || LookupFails(t.discs, drive, f, faults)
    || if Known(t.discs, drive, f, now) then !faults.refresh.Works?
       else faults.insert || id in t.discs || (drive != "" && drive !in t.drives)
  }

  /** The two lookups: by TOC hash, then by metadata ID within the window. */
  method FindKnown(store: Store, drive: Id, f: Fresh, now: nat, faults: Faults)
    returns (r: Result<Option<Id>, StoreError>)
    ensures r.Err? <==> LookupFails(store.discs, drive, f, faults)
    ensures r.Ok? ==> (r.value.Some? <==> Known(store.discs, drive, f, now))
    ensures r.Ok? && r.value.Some? ==> KnownAs(store.discs, drive, f, r.value.value)
  {
    if drive == "" {
      return Ok(None);
    }
    if f.toc != "" {
      if faults.byToc {
        return Err(Unavailable);
      }
      var byToc := store.GetDiscByDriveTOC(drive, f.toc);
      if byToc.Some? {
        return Ok(byToc);
      }
    }
    if f.metadataId != "" {
      if faults.byMetadata {
        return Err(Unavailable);
      }
      var byMeta := store.GetDiscByDriveAndMetadataID(drive, f.metadataId, Cutoff(now));
      return Ok(byMeta);
    }
    r := Ok(None);
  }

  /** reuseDiscRow: a refresh that fails late has already changed the row. */
  method ReuseDiscRow(store: Store, row: Id, f: Fresh, refresh: Refresh) returns (r: Result<Id, StoreError>)
    requires row in store.discs
    modifies store
    ensures r == if refresh.Works? then Ok(row) else Err(Unavailable)
    ensures store.View() == if refresh.FailsFirst? then old(store.View())
                            else Retitled(old(store.View()), row, f.title, f.metadataId)
  {
    if refresh.FailsFirst? {
      return Err(Unavailable);
    }
    var _ := store.UpdateDiscMetadata(row, f.title, f.metadataId);
    r := if refresh.Works? then Ok(row) else Err(Unavailable);
  }

  lemma RetitledKeeps(t: Tables, row: Id, title: string, metadataId: string)
    requires row in t.discs
    ensures RowsKept(t.discs, Retitled(t, row, title, metadataId).discs)
    ensures OneRowPerToc(t) ==> OneRowPerToc(Retitled(t, row, title, metadataId))
  {
    var t' := Retitled(t, row, title, metadataId);
    assert forall d :: d in t.discs ==> t'.discs[d].driveId == t.discs[d].driveId && t'.discs[d].toc == t.discs[d].toc;
  }

  /** persistDisc: the row of a disc already known by TOC hash, or by metadata
      ID within the window, is refreshed and its ID reused; only an unknown disc
      gets a new row. So the unique index on drive and TOC hash never refuses
      the insert, and every reference to a disc row stays good. A failure leaves
      the rows alone but for a refresh that got half way. */
  method PersistDisc(store: Store, drive: Id, f: Fresh, id: Id, now: nat, faults: Faults)
    returns (r: Result<Id, StoreError>)
    modifies store
    ensures r.Err? <==> PersistFails(old(store.View()), drive, f, id, now, faults)
    ensures r.Ok? ==> r.value in store.discs && Shows(store.discs[r.value], drive, f)
                      && store.discs.Keys == old(store.discs.Keys) + {r.value}
    ensures r.Ok? ==> (r.value in old(store.discs) <==> Known(old(store.discs), drive, f, now))
    ensures r.Ok? && r.value in old(store.discs) ==> KnownAs(old(store.discs), drive, f, r.value)
    ensures r.Ok? && r.value !in old(store.discs) ==>
              r.value == id && store.discs[id] == Disc(drive, f.toc, f.metadataId, f.title, now)
    ensures r.Err? ==>
              || store.View() == old(store.View())
              || (faults.refresh.FailsLater?
                  && exists row :: (KnownAs(old(store.discs), drive, f, row)
                                    && store.View() == Retitled(old(store.View()), row, f.title, f.metadataId)))
    ensures store.View() == old(store.View()).(discs := store.discs)
    ensures RowsKept(old(store.discs), store.discs)
    ensures OneRowPerToc(old(store.View())) ==> OneRowPerToc(store.View())
  {
    var known := FindKnown(store, drive, f, now, faults);
    if known.Err? {
      return Err(known.error);
    }
    if known.value.Some? {
      RetitledKeeps(store.View(), known.value.value, f.title, f.metadataId);
      r := ReuseDiscRow(store, known.value.value, f, faults.refresh);
      return;
    }
    if faults.insert {
      return Err(Unavailable);
    }
    var created := store.CreateDisc(id, Disc(drive, f.toc, f.metadataId, f.title, now));
    r := if created.Ok? then Ok(id) else Err(created.error);
  }

  /** The drive with this device node, in whatever order the rows come. */
  method FindDriveByDevPath(store: Store, dev: string) returns (r: Option<Id>)
    ensures r.Some? ==> r.value in store.drives && store.drives[r.value].devPath == dev
    ensures r.None? ==> forall d :: d in store.drives ==> store.drives[d].devPath != dev
  {
    var rest := store.drives.Keys;
    while rest != {}
      invariant rest <= store.drives.Keys
      invariant forall d :: d in store.drives && d !in rest ==> store.drives[d].devPath != dev
      decreases |rest|
    {
      var d := PickOne(rest);
      if store.drives[d].devPath == dev {
        return Some(d);
      }
      rest := rest - {d};
    }
    r := None;
  }

  /** What happens around the store while an event is handled: which calls fail,
      and what classify and identify say. A failed guard query counts as not busy. */
  datatype Surroundings = Surroundings(
    busyFails: bool, recentFails: bool, claimFails: bool, noteFails: bool, releaseFails: bool,
    cooldown: int, recentCutoff: string,
    classified: bool, complaint: string, handler: bool, identified: Identified,
    id: Id, now: nat, faults: Faults)

  function IdentifyingDrives(t: Tables): set<Id> {
    set d | d in t.drives && t.drives[d].state.Identifying?
  }

  ghost predicate OnlyDrive(before: map<Id, Drive>, after: map<Id, Drive>, d: Id) {
    after.Keys == before.Keys && forall e :: e in before && e != d ==> after[e] == before[e]
  }

  lemma OneDriveChanges(t: Tables, t': Tables, d: Id)
    requires Claimable(t, d) && OnlyDrive(t.drives, t'.drives, d)
    ensures IdentifyingDrives(t') == IdentifyingDrives(t) + if t'.drives[d].state.Identifying? then {d} else {}
  {
  }

  /** The disc to persist, if classify and identify get that far and find one. */
  function ToPersist(env: Surroundings): Option<Fresh> {
    if !env.classified || !env.handler then None
    else
      match env.identified
      case NoCandidates(partial) => partial
      case Broken => None
      case Found(disc) => Some(disc)
  }

  /** Classify or identify fails, or the disc cannot be persisted. */
  ghost predicate IdentifyFails(t: Tables, drive: Id, env: Surroundings) {
    || !env.classified
    || (env.handler && env.identified.Broken?)
    || (ToPersist(env).Some? && PersistFails(t, drive, ToPersist(env).value, env.id, env.now, env.faults))
  }

  /** A job of this drive is queued, being identified or running. */
  ghost predicate Busy(t: Tables, drive: Id) {
    exists j ::
      && j in t.jobs && t.jobs[j].driveId == drive
      && (t.jobs[j].state.Queued? || t.jobs[j].state.Identifying? || t.jobs[j].state.Running?)
  }

  /** A finished job of this drive ended at or after the cutoff. */
  ghost predicate CoolingDown(t: Tables, drive: Id, cutoff: string) {
    exists j ::
      && j in t.jobs && t.jobs[j].driveId == drive
      && (t.jobs[j].state.Done? || t.jobs[j].state.Failed? || t.jobs[j].state.Cancelled?
          || t.jobs[j].state.Interrupted?)
      && !Timestamps.Less(t.jobs[j].finishedAt, cutoff)
  }

  /** The guards that drop an event before the claim. */
  ghost predicate Refused(t: Tables, drive: Id, env: Surroundings) {
    || (!env.busyFails && Busy(t, drive))
    || (!env.recentFails && env.cooldown > 0 && CoolingDown(t, drive, env.recentCutoff))
    || env.claimFails
  }

  /** After classify: find the handler, identify, persist. The result is the
      state to release the drive to. */
  method Identify(store: Store, drive: Id, env: Surroundings) returns (target: DriveState)
    requires env.classified
    modifies store
    ensures target == if IdentifyFails(old(store.View()), drive, env) then DriveState.Error else DriveState.Idle
    ensures store.View() == old(store.View()).(discs := store.discs)
    ensures RowsKept(old(store.discs), store.discs)
    ensures OneRowPerToc(old(store.View())) ==> OneRowPerToc(store.View())
    ensures ToPersist(env).None? ==> store.discs == old(store.discs)
    ensures target.Error? ==> store.discs.Keys == old(store.discs).Keys
    ensures target.Idle? && env.handler ==>
              match env.identified
              case Found(disc) => HasRowFor(store.discs, drive, disc)
              case NoCandidates(Some(disc)) => HasRowFor(store.discs, drive, disc)
              case _ => store.discs == old(store.discs)
  {
    if !env.handler {
      return DriveState.Idle;
    }
    match env.identified {
      case NoCandidates(disc) =>
        if disc.Some? {
          var kept := PersistDisc(store, drive, disc.value, env.id, env.now, env.faults);
          if kept.Err? {
            return DriveState.Error;
          }
        }
        target := DriveState.Idle;
      case Broken => target := DriveState.Error;
      case Found(disc) =>
        var kept := PersistDisc(store, drive, disc, env.id, env.now, env.faults);
        target := if kept.Ok? then DriveState.Idle else DriveState.Error;
    }
  }

  /** The drive's row once a claimed event is over. */
  function Released(row: Drive, failed: bool, env: Surroundings): Drive {
    var noted := if !env.classified && !env.noteFails then row.(lastError := env.complaint) else row;
    if env.releaseFails then noted.(state := DriveState.Identifying)
    else if failed then noted.(state := DriveState.Error)
    else noted.(state := DriveState.Idle, lastError := "")
  }

  /** Whatever identify comes to, the release that follows frees the drive,
      unless the release itself fails. */
  method IdentifyAndRelease(store: Store, drive: Id, env: Surroundings)
    requires drive in store.drives && store.drives[drive].state.Identifying?
    modifies store
    ensures store.View() == old(store.View()).(drives := store.drives, discs := store.discs)
    ensures RowsKept(old(store.discs), store.discs)
    ensures OneRowPerToc(old(store.View())) ==> OneRowPerToc(store.View())
    ensures ToPersist(env).None? ==> store.discs == old(store.discs)
    ensures (env.classified && env.handler && env.identified.Found?
             && !IdentifyFails(old(store.View()), drive, env)) ==>
              HasRowFor(store.discs, drive, env.identified.disc)
    ensures store.drives == old(store.drives)[drive :=
              Released(old(store.drives)[drive], IdentifyFails(old(store.View()), drive, env), env)]
    ensures Claimable(store.View(), drive) <==> !env.releaseFails
  {
    var target := DriveState.Error;
    if env.classified {
      target := Identify(store, drive, env);
    } else if !env.noteFails {
      var _ := store.UpdateDriveLastError(drive, env.complaint);
    }
    if !env.releaseFails {
      var _ := store.UpdateDriveState(drive, target);
    }
  }

  method PassesGuards(store: Store, drive: Id, env: Surroundings) returns (passes: bool)
    requires drive != ""
    ensures passes <==> !Refused(store.View(), drive, env)
  {
    if !env.busyFails {
      var busy := store.HasActiveJobOnDrive(drive);
      if busy {
        return false;
      }
    }
    if !env.recentFails {
      var recent := store.HasRecentJobOnDrive(drive, env.cooldown, env.recentCutoff);
      if recent {
        return false;
      }
    }
    passes := !env.claimFails;
  }

  lemma ClaimHidesNothing(t: Tables, drive: Id, env: Surroundings)
    requires Claimable(t, drive)
    ensures IdentifyFails(ClaimDrive(t, drive), drive, env) <==> IdentifyFails(t, drive, env)
    ensures Released(ClaimDrive(t, drive).drives[drive], IdentifyFails(t, drive, env), env)
         == Released(t.drives[drive], IdentifyFails(t, drive, env), env)
  {
  }

  /** The guards, the claim, identify and the release, on the drive found. */
  method HandleOn(store: Store, drive: Id, env: Surroundings) returns (claimed: bool)
    requires drive in store.drives && drive != ""
    modifies store
    ensures claimed <==> (old(store.drives)[drive].state.Idle? || old(store.drives)[drive].state.Error?)
                         && !Refused(old(store.View()), drive, env)
    ensures claimed && !env.busyFails ==>
              forall j :: j in store.jobs && store.jobs[j].driveId == drive ==>
                !store.jobs[j].state.Queued? && !store.jobs[j].state.Identifying? && !store.jobs[j].state.Running?
    ensures claimed && !env.recentFails && env.cooldown > 0 ==>
              forall j :: j in store.jobs && store.jobs[j].driveId == drive ==>
                || store.jobs[j].state.Queued? || store.jobs[j].state.Identifying?
                || store.jobs[j].state.Running? || store.jobs[j].state.Paused?
                || Timestamps.Less(store.jobs[j].finishedAt, env.recentCutoff)
    ensures !claimed ==> store.View() == old(store.View())
    ensures claimed ==>
              store.drives == old(store.drives)[drive :=
                Released(old(store.drives)[drive], IdentifyFails(old(store.View()), drive, env), env)]
    ensures store.View() == old(store.View()).(drives := store.drives, discs := store.discs)
    ensures RowsKept(old(store.discs), store.discs)
    ensures OneRowPerToc(old(store.View())) ==> OneRowPerToc(store.View())
    ensures ToPersist(env).None? ==> store.discs == old(store.discs)
    ensures (claimed && env.classified && env.handler && env.identified.Found?
             && !IdentifyFails(old(store.View()), drive, env)) ==>
              HasRowFor(store.discs, drive, env.identified.disc)
  {
    claimed := false;
    var passes := PassesGuards(store, drive, env);
    if !passes {
      return;
    }
    ghost var t := store.View();
    claimed := store.ClaimDriveForIdentify(drive);
    if !claimed {
      return;
    }
    ghost var held := store.drives;
    ClaimHidesNothing(t, drive, env);
    IdentifyAndRelease(store, drive, env);
    assert store.drives == t.drives[drive := Released(held[drive], IdentifyFails(t, drive, env), env)];
  }

  /** handle: a drive that is busy, cooling down or being identified is left
      exactly as it was. Whatever path the event takes and whichever calls fail,
      it leaves a drive identifying that was not before exactly if it claimed it
      and the release failed. */
  method Handle(store: Store, mediaChange: bool, listFails: bool, dev: string, env: Surroundings)
    returns (drive: Option<Id>, claimed: bool)
    requires "" !in store.drives
    modifies store
    ensures drive.Some? <==> mediaChange && !listFails
                             && exists d :: d in old(store.drives) && old(store.drives)[d].devPath == dev
    ensures drive.Some? ==> drive.value in old(store.drives) && old(store.drives)[drive.value].devPath == dev
    ensures claimed <==> drive.Some? && Claimable(old(store.View()), drive.value)
                         && !Refused(old(store.View()), drive.value, env)
    ensures !claimed ==> store.View() == old(store.View())
    ensures claimed ==> OnlyDrive(old(store.drives), store.drives, drive.value)
    ensures IdentifyingDrives(store.View())
         == IdentifyingDrives(old(store.View())) + if claimed && env.releaseFails then {drive.value} else {}
    ensures store.View() == old(store.View()).(drives := store.drives, discs := store.discs)
    ensures RowsKept(old(store.discs), store.discs)
    ensures OneRowPerToc(old(store.View())) ==> OneRowPerToc(store.View())
  {
    drive, claimed := None, false;
    if !mediaChange || listFails {
      return;
    }
    drive := FindDriveByDevPath(store, dev);
    if drive.None? {
      return;
    }
    claimed := HandleOn(store, drive.value, env);
    if claimed {
      OneDriveChanges(old(store.View()), store.View(), drive.value);
    }
  }

  // ---- forced re-identify ----

  /** The disc's row with what a fresh identify found, if it found anything. */
  function Merged(row: Disc, identified: Identified): Disc {
    match identified
    case Found(disc) => row.(title := disc.title, metadataId := disc.metadataId)
    case NoCandidates(Some(disc)) => row.(title := disc.title, metadataId := disc.metadataId)
    case _ => row
  }

  /** What a forced re-identify meets; unlike handle, it gives up on any failed
      query. `classified` needs a classifier and pipelines to be configured. */
  datatype Around = Around(
    getFails: bool, busyFails: bool, claimFails: bool, releaseFails: bool,
    classified: bool, handler: bool, identified: Identified, refresh: Refresh)

  ghost predicate Takes(t: Tables, drive: Id, env: Around) {
    && !env.getFails && !env.busyFails && !env.claimFails
    && drive != "" && Claimable(t, drive) && t.drives[drive].devPath != "" && !Busy(t, drive)
  }

  /** Classify and identify went well and at least the first write did. */
  predicate Updates(env: Around) {
    env.classified && env.handler && !env.identified.Broken? && !env.refresh.FailsFirst?
  }

  /** The checks and the claim. */
  method TakeDrive(store: Store, drive: Id, env: Around) returns (claimed: bool)
    modifies store
    ensures claimed <==> Takes(old(store.View()), drive, env)
    ensures store.View() == if claimed then ClaimDrive(old(store.View()), drive) else old(store.View())
    ensures claimed ==>
              forall j :: j in store.jobs && store.jobs[j].driveId == drive ==>
                !store.jobs[j].state.Queued? && !store.jobs[j].state.Identifying? && !store.jobs[j].state.Running?
  {
    claimed := false;
    if drive == "" || env.getFails || drive !in store.drives || store.drives[drive].devPath == "" {
      return;
    }
    if env.busyFails {
      return;
    }
    var busy := store.HasActiveJobOnDrive(drive);
    if busy || env.claimFails {
      return;
    }
    claimed := store.ClaimDriveForIdentify(drive);
  }

  /** From the claim to the deferred release: the disc's own row is refreshed. */
  method Reidentify(store: Store, disc: Id, env: Around) returns (ok: bool)
    requires disc in store.discs
    modifies store
    ensures ok <==> Updates(env) && env.refresh.Works?
    ensures store.View() == old(store.View()).(discs := store.discs)
    ensures store.discs == if Updates(env) then old(store.discs)[disc := Merged(old(store.discs)[disc], env.identified)]
                           else old(store.discs)
    ensures Updates(env) ==>
              match env.identified
              case Found(f) => Shows(store.discs[disc], old(store.discs)[disc].driveId, f)
              case NoCandidates(Some(f)) => Shows(store.discs[disc], old(store.discs)[disc].driveId, f)
              case _ => store.discs == old(store.discs)
  {
    ok := false;
    if !env.classified || !env.handler || env.identified.Broken? || env.refresh.FailsFirst? {
      return;
    }
    var row := store.discs[disc];
    var found := if env.identified.Found? then Some(env.identified.disc) else env.identified.partial;
    if found.Some? {
      row := row.(title := found.value.title, metadataId := found.value.metadataId);
    }
    var _ := store.UpdateDiscMetadata(disc, row.title, row.metadataId);
    ok := env.refresh.Works?;
  }

  /** The deferred release. */
  method ReleaseIdle(store: Store, drive: Id, fails: bool)
    requires drive in store.drives && store.drives[drive].state.Identifying?
    modifies store
    ensures store.View() == old(store.View()).(drives := store.drives)
    ensures OnlyDrive(old(store.drives), store.drives, drive)
    ensures store.drives[drive].state == if fails then DriveState.Identifying else DriveState.Idle
  {
    if !fails {
      var _ := store.UpdateDriveState(drive, DriveState.Idle);
    }
  }

  /** forceReidentify: refreshes the disc's own row after a successful identify;
      once claimed, the drive ends idle on every path, unless the deferred
      release fails. Only a late failure reports an error and keeps the change. */
  method ForceReidentify(store: Store, disc: Id, env: Around) returns (claimed: bool, ok: bool)
    requires disc in store.discs
    modifies store
    ensures claimed <==> Takes(old(store.View()), old(store.discs)[disc].driveId, env)
    ensures claimed ==>
              forall j :: j in store.jobs && store.jobs[j].driveId == old(store.discs)[disc].driveId ==>
                !store.jobs[j].state.Queued? && !store.jobs[j].state.Identifying? && !store.jobs[j].state.Running?
    ensures !claimed ==> store.View() == old(store.View()) && !ok
    ensures claimed ==>
              var d := old(store.discs)[disc].driveId;
              && OnlyDrive(old(store.drives), store.drives, d)
              && store.drives[d].state == (if env.releaseFails then DriveState.Identifying else DriveState.Idle)
    ensures claimed ==> (ok <==> Updates(env) && env.refresh.Works?)
    ensures store.discs == if claimed && Updates(env)
                           then old(store.discs)[disc := Merged(old(store.discs)[disc], env.identified)]
                           else old(store.discs)
    ensures store.View() == old(store.View()).(drives := store.drives, discs := store.discs)
    ensures IdentifyingDrives(store.View())
         == IdentifyingDrives(old(store.View()))
            + if claimed && env.releaseFails then {old(store.discs)[disc].driveId} else {}
  {
    ok := false;
    var drive := store.discs[disc].driveId;
    claimed := TakeDrive(store, drive, env);
    if claimed {
      ok := Reidentify(store, disc, env);
      ReleaseIdle(store, drive, env.releaseFails);
      OneDriveChanges(old(store.View()), store.View(), drive);
    }
  }
}
