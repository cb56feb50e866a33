/** Identify flows as a step system: any burst of media-change events and forced
    re-identifies, interleaved at their store calls, each of which may fail,
    with deletions, new jobs and other drives' traffic in between
    (daemon/cmd/discecho/discflow.go, daemon/api/discs.go). */
module IdentifyFlow {
  import opened Wrappers
  import opened Schema
  import opened Store
  import opened DiscFlow

  /** Where a flow is. All but Arrived have claimed the drive. */
  datatype Flow =
    | Arrived(drive: Id, again: Option<Id>)         // before the claim; `again` is the disc to re-identify
    | Claimed(drive: Id, again: Option<Id>)         // classify and identify
    | ByToc(drive: Id, found: Fresh)                // before the lookup by TOC hash
    | ByMetadata(drive: Id, found: Fresh)           // before the lookup by metadata ID
    | Inserting(drive: Id, found: Fresh)
    | Refreshing(drive: Id, row: Id, found: Fresh)
    | Releasing(drive: Id, target: DriveState)

  /** `leaked` is history: the drives whose release write failed, until something
      else writes their state. */
  datatype Sys = Sys(t: Tables, flows: map<nat, Flow>, leaked: set<Id>)

  datatype FlowAct =
    | Drop                                          // a guard refused the flow, or its claim failed
    | Claim
    | GiveUp                                        // classify or identify failed, or nothing handles the disc
    | Identified(disc: Fresh)
    | Lookup(fails: bool, now: nat)
    | Insert(id: Id, fails: bool, now: nat)
    | Refresh(outcome: DiscFlow.Refresh)
    | Release(fails: bool)

  datatype Action =
    | Event(f: nat, drive: Id, again: Option<Id>)   // a flow arrives
    | Advance(f: nat, act: FlowAct)
    | Delete(jobs: set<Id>, discs: set<Id>)         // discs take their jobs along
    | NewJob(id: Id, disc: Id, skip: set<StepId>)   // the row only: its start writes the drive
    | DriveWrite(drive: Id, st: DriveState)         // by a job or a manual eject, which never write "identifying"
    | Restart

  predicate Owns(f: Flow) {
    !f.Arrived?
  }

  predicate FlowEnabled(s: Sys, f: Flow, act: FlowAct) {
    match act
    case Drop => f.Arrived?
    case Claim => f.Arrived?
    case GiveUp => f.Claimed?
    case Identified(_) => f.Claimed?
    case Lookup(_, _) => f.ByToc? || f.ByMetadata?
    case Insert(id, _, _) => f.Inserting? && id !in s.t.discs
    case Refresh(_) => f.Refreshing?
    case Release(_) => f.Releasing?
  }

  predicate Enabled(s: Sys, a: Action) {
    match a
    case Event(f, drive, _) => f !in s.flows && drive in s.t.drives && drive != ""
    case Advance(f, act) => f in s.flows && FlowEnabled(s, s.flows[f], act)
    case Delete(_, _) => true
    case NewJob(id, disc, _) => id !in s.t.jobs && disc in s.t.discs
    case DriveWrite(drive, st) => drive in s.t.drives && !st.Identifying?
    case Restart => true
  }

  /** What the lookups return: some newest row that matches, if any does. */
  ghost predicate Hit(s: Sys, f: Flow, now: nat, row: Option<Id>)
    requires f.ByToc? || f.ByMetadata?
  {
    var found := set d | d in s.t.discs && Matches(s.t.discs[d], f, now);
    if row.None? then found == {}
    else row.value in found && forall d :: d in found ==> s.t.discs[d].createdAt <= s.t.discs[row.value].createdAt
  }

  predicate Matches(d: Disc, f: Flow, now: nat)
    requires f.ByToc? || f.ByMetadata?
  {
    if f.ByToc? then f.found.toc != "" && HasToc(d, f.drive, f.found.toc)
    else f.found.metadataId != "" && HasMetadata(d, f.drive, f.found.metadataId, Cutoff(now))
  }

  function With(s: Sys, f: nat, flow: Flow): Sys {
    s.(flows := s.flows[f := flow])
  }

  function Without(s: Sys, f: nat): Sys {
    s.(flows := s.flows - {f})
  }

  function Failure(f: Flow): DriveState {
    if f.Claimed? && f.again.Some? then DriveState.Idle else DriveState.Error
  }

  /** One step of one flow; lookups may return any newest match. */
  ghost predicate FlowNext(s: Sys, n: nat, act: FlowAct, s': Sys)
    requires n in s.flows && FlowEnabled(s, s.flows[n], act)
  {
    var f := s.flows[n];
    match act
    case Drop => s' == Without(s, n)
    case Claim =>
      if Claimable(s.t, f.drive) then s' == With(s.(t := ClaimDrive(s.t, f.drive)), n, Claimed(f.drive, f.again))
      else s' == Without(s, n)
    case GiveUp =>
      || s' == With(s, n, Releasing(f.drive, Failure(f)))
      || s' == With(s, n, Releasing(f.drive, DriveState.Idle))
    case Identified(disc) =>
      if f.again.Some? then s' == With(s, n, Refreshing(f.drive, f.again.value, disc))
      else s' == With(s, n, ByToc(f.drive, disc))
    case Lookup(fails, now) =>
      if fails then s' == With(s, n, Releasing(f.drive, DriveState.Error))
      else
        || (exists row :: Hit(s, f, now, Some(row)) && s' == With(s, n, Refreshing(f.drive, row, f.found)))
        || (Hit(s, f, now, None)
            && s' == With(s, n, if f.ByToc? then ByMetadata(f.drive, f.found) else Inserting(f.drive, f.found)))
    case Insert(id, fails, now) =>
      var row := Disc(f.drive, f.found.toc, f.found.metadataId, f.found.title, now);
      if fails || !Insertable(s.t, id, row) then s' == With(s, n, Releasing(f.drive, DriveState.Error))
      else s' == With(s.(t := s.t.(discs := s.t.discs[id := row])), n, Releasing(f.drive, DriveState.Idle))
    case Refresh(outcome) =>
      var t' := if outcome.FailsFirst? || f.row !in s.t.discs then s.t
                else Retitled(s.t, f.row, f.found.title, f.found.metadataId);
      if outcome.Works? && f.row in s.t.discs then s' == With(s.(t := t'), n, Releasing(f.drive, DriveState.Idle))
      else
        || s' == With(s.(t := t'), n, Releasing(f.drive, DriveState.Error))
        || s' == With(s.(t := t'), n, Releasing(f.drive, DriveState.Idle))
    case Release(fails) =>
      if fails then s' == Without(s, n).(leaked := s.leaked + {f.drive})
      else s' == Without(s, n).(t := OrElse(UpdateDriveState(s.t, f.drive, f.target), s.t))
  }

  ghost predicate Next(s: Sys, a: Action, s': Sys)
    requires Enabled(s, a)
  {
    match a
    case Event(f, drive, again) => s' == With(s, f, Arrived(drive, again))
    case Advance(f, act) => FlowNext(s, f, act, s')
    case Delete(jobs, discs) => s' == s.(t := DeleteDiscs(DeleteJobs(s.t, jobs), discs))
    case NewJob(id, disc, skip) => s' == s.(t := InsertJob(s.t, id, disc, s.t.discs[disc].driveId, skip))
    case DriveWrite(drive, st) =>
      s' == s.(t := OrElse(UpdateDriveState(s.t, drive, st), s.t), leaked := s.leaked - {drive})
    case Restart => s' == Sys(ResetIdentifying(s.t), map[], {})
  }

  ghost predicate Run(states: seq<Sys>, actions: seq<Action>) {
    && |states| == |actions| + 1
    && forall i :: 0 <= i < |actions| ==> Enabled(states[i], actions[i]) && Next(states[i], actions[i], states[i + 1])
  }

  // ---- what a drive and the rows are meant to keep ----

  ghost predicate OwnedBy(s: Sys, f: nat, drive: Id) {
    f in s.flows && Owns(s.flows[f]) && s.flows[f].drive == drive
  }

  ghost predicate Owned(s: Sys, drive: Id) {
    exists f :: OwnedBy(s, f, drive)
  }

  /** At most one flow owns the drive, and while one does no other can claim it. */
  ghost predicate Exclusive(s: Sys, d: Id) {
    && (forall f, g :: OwnedBy(s, f, d) && OwnedBy(s, g, d) ==> f == g)
    && (Owned(s, d) ==> !Claimable(s.t, d))
  }

  /** The drive is identifying exactly while it is owned or leaked, and never both. */
  ghost predicate Marked(s: Sys, d: Id) {
    && (d in s.t.drives && s.t.drives[d].state.Identifying? <==> d in s.leaked || Owned(s, d))
    && !(d in s.leaked && Owned(s, d))
  }

  /** A flow of the drive past its lookup by TOC hash has a disc with a hash no
      row of the drive has yet. */
  ghost predicate UnknownToc(s: Sys, d: Id) {
    forall f :: (f in s.flows && s.flows[f].drive == d && PastToc(s.flows[f]) && s.flows[f].found.toc != "") ==>
      forall r :: r in s.t.discs ==> !HasToc(s.t.discs[r], d, s.flows[f].found.toc)
  }

  predicate PastToc(f: Flow) {
    f.ByMetadata? || f.Inserting?
  }

  /** One row per drive and hash, references that hold, and flows of known
      drives: what every step keeps, whatever writes the drives. */
  ghost predicate RowsInv(s: Sys) {
    && OneRowPerToc(s.t)
    && (forall j :: j in s.t.jobs ==> s.t.jobs[j].discId in s.t.discs)
    && (forall f :: f in s.flows ==> FlowInv(s.flows[f], s.t))
  }

  predicate FlowInv(f: Flow, t: Tables) {
    f.drive in t.drives && f.drive != "" && (f.Releasing? ==> f.target.Idle? || f.target.Error?)
  }

  /** A job or an eject writes the state of a drive that a flow owns. */
  ghost predicate Intrudes(s: Sys, a: Action, d: Id) {
    a.DriveWrite? && a.drive == d && Owned(s, d)
  }

  /** It even writes a state from which the drive can be claimed. */
  ghost predicate Disturbs(s: Sys, a: Action, d: Id) {
    Intrudes(s, a, d) && (a.st.Idle? || a.st.Error?)
  }

  // ---- steps ----

  /** How many steps an owner is from its release, at most. */
  function Distance(f: Flow): nat {
    match f
    case Arrived(_, _) => 6
    case Claimed(_, _) => 5
    case ByToc(_, _) => 4
    case ByMetadata(_, _) => 3
    case Inserting(_, _) => 2
    case Refreshing(_, _, _) => 2
    case Releasing(_, _) => 1
  }

  /** The owner n moves on towards its release; no drive is written. */
  ghost predicate OwnerMoves(s: Sys, n: nat, s': Sys)
    requires n in s.flows
  {
    && n in s'.flows && s'.flows == s.flows[n := s'.flows[n]] && s'.leaked == s.leaked
    && s'.t.drives == s.t.drives && s'.t.jobs == s.t.jobs
    && Owns(s'.flows[n]) && s'.flows[n].drive == s.flows[n].drive && Distance(s'.flows[n]) < Distance(s.flows[n])
    && (s'.flows[n].Releasing? ==> s'.flows[n].target.Idle? || s'.flows[n].target.Error?)
    && s.t.discs.Keys <= s'.t.discs.Keys
  }

  lemma OwnerMovesOn(s: Sys, n: nat, act: FlowAct, s': Sys)
    requires n in s.flows && FlowEnabled(s, s.flows[n], act) && FlowNext(s, n, act, s')
    requires Owns(s.flows[n]) && !act.Release?
    ensures OwnerMoves(s, n, s')
  {
    if act.Lookup? {
      LookupMovesOn(s, n, act.fails, act.now, s');
    } else if act.Insert? {
      InsertMovesOn(s, n, act.id, act.fails, act.now, s');
    } else if act.Refresh? {
      RefreshMovesOn(s, n, act.outcome, s');
    }
  }

  lemma LookupMovesOn(s: Sys, n: nat, fails: bool, now: nat, s': Sys)
    requires n in s.flows && FlowEnabled(s, s.flows[n], Lookup(fails, now)) && FlowNext(s, n, Lookup(fails, now), s')
    ensures OwnerMoves(s, n, s')
  {
  }

  lemma InsertMovesOn(s: Sys, n: nat, id: Id, fails: bool, now: nat, s': Sys)
    requires n in s.flows && FlowEnabled(s, s.flows[n], Insert(id, fails, now))
    requires FlowNext(s, n, Insert(id, fails, now), s')
    ensures OwnerMoves(s, n, s')
  {
  }

  lemma RefreshMovesOn(s: Sys, n: nat, outcome: DiscFlow.Refresh, s': Sys)
    requires n in s.flows && FlowEnabled(s, s.flows[n], Refresh(outcome)) && FlowNext(s, n, Refresh(outcome), s')
    ensures OwnerMoves(s, n, s')
  {
  }

  // ---- one drive ----

  /** The step leaves the drive, its owner and its leak alone. */
  ghost predicate SameAt(s: Sys, s': Sys, d: Id) {
    && (d in s.t.drives <==> d in s'.t.drives)
    && (d in s.t.drives ==> s'.t.drives[d].state == s.t.drives[d].state)
    && (d in s.leaked <==> d in s'.leaked)
    && (forall f :: OwnedBy(s, f, d) <==> OwnedBy(s', f, d))
  }

  lemma SameAtKeeps(s: Sys, s': Sys, d: Id)
    requires SameAt(s, s', d)
    ensures Exclusive(s, d) ==> Exclusive(s', d)
    ensures Marked(s, d) ==> Marked(s', d)
  {
    OwnedSame(s, s', d);
  }

  lemma OwnedSame(s: Sys, s': Sys, d: Id)
    requires forall f :: OwnedBy(s, f, d) <==> OwnedBy(s', f, d)
    ensures Owned(s, d) <==> Owned(s', d)
  {
    if Owned(s, d) {
      var f :| OwnedBy(s, f, d);
      assert OwnedBy(s', f, d);
    }
    if Owned(s', d) {
      var f :| OwnedBy(s', f, d);
      assert OwnedBy(s, f, d);
    }
  }

  /** A step of a flow leaves the drive alone, unless it claims or releases it. */
  lemma FlowSameAt(s: Sys, n: nat, act: FlowAct, s': Sys, d: Id)
    requires n in s.flows && FlowEnabled(s, s.flows[n], act) && FlowNext(s, n, act, s')
    requires s.flows[n].drive != d || !(act.Release? || (act.Claim? && Claimable(s.t, d)))
    ensures SameAt(s, s', d)
  {
    if act.Release? {
      ReleaseSameAt(s, n, act.fails, s', d);
    } else if Owns(s.flows[n]) {
      OwnerMovesOn(s, n, act, s');
    }
  }

  lemma ReleaseSameAt(s: Sys, n: nat, fails: bool, s': Sys, d: Id)
    requires n in s.flows && s.flows[n].Releasing? && s.flows[n].drive != d && FlowNext(s, n, Release(fails), s')
    ensures SameAt(s, s', d)
  {
  }

  lemma OtherSameAt(s: Sys, a: Action, s': Sys, d: Id)
    requires Enabled(s, a) && Next(s, a, s') && !a.Advance? && !a.Restart? && !(a.DriveWrite? && a.drive == d)
    ensures SameAt(s, s', d)
  {
  }

  /** A claim that succeeds finds the drive without an owner. */
  lemma ClaimOwns(s: Sys, n: nat, s': Sys, d: Id)
    requires n in s.flows && s.flows[n].Arrived? && s.flows[n].drive == d && Claimable(s.t, d)
    requires Exclusive(s, d) && FlowNext(s, n, Claim, s')
    ensures Exclusive(s', d) && (Marked(s, d) ==> Marked(s', d))
  {
    assert OwnedBy(s', n, d);
    assert forall f :: OwnedBy(s', f, d) && f != n ==> OwnedBy(s, f, d);
  }

  /** A release leaves the drive without an owner. */
  lemma ReleaseDisowns(s: Sys, n: nat, fails: bool, s': Sys, d: Id)
    requires RowsInv(s) && n in s.flows && s.flows[n].Releasing? && s.flows[n].drive == d
    requires Exclusive(s, d) && FlowNext(s, n, Release(fails), s')
    ensures !Owned(s', d) && Exclusive(s', d) && (Marked(s, d) ==> Marked(s', d))
    ensures !fails ==> Claimable(s'.t, d)
  {
    assert OwnedBy(s, n, d) && FlowInv(s.flows[n], s.t);
    assert forall f :: OwnedBy(s', f, d) ==> OwnedBy(s, f, d) && f != n;
  }

  lemma FlowKeepsDrive(s: Sys, n: nat, act: FlowAct, s': Sys, d: Id)
    requires RowsInv(s) && Exclusive(s, d)
    requires n in s.flows && FlowEnabled(s, s.flows[n], act) && FlowNext(s, n, act, s')
    ensures Exclusive(s', d) && (Marked(s, d) ==> Marked(s', d))
  {
    if s.flows[n].drive == d && act.Release? {
      ReleaseDisowns(s, n, act.fails, s', d);
    } else if s.flows[n].drive == d && act.Claim? && Claimable(s.t, d) {
      ClaimOwns(s, n, s', d);
    } else {
      FlowSameAt(s, n, act, s', d);
      SameAtKeeps(s, s', d);
    }
  }

  lemma WriteAt(s: Sys, d: Id, st: DriveState, s': Sys)
    requires Enabled(s, DriveWrite(d, st)) && Next(s, DriveWrite(d, st), s') && Exclusive(s, d)
    ensures Exclusive(s', d) <==> !Disturbs(s, DriveWrite(d, st), d)
    ensures Marked(s', d) <==> !Intrudes(s, DriveWrite(d, st), d)
  {
    OwnedSame(s, s', d);
  }

  lemma RestartFrees(s: Sys, s': Sys, d: Id)
    requires Next(s, Restart, s')
    ensures Exclusive(s', d) && Marked(s', d) && !Owned(s', d)
  {
  }

  /** Which steps keep a drive exclusive: exactly those that do not write a
      claimable state under its owner. Other drives do not matter. */
  lemma StepKeepsExclusive(s: Sys, a: Action, s': Sys, d: Id)
    requires RowsInv(s) && Exclusive(s, d) && Enabled(s, a) && Next(s, a, s')
    ensures Exclusive(s', d) <==> !Disturbs(s, a, d)
  {
    if a.Advance? {
      FlowKeepsDrive(s, a.f, a.act, s', d);
    } else if a.Restart? {
      RestartFrees(s, s', d);
    } else if a.DriveWrite? && a.drive == d {
      WriteAt(s, d, a.st, s');
    } else {
      OtherSameAt(s, a, s', d);
      SameAtKeeps(s, s', d);
    }
  }

  /** Which steps keep "identifying exactly while owned or leaked": exactly those
      that do not write the drive under its owner. */
  lemma StepKeepsMarked(s: Sys, a: Action, s': Sys, d: Id)
    requires RowsInv(s) && Exclusive(s, d) && Marked(s, d) && Enabled(s, a) && Next(s, a, s')
    ensures Marked(s', d) <==> !Intrudes(s, a, d)
  {
    if a.Advance? {
      FlowKeepsDrive(s, a.f, a.act, s', d);
    } else if a.Restart? {
      RestartFrees(s, s', d);
    } else if a.DriveWrite? && a.drive == d {
      WriteAt(s, d, a.st, s');
    } else {
      OtherSameAt(s, a, s', d);
      SameAtKeeps(s, s', d);
    }
  }

  // ---- rows ----

  /** Every step keeps one row per drive and hash, references and flows in order. */
  lemma StepKeepsRows(s: Sys, a: Action, s': Sys)
    requires RowsInv(s) && Enabled(s, a) && Next(s, a, s')
    ensures RowsInv(s')
  {
    if a.Advance? {
      FlowKeepsRows(s, a.f, a.act, s');
    } else if a.Delete? {
      DeleteKeepsRows(s, a.jobs, a.discs, s');
    }
  }

  lemma FlowKeepsRows(s: Sys, n: nat, act: FlowAct, s': Sys)
    requires RowsInv(s) && n in s.flows && FlowEnabled(s, s.flows[n], act) && FlowNext(s, n, act, s')
    ensures RowsInv(s')
  {
    assert FlowInv(s.flows[n], s.t);
    if Owns(s.flows[n]) && !act.Release? {
      OwnerMovesOn(s, n, act, s');
      OwnerKeepsToc(s, n, act, s');
    }
  }

  lemma OwnerKeepsToc(s: Sys, n: nat, act: FlowAct, s': Sys)
    requires OneRowPerToc(s.t) && n in s.flows && FlowEnabled(s, s.flows[n], act) && FlowNext(s, n, act, s')
    requires Owns(s.flows[n])
    ensures OneRowPerToc(s'.t)
  {
    if act.Insert? {
      InsertKeepsToc(s, n, act.id, act.fails, act.now, s');
    } else {
      RowsSame(s, n, act, s');
    }
  }

  lemma InsertKeepsToc(s: Sys, n: nat, id: Id, fails: bool, now: nat, s': Sys)
    requires OneRowPerToc(s.t) && n in s.flows && FlowEnabled(s, s.flows[n], Insert(id, fails, now))
    requires FlowNext(s, n, Insert(id, fails, now), s')
    ensures OneRowPerToc(s'.t)
  {
  }

  /** Any jobs and discs may go, active or not: the cascades keep every reference. */
  lemma DeleteKeepsRows(s: Sys, jobs: set<Id>, discs: set<Id>, s': Sys)
    requires RowsInv(s) && s' == s.(t := DeleteDiscs(DeleteJobs(s.t, jobs), discs))
    ensures RowsInv(s')
  {
    var left := DeleteJobs(s.t, jobs);
    assert forall j :: j in left.jobs && left.jobs[j].discId in discs ==> j in JobsOfDiscs(left, discs);
  }

  /** Rows may go, and may change in title and metadata; there is no new one. */
  ghost predicate OldRows(t: Tables, t': Tables) {
    forall r :: r in t'.discs ==>
      r in t.discs && t'.discs[r].driveId == t.discs[r].driveId && t'.discs[r].toc == t.discs[r].toc
  }

  /** Only an insert brings a row. */
  lemma RowsSame(s: Sys, n: nat, act: FlowAct, s': Sys)
    requires n in s.flows && FlowEnabled(s, s.flows[n], act) && FlowNext(s, n, act, s') && !act.Insert?
    ensures OldRows(s.t, s'.t)
  {
    if act.Refresh? {
      RefreshRowsSame(s, n, act.outcome, s');
    }
  }

  lemma RefreshRowsSame(s: Sys, n: nat, outcome: DiscFlow.Refresh, s': Sys)
    requires n in s.flows && FlowEnabled(s, s.flows[n], Refresh(outcome)) && FlowNext(s, n, Refresh(outcome), s')
    ensures OldRows(s.t, s'.t)
  {
  }

  /** Only flow n moves, but not to a place that promises an unknown hash. */
  ghost predicate PromisesNothing(s: Sys, n: nat, s': Sys) {
    && (forall f :: f in s'.flows && f != n ==> f in s.flows && s'.flows[f] == s.flows[f])
    && (n in s'.flows ==> !PastToc(s'.flows[n]))
  }

  lemma OldRowsKeepToc(s: Sys, n: nat, s': Sys, d: Id)
    requires UnknownToc(s, d) && OldRows(s.t, s'.t) && PromisesNothing(s, n, s')
    ensures UnknownToc(s', d)
  {
  }

  lemma QuietlyMoves(s: Sys, n: nat, act: FlowAct, s': Sys)
    requires n in s.flows && FlowEnabled(s, s.flows[n], act) && FlowNext(s, n, act, s') && !act.Lookup?
    ensures PromisesNothing(s, n, s')
  {
    if act.Refresh? {
      RefreshPromisesNothing(s, n, act.outcome, s');
    }
  }

  lemma RefreshPromisesNothing(s: Sys, n: nat, outcome: DiscFlow.Refresh, s': Sys)
    requires n in s.flows && FlowEnabled(s, s.flows[n], Refresh(outcome)) && FlowNext(s, n, Refresh(outcome), s')
    ensures PromisesNothing(s, n, s')
  {
  }

  lemma InsertKeepsUnknown(s: Sys, n: nat, id: Id, fails: bool, now: nat, s': Sys, d: Id)
    requires UnknownToc(s, d) && Exclusive(s, d) && n in s.flows && FlowEnabled(s, s.flows[n], Insert(id, fails, now))
    requires FlowNext(s, n, Insert(id, fails, now), s')
    ensures UnknownToc(s', d)
  {
    QuietlyMoves(s, n, Insert(id, fails, now), s');
    if s.flows[n].drive == d {
      assert OwnedBy(s, n, d);
      assert forall f :: f in s.flows && s.flows[f].drive == d && PastToc(s.flows[f]) ==> OwnedBy(s, f, d);
    }
  }

  lemma LookupKeepsUnknown(s: Sys, n: nat, fails: bool, now: nat, s': Sys, d: Id)
    requires UnknownToc(s, d) && n in s.flows && FlowEnabled(s, s.flows[n], Lookup(fails, now))
    requires FlowNext(s, n, Lookup(fails, now), s')
    ensures UnknownToc(s', d)
  {
    var f := s.flows[n];
    if f.ByToc? && s'.flows[n].ByMetadata? && f.found.toc != "" {
      assert Hit(s, f, now, None);
      forall r | r in s.t.discs
        ensures !HasToc(s.t.discs[r], f.drive, f.found.toc)
      {
        var found := set e | e in s.t.discs && Matches(s.t.discs[e], f, now);
        assert HasToc(s.t.discs[r], f.drive, f.found.toc) ==> r in found;
      }
    }
  }

  lemma FlowKeepsUnknown(s: Sys, n: nat, act: FlowAct, s': Sys, d: Id)
    requires UnknownToc(s, d) && Exclusive(s, d)
    requires n in s.flows && FlowEnabled(s, s.flows[n], act) && FlowNext(s, n, act, s')
    ensures UnknownToc(s', d)
  {
    if act.Insert? {
      InsertKeepsUnknown(s, n, act.id, act.fails, act.now, s', d);
    } else if act.Lookup? {
      LookupKeepsUnknown(s, n, act.fails, act.now, s', d);
    } else {
      RowsSame(s, n, act, s');
      QuietlyMoves(s, n, act, s');
      OldRowsKeepToc(s, n, s', d);
    }
  }

  /** Steps on other drives, and writes of this one, do not matter: only two
      owners could spoil it. */
  lemma StepKeepsUnknown(s: Sys, a: Action, s': Sys, d: Id)
    requires UnknownToc(s, d) && Exclusive(s, d) && Enabled(s, a) && Next(s, a, s')
    ensures UnknownToc(s', d)
  {
    if a.Advance? {
      FlowKeepsUnknown(s, a.f, a.act, s', d);
    } else if a.Event? {
      OldRowsKeepToc(s, a.f, s', d);
    }
  }

  // ---- what it says about runs ----

  /** The state after start-up: no flow, no drive identifying. */
  ghost predicate Started(s: Sys) {
    && s.flows == map[] && s.leaked == {} && IdentifyingDrives(s.t) == {}
    && OneRowPerToc(s.t) && forall j :: j in s.t.jobs ==> s.t.jobs[j].discId in s.t.discs
  }

  /** Nothing has written a claimable state of this drive under its owner, up to
      state i. */
  ghost predicate Undisturbed(states: seq<Sys>, actions: seq<Action>, i: nat, d: Id)
    requires |states| == |actions| + 1 && i < |states|
  {
    forall k :: 0 <= k < i ==> !Disturbs(states[k], actions[k], d)
  }

  /** Nothing has written this drive at all under its owner, up to state i. */
  ghost predicate Unintruded(states: seq<Sys>, actions: seq<Action>, i: nat, d: Id)
    requires |states| == |actions| + 1 && i < |states|
  {
    forall k :: 0 <= k < i ==> !Intrudes(states[k], actions[k], d)
  }

  /** For every run, whatever is written under whom: at most one row per drive
      and TOC hash, and job references that hold. */
  lemma {:induction false} RowsStayUnique(states: seq<Sys>, actions: seq<Action>, i: nat)
    requires Run(states, actions) && Started(states[0]) && i < |states|
    ensures RowsInv(states[i])
  {
    if i > 0 {
      RowsStayUnique(states, actions, i - 1);
      StepKeepsRows(states[i - 1], actions[i - 1], states[i]);
    }
  }

  lemma {:induction false} RunKeepsExclusive(states: seq<Sys>, actions: seq<Action>, i: nat, d: Id)
    requires Run(states, actions) && Started(states[0]) && i < |states| && Undisturbed(states, actions, i, d)
    ensures Exclusive(states[i], d) && UnknownToc(states[i], d)
  {
    if i > 0 {
      RunKeepsExclusive(states, actions, i - 1, d);
      RowsStayUnique(states, actions, i - 1);
      StepKeepsExclusive(states[i - 1], actions[i - 1], states[i], d);
      StepKeepsUnknown(states[i - 1], actions[i - 1], states[i], d);
    }
  }

  /** Two flows never own one drive, unless its state was written back to idle or
      error under an owner. */
  lemma NeverTwoOwners(states: seq<Sys>, actions: seq<Action>, i: nat, d: Id, f: nat, g: nat)
    requires Run(states, actions) && Started(states[0]) && i < |states| && Undisturbed(states, actions, i, d)
    requires OwnedBy(states[i], f, d) && OwnedBy(states[i], g, d)
    ensures f == g && !Claimable(states[i].t, d)
  {
    RunKeepsExclusive(states, actions, i, d);
  }

  /** In the same runs the unique index never refuses a flow's insert. */
  lemma NoInsertIsRefused(states: seq<Sys>, actions: seq<Action>, i: nat, f: nat, id: Id, now: nat)
    requires Run(states, actions) && Started(states[0]) && i < |states|
    requires f in states[i].flows && states[i].flows[f].Inserting? && id !in states[i].t.discs
    requires Undisturbed(states, actions, i, states[i].flows[f].drive)
    ensures var g := states[i].flows[f];
            Insertable(states[i].t, id, Disc(g.drive, g.found.toc, g.found.metadataId, g.found.title, now))
  {
    RunKeepsExclusive(states, actions, i, states[i].flows[f].drive);
    RowsStayUnique(states, actions, i);
    assert FlowInv(states[i].flows[f], states[i].t);
  }

  lemma NoneIdentifying(s: Sys, d: Id)
    requires Started(s)
    ensures Marked(s, d)
  {
    assert forall e :: e in s.t.drives && s.t.drives[e].state.Identifying? ==> e in IdentifyingDrives(s.t);
  }

  lemma {:induction false} RunKeepsMarked(states: seq<Sys>, actions: seq<Action>, i: nat, d: Id)
    requires Run(states, actions) && Started(states[0]) && i < |states| && Unintruded(states, actions, i, d)
    ensures Exclusive(states[i], d) && Marked(states[i], d)
  {
    RunKeepsExclusive(states, actions, i, d);
    if i == 0 {
      NoneIdentifying(states[0], d);
    } else {
      RunKeepsMarked(states, actions, i - 1, d);
      RowsStayUnique(states, actions, i - 1);
      StepKeepsMarked(states[i - 1], actions[i - 1], states[i], d);
    }
  }

  /** A drive is identifying exactly while one flow owns it, unless the write
      that should have released it failed. Jobs and ejects may write it whenever
      nobody owns it, and any other drive at any time. */
  lemma IdentifyingMeansOwned(states: seq<Sys>, actions: seq<Action>, i: nat, d: Id)
    requires Run(states, actions) && Started(states[0]) && i < |states| && Unintruded(states, actions, i, d)
    requires d in states[i].t.drives && d !in states[i].leaked
    ensures states[i].t.drives[d].state.Identifying? <==> Owned(states[i], d)
    ensures forall f, g :: OwnedBy(states[i], f, d) && OwnedBy(states[i], g, d) ==> f == g
  {
    RunKeepsMarked(states, actions, i, d);
  }

  /** A flow that identifies a disc its drive already has a row for takes that
      row: it cannot insert another. */
  lemma KnownTocIsReused(s: Sys, n: nat, now: nat, s': Sys)
    requires OneRowPerToc(s.t) && n in s.flows && s.flows[n].ByToc? && s.flows[n].drive != ""
    requires s.flows[n].found.toc != "" && FlowNext(s, n, Lookup(false, now), s')
    requires exists d :: d in s.t.discs && HasToc(s.t.discs[d], s.flows[n].drive, s.flows[n].found.toc)
    ensures n in s'.flows && s'.flows[n].Refreshing? && s'.t == s.t
    ensures s'.flows[n].row in s.t.discs && HasToc(s.t.discs[s'.flows[n].row], s.flows[n].drive, s.flows[n].found.toc)
  {
    var f := s.flows[n];
    var d :| d in s.t.discs && HasToc(s.t.discs[d], f.drive, f.found.toc);
    var found := set e | e in s.t.discs && Matches(s.t.discs[e], f, now);
    assert d in found;
  }

  // ---- every exit path releases ----

  /** An owner only leaves by a release. Every other step it takes brings it
      closer to one, and nobody else moves it, short of a restart. */
  lemma OwnersHeadForRelease(s: Sys, a: Action, s': Sys, n: nat)
    requires Enabled(s, a) && Next(s, a, s') && n in s.flows && Owns(s.flows[n]) && !a.Restart?
    ensures a.Advance? && a.f == n ==>
              if a.act.Release? then n !in s'.flows
              else n in s'.flows && Owns(s'.flows[n]) && Distance(s'.flows[n]) < Distance(s.flows[n])
    ensures !(a.Advance? && a.f == n) ==> n in s'.flows && s'.flows[n] == s.flows[n]
  {
    if a.Advance? {
      if a.f == n {
        if !a.act.Release? {
          OwnerMovesOn(s, n, a.act, s');
        }
      } else {
        OnlyItself(s, a.f, a.act, s', n);
      }
    }
  }

  lemma OnlyItself(s: Sys, m: nat, act: FlowAct, s': Sys, n: nat)
    requires m in s.flows && FlowEnabled(s, s.flows[m], act) && FlowNext(s, m, act, s') && n in s.flows && n != m
    ensures n in s'.flows && s'.flows[n] == s.flows[n]
  {
    if Owns(s.flows[m]) && !act.Release? {
      OwnerMovesOn(s, m, act, s');
    }
  }

  /** A release that works frees the drive for the next claim. */
  lemma ReleaseFrees(s: Sys, n: nat, s': Sys)
    requires RowsInv(s) && n in s.flows && s.flows[n].Releasing? && Exclusive(s, s.flows[n].drive)
    requires FlowNext(s, n, Release(false), s')
    ensures Claimable(s'.t, s.flows[n].drive) && !Owned(s', s.flows[n].drive)
  {
    ReleaseDisowns(s, n, false, s', s.flows[n].drive);
  }

  /** A drive whose release failed stays deaf: every claim on it is refused,
      until a restart or somebody else's write. */
  lemma LeakedStaysDeaf(s: Sys, a: Action, s': Sys, d: Id)
    requires d in s.leaked && Marked(s, d) && Enabled(s, a) && Next(s, a, s')
    ensures !Claimable(s.t, d)
    ensures if a.Restart? then Claimable(s'.t, d) && d !in s'.leaked
            else if a.DriveWrite? && a.drive == d then d !in s'.leaked
            else d in s'.leaked && Marked(s', d)
  {
    if a.Advance? {
      if s.flows[a.f].drive == d && Owns(s.flows[a.f]) {
        assert OwnedBy(s, a.f, d);
        assert false;
      } else {
        FlowSameAt(s, a.f, a.act, s', d);
        SameAtKeeps(s, s', d);
      }
    } else if !a.Restart? && !(a.DriveWrite? && a.drive == d) {
      OtherSameAt(s, a, s', d);
      SameAtKeeps(s, s', d);
    }
  }

  // ---- the condition is exact ----

  lemma RunOn(states: seq<Sys>, actions: seq<Action>, a: Action, s': Sys)
    requires Run(states, actions) && Enabled(states[|actions|], a) && Next(states[|actions|], a, s')
    ensures Run(states + [s'], actions + [a])
  {
  }

  /** Every disturbance can end in two owners: one more event is enough. */
  lemma DisturbanceBreaksExclusion(s: Sys, d: Id, st: DriveState, n: nat, m: nat)
    returns (states: seq<Sys>, actions: seq<Action>)
    requires RowsInv(s) && OwnedBy(s, n, d) && (st.Idle? || st.Error?) && m !in s.flows
    ensures Run(states, actions) && states[0] == s
    ensures actions == [DriveWrite(d, st), Event(m, d, None), Advance(m, Claim)]
    ensures Disturbs(s, actions[0], d) && n != m
    ensures states[3].t.discs == s.t.discs && d in states[3].t.drives && d != ""
    ensures states[3].flows == s.flows[m := Claimed(d, None)]
    ensures OwnedBy(states[3], n, d) && OwnedBy(states[3], m, d)
  {
    assert FlowInv(s.flows[n], s.t);
    var s1 := s.(t := OrElse(UpdateDriveState(s.t, d, st), s.t), leaked := s.leaked - {d});
    states, actions := [s, s1], [DriveWrite(d, st)];
    var s2 := With(s1, m, Arrived(d, None));
    RunOn(states, actions, Event(m, d, None), s2);
    states, actions := states + [s2], actions + [Event(m, d, None)];
    var s3 := With(s2.(t := ClaimDrive(s2.t, d)), m, Claimed(d, None));
    RunOn(states, actions, Advance(m, Claim), s3);
    states, actions := states + [s3], actions + [Advance(m, Claim)];
    assert s2.flows[m := Claimed(d, None)] == s.flows[m := Claimed(d, None)];
  }

  lemma FlowGoesOn(states: seq<Sys>, actions: seq<Action>, n: nat, act: FlowAct, s': Sys)
    requires Run(states, actions)
    requires var s := states[|actions|]; n in s.flows && FlowEnabled(s, s.flows[n], act) && FlowNext(s, n, act, s')
    ensures Run(states + [s'], actions + [Advance(n, act)])
  {
    RunOn(states, actions, Advance(n, act), s');
  }

  /** A flow that has just claimed the drive finds no row for a disc it identifies
      by hash alone, and is about to insert it. */
  lemma FindsNothing(states: seq<Sys>, actions: seq<Action>, m: nat, d: Id, toc: string)
    returns (states': seq<Sys>, actions': seq<Action>)
    requires Run(states, actions)
    requires var s := states[|actions|];
             && m in s.flows && s.flows[m] == Claimed(d, None)
             && toc != "" && forall r :: r in s.t.discs ==> !HasToc(s.t.discs[r], d, toc)
    ensures Run(states', actions') && |actions'| == |actions| + 3
    ensures states <= states' && actions <= actions'
    ensures states'[|actions'|] == With(states[|actions|], m, Inserting(d, Fresh(toc, "", "")))
  {
    var s, found := states[|actions|], Fresh(toc, "", "");
    var s1, s2, s3 := With(s, m, ByToc(d, found)), With(s, m, ByMetadata(d, found)), With(s, m, Inserting(d, found));
    FlowGoesOn(states, actions, m, Identified(found), s1);
    states', actions' := states + [s1], actions + [Advance(m, Identified(found))];
    assert Hit(s1, s1.flows[m], 0, None) && s2 == With(s1, m, ByMetadata(d, found));
    FlowGoesOn(states', actions', m, Lookup(false, 0), s2);
    states', actions' := states' + [s2], actions' + [Advance(m, Lookup(false, 0))];
    assert Hit(s2, s2.flows[m], 0, None) && s3 == With(s2, m, Inserting(d, found));
    FlowGoesOn(states', actions', m, Lookup(false, 0), s3);
    states', actions' := states' + [s3], actions' + [Advance(m, Lookup(false, 0))];
  }

  /** And it can end in a refused insert: the owner was about to insert a disc,
      the second flow identifies the same one, and both find no row. */
  lemma DisturbanceBreaksInserts(s: Sys, d: Id, st: DriveState, n: nat, m: nat, id: Id, now: nat)
    returns (states: seq<Sys>, actions: seq<Action>)
    requires RowsInv(s) && UnknownToc(s, d) && (st.Idle? || st.Error?) && m !in s.flows && id !in s.t.discs
    requires n in s.flows && s.flows[n].Inserting? && s.flows[n].drive == d && s.flows[n].found.toc != ""
    ensures Run(states, actions) && |actions| == 7 && states[0] == s && actions[0] == DriveWrite(d, st)
    ensures m in states[7].flows && states[7].flows[m].Inserting? && states[7].flows[m].drive == d
    ensures forall i: Id, t: nat ::
              var g := states[7].flows[m].found;
              !Insertable(states[7].t, i, Disc(d, g.toc, g.metadataId, g.title, t))
  {
    var found := s.flows[n].found;
    states, actions := DisturbanceBreaksExclusion(s, d, st, n, m);
    states, actions := FindsNothing(states, actions, m, d, found.toc);
    var s6 := states[6];
    assert s6.flows[n] == s.flows[n] && s6.t.discs == s.t.discs;
    var row := Disc(d, found.toc, found.metadataId, found.title, now);
    var s7 := With(s6.(t := s6.t.(discs := s6.t.discs[id := row])), n, Releasing(d, DriveState.Idle));
    assert Insertable(s6.t, id, row);
    FlowGoesOn(states, actions, n, Insert(id, false, now), s7);
    states, actions := states + [s7], actions + [Advance(n, Insert(id, false, now))];
    assert HasToc(s7.t.discs[id], d, found.toc);
  }
}
