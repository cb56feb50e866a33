/** The step events every pipeline handler is meant to produce, and what they
    leave in the job's step rows, for any skip set, any failing step and either
    outcome of the eject (daemon/pipelines/steps.go and the handlers' Run). */
module StepTrace {
  import opened Wrappers
  import opened Schema
  import opened SinkTrace

  /** The canonical steps that are not skipped, in canonical order. */
  function Kept(steps: seq<StepId>, skip: set<StepId>): seq<StepId> {
    if steps == [] then []
    else if steps[0] in skip then Kept(steps[1..], skip)
    else [steps[0]] + Kept(steps[1..], skip)
  }

  function Order(skip: set<StepId>): seq<StepId> {
    Kept(CanonicalSteps(), skip)
  }

  /** The first k steps, each started and finished. */
  function Passed(order: seq<StepId>, k: nat): seq<SinkEvent>
    requires k <= |order|
  {
    if k == 0 then [] else Passed(order, k - 1) + [Start(order[k - 1]), Finish(order[k - 1])]
  }

  /** All but the last step pass. The last is the eject: a failed eject is
      reported, and then completed all the same. */
  function FullTrace(order: seq<StepId>, ejectFailed: bool): seq<SinkEvent>
    requires order != []
  {
    var last := order[|order| - 1];
    Passed(order, |order| - 1)
    + if ejectFailed then [Start(last), Fail(last), Finish(last)] else [Start(last), Finish(last)]
  }

  /** The steps before the k-th pass, and that one fails. */
  function BrokenTrace(order: seq<StepId>, k: nat): seq<SinkEvent>
    requires k < |order|
  {
    Passed(order, k) + [Start(order[k]), Fail(order[k])]
  }

  // ---- the steps of an order ----

  ghost predicate Distinct(order: seq<StepId>) {
    forall i, j :: 0 <= i < j < |order| ==> order[i] != order[j]
  }

  lemma {:induction false} KeptMembers(steps: seq<StepId>, skip: set<StepId>)
    ensures forall s :: s in Kept(steps, skip) <==> s in steps && s !in skip
  {
    if steps != [] {
      KeptMembers(steps[1..], skip);
      assert steps == [steps[0]] + steps[1..];
    }
  }

  lemma {:induction false} KeptSteps(steps: seq<StepId>, skip: set<StepId>)
    requires Distinct(steps)
    ensures Distinct(Kept(steps, skip))
    ensures forall s :: s in Kept(steps, skip) <==> s in steps && s !in skip
  {
    KeptMembers(steps, skip);
    if steps != [] {
      var rest := steps[1..];
      assert forall i :: 0 <= i < |rest| ==> rest[i] == steps[i + 1];
      KeptSteps(rest, skip);
    }
  }

  /** Where a step stands among the eight. */
  function Rank(s: StepId): nat {
    match s
    case Detect => 0
    case Identify => 1
    case Rip => 2
    case Transcode => 3
    case Compress => 4
    case Move => 5
    case Notify => 6
    case Eject => 7
  }

  lemma {:induction false} KeptInOrder(steps: seq<StepId>, skip: set<StepId>)
    requires forall i, j :: 0 <= i < j < |steps| ==> Rank(steps[i]) < Rank(steps[j])
    ensures forall i, j :: 0 <= i < j < |Kept(steps, skip)| ==> Rank(Kept(steps, skip)[i]) < Rank(Kept(steps, skip)[j])
  {
    if steps != [] {
      var rest := steps[1..];
      KeptInOrder(rest, skip);
      KeptMembers(rest, skip);
      var tail := Kept(rest, skip);
      forall i | 0 <= i < |tail|
        ensures Rank(steps[0]) < Rank(tail[i])
      {
        assert tail[i] in rest;
      }
    }
  }

  /** An order lists exactly the non-skipped steps, in canonical order. */
  lemma OrderIsCanonical(skip: set<StepId>)
    ensures forall s: StepId :: s in Order(skip) <==> s !in skip
    ensures forall i, j :: 0 <= i < j < |Order(skip)| ==> Rank(Order(skip)[i]) < Rank(Order(skip)[j])
    ensures Distinct(Order(skip))
  {
    var all := CanonicalSteps();
    assert forall i :: 0 <= i < 8 ==> Rank(all[i]) == i;
    forall s: StepId
      ensures s in all
    {
      assert all[Rank(s)] == s;
    }
    KeptInOrder(all, skip);
    assert Distinct(all);
    KeptSteps(all, skip);
  }

  // ---- at most one running step ----

  lemma {:induction false} DisciplinedSplit(cur: Option<StepId>, a: seq<SinkEvent>, b: seq<SinkEvent>)
    requires Disciplined(cur, a) && Disciplined(None, b)
    ensures Disciplined(cur, a + b)
    decreases a
  {
    if a == [] {
      assert a + b == b;
    } else {
      DisciplinedSplit(After(cur, a[0]), a[1..], b);
      assert (a + b)[1..] == a[1..] + b;
    }
  }

  lemma OneStep(s: StepId)
    ensures Disciplined(None, [Start(s), Finish(s)])
    ensures Disciplined(None, [Start(s), Fail(s)])
    ensures Disciplined(None, [Start(s), Fail(s), Finish(s)])
  {
    assert [Start(s), Finish(s)][1..] == [Finish(s)] && [Finish(s)][1..] == [];
    assert [Start(s), Fail(s)][1..] == [Fail(s)] && [Fail(s)][1..] == [];
    assert [Start(s), Fail(s), Finish(s)][1..] == [Fail(s), Finish(s)] && [Fail(s), Finish(s)][1..] == [Finish(s)];
    assert Disciplined(None, []);
  }

  lemma {:induction false} PassedIsDisciplined(order: seq<StepId>, k: nat)
    requires k <= |order|
    ensures Disciplined(None, Passed(order, k))
  {
    if k > 0 {
      PassedIsDisciplined(order, k - 1);
      OneStep(order[k - 1]);
      DisciplinedSplit(None, Passed(order, k - 1), [Start(order[k - 1]), Finish(order[k - 1])]);
    }
  }

  /** Both kinds of run meet the condition under which the job protocol admits a
      handler's events. */
  lemma TracesAreDisciplined(order: seq<StepId>, k: nat, ejectFailed: bool)
    requires k < |order|
    ensures Disciplined(None, FullTrace(order, ejectFailed)) && Disciplined(None, BrokenTrace(order, k))
  {
    var last := order[|order| - 1];
    OneStep(last);
    OneStep(order[k]);
    PassedIsDisciplined(order, |order| - 1);
    PassedIsDisciplined(order, k);
    DisciplinedSplit(None, Passed(order, |order| - 1),
                     if ejectFailed then [Start(last), Fail(last), Finish(last)] else [Start(last), Finish(last)]);
    DisciplinedSplit(None, Passed(order, k), [Start(order[k]), Fail(order[k])]);
  }

  // ---- the step rows ----

  /** A step's row after some events. */
  function RowAfter(row: StepState, s: StepId, trace: seq<SinkEvent>): StepState
    decreases trace
  {
    if trace == [] then row
    else RowAfter(if trace[0].step == s then Written(trace[0]) else row, s, trace[1..])
  }

  lemma {:induction false} RowSplit(row: StepState, s: StepId, a: seq<SinkEvent>, b: seq<SinkEvent>)
    ensures RowAfter(row, s, a + b) == RowAfter(RowAfter(row, s, a), s, b)
    decreases a
  {
    if a == [] {
      assert a + b == b;
    } else {
      RowSplit(if a[0].step == s then Written(a[0]) else row, s, a[1..], b);
      assert (a + b)[1..] == a[1..] + b;
    }
  }

  lemma RowOfEvent(row: StepState, s: StepId, e: SinkEvent)
    ensures RowAfter(row, s, [e]) == if e.step == s then Written(e) else row
  {
    assert [e][1..] == [];
  }

  lemma RowOfOne(row: StepState, s: StepId, e: StepId)
    ensures RowAfter(row, s, [Start(e), Finish(e)]) == if s == e then StepState.Done else row
    ensures RowAfter(row, s, [Start(e), Fail(e)]) == if s == e then StepState.Failed else row
    ensures RowAfter(row, s, [Start(e), Fail(e), Finish(e)]) == if s == e then StepState.Done else row
  {
    var started, failed := if s == e then StepState.Running else row, if s == e then StepState.Failed else row;
    RowOfEvent(row, s, Start(e));
    RowOfEvent(started, s, Finish(e));
    RowOfEvent(started, s, Fail(e));
    RowOfEvent(failed, s, Finish(e));
    RowSplit(row, s, [Start(e)], [Finish(e)]);
    RowSplit(row, s, [Start(e)], [Fail(e)]);
    RowSplit(row, s, [Start(e), Fail(e)], [Finish(e)]);
    assert [Start(e)] + [Finish(e)] == [Start(e), Finish(e)] && [Start(e)] + [Fail(e)] == [Start(e), Fail(e)];
    assert [Start(e), Fail(e)] + [Finish(e)] == [Start(e), Fail(e), Finish(e)];
  }

  lemma {:induction false} RowsPassed(order: seq<StepId>, k: nat, row: StepState, s: StepId)
    requires k <= |order|
    ensures RowAfter(row, s, Passed(order, k)) == if s in order[..k] then StepState.Done else row
  {
    if k > 0 {
      RowsPassed(order, k - 1, row, s);
      RowSplit(row, s, Passed(order, k - 1), [Start(order[k - 1]), Finish(order[k - 1])]);
      RowOfOne(RowAfter(row, s, Passed(order, k - 1)), s, order[k - 1]);
      assert order[..k] == order[..k - 1] + [order[k - 1]];
    }
  }

  /** The row a new job has for a step. */
  function Planned(skip: set<StepId>, s: StepId): StepState {
    FreshStep(s in skip).state
  }

  /** A run that returns nil leaves every step done, or skipped as planned, even
      when the eject failed. */
  lemma NilMeansAllDone(skip: set<StepId>, ejectFailed: bool, s: StepId)
    requires Order(skip) != []
    ensures RowAfter(Planned(skip, s), s, FullTrace(Order(skip), ejectFailed))
         == if s in skip then StepState.Skipped else StepState.Done
  {
    var order := Order(skip);
    OrderIsCanonical(skip);
    RowsOfFull(order, ejectFailed, Planned(skip, s), s);
    assert s in order <==> s !in skip;
  }

  lemma RowsOfFull(order: seq<StepId>, ejectFailed: bool, row: StepState, s: StepId)
    requires order != []
    ensures RowAfter(row, s, FullTrace(order, ejectFailed)) == if s in order then StepState.Done else row
  {
    var n := |order| - 1;
    var last := order[n];
    RowsPassed(order, n, row, s);
    RowSplit(row, s, Passed(order, n),
             if ejectFailed then [Start(last), Fail(last), Finish(last)] else [Start(last), Finish(last)]);
    RowOfOne(RowAfter(row, s, Passed(order, n)), s, last);
    assert order == order[..n] + [last];
  }

  /** A run that returns an error leaves exactly the step it broke at failed,
      every earlier step done and every later one pending, except those skipped. */
  lemma ErrorMeansOneFailed(skip: set<StepId>, k: nat, s: StepId)
    requires k < |Order(skip)|
    ensures RowAfter(Planned(skip, s), s, BrokenTrace(Order(skip), k))
         == if s in skip then StepState.Skipped
            else if Rank(s) < Rank(Order(skip)[k]) then StepState.Done
            else if s == Order(skip)[k] then StepState.Failed
            else StepState.Pending
  {
    var order, row := Order(skip), Planned(skip, s);
    OrderIsCanonical(skip);
    RowsPassed(order, k, row, s);
    RowSplit(row, s, Passed(order, k), [Start(order[k]), Fail(order[k])]);
    RowOfOne(RowAfter(row, s, Passed(order, k)), s, order[k]);
    if s !in skip {
      assert s in order;
      var i :| 0 <= i < |order| && order[i] == s;
      assert s in order[..k] <==> i < k by {
        if i < k {
          assert order[..k][i] == s;
        }
      }
      assert i < k ==> Rank(s) < Rank(order[k]);
      assert k < i ==> Rank(order[k]) < Rank(s);
    } else {
      assert s !in order[..k];
    }
  }

  /** No event of a run touches a skipped step. */
  lemma SkippedStepsNeverMove(skip: set<StepId>, k: nat, ejectFailed: bool)
    requires k < |Order(skip)|
    ensures forall e :: e in FullTrace(Order(skip), ejectFailed) ==> e.step !in skip
    ensures forall e :: e in BrokenTrace(Order(skip), k) ==> e.step !in skip
  {
    OrderIsCanonical(skip);
    PassedSteps(Order(skip), k);
    PassedSteps(Order(skip), |Order(skip)| - 1);
  }

  lemma {:induction false} PassedSteps(order: seq<StepId>, k: nat)
    requires k <= |order|
    ensures forall e :: e in Passed(order, k) ==> e.step in order
  {
    if k > 0 {
      PassedSteps(order, k - 1);
    }
  }

  // ---- the store ----

  /** The writes of a run, applied to the tables. */
  function Replay(t: Tables, job: Id, trace: seq<SinkEvent>, now: string): Tables
    decreases trace
  {
    if trace == [] then t
    else
      var written := UpdateJobStepState(t, job, trace[0].step, Written(trace[0]), now);
      Replay(if written.Some? then written.value else t, job, trace[1..], now)
  }

  lemma {:induction false} ReplayRow(t: Tables, job: Id, trace: seq<SinkEvent>, now: string, s: StepId)
    requires (job, s) in t.steps
    ensures var r := Replay(t, job, trace, now);
            (job, s) in r.steps && r.steps[(job, s)].state == RowAfter(t.steps[(job, s)].state, s, trace)
    decreases trace
  {
    if trace != [] {
      var written := UpdateJobStepState(t, job, trace[0].step, Written(trace[0]), now);
      ReplayRow(if written.Some? then written.value else t, job, trace[1..], now, s);
    }
  }

  /** A new job and a run that returns nil: in the store, all eight steps end
      done, or skipped as planned. */
  lemma StoreAfterNil(t: Tables, job: Id, disc: Id, drive: Id, skip: set<StepId>,
                      ejectFailed: bool, now: string, s: StepId)
    requires Order(skip) != []
    ensures var r := Replay(InsertJob(t, job, disc, drive, skip), job, FullTrace(Order(skip), ejectFailed), now);
            (job, s) in r.steps && r.steps[(job, s)].state == if s in skip then StepState.Skipped else StepState.Done
  {
    NewRow(t, job, disc, drive, skip, s);
    NilMeansAllDone(skip, ejectFailed, s);
    ReplayRow(InsertJob(t, job, disc, drive, skip), job, FullTrace(Order(skip), ejectFailed), now, s);
  }

  /** A new job and a run that returns an error: one step failed, the ones
      before it done, the ones after it pending, the skipped ones skipped. */
  lemma StoreAfterError(t: Tables, job: Id, disc: Id, drive: Id, skip: set<StepId>, k: nat, now: string, s: StepId)
    requires k < |Order(skip)|
    ensures var r := Replay(InsertJob(t, job, disc, drive, skip), job, BrokenTrace(Order(skip), k), now);
            (job, s) in r.steps
            && r.steps[(job, s)].state
               == if s in skip then StepState.Skipped
                  else if Rank(s) < Rank(Order(skip)[k]) then StepState.Done
                  else if s == Order(skip)[k] then StepState.Failed
                  else StepState.Pending
  {
    NewRow(t, job, disc, drive, skip, s);
    ErrorMeansOneFailed(skip, k, s);
    ReplayRow(InsertJob(t, job, disc, drive, skip), job, BrokenTrace(Order(skip), k), now, s);
  }

  lemma NewRow(t: Tables, job: Id, disc: Id, drive: Id, skip: set<StepId>, s: StepId)
    ensures var r := InsertJob(t, job, disc, drive, skip);
            (job, s) in r.steps && r.steps[(job, s)].state == Planned(skip, s)
  {
    assert CanonicalSteps()[Rank(s)] == s;
    assert (job, s) in StepRows(job, skip, CanonicalSteps());
  }
}
