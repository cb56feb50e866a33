/** The sink between a pipeline handler and the store (daemon/jobs/sink.go):
    step transitions pass through at once, progress is throttled to one emission
    per interval and coalesced to the latest value. */
module Sink {
  import opened Wrappers
  import opened Schema
  import opened SinkTrace

  /** progressInterval, in nanoseconds */
  const INTERVAL: int := 1000000000

  datatype Progress = Progress(step: StepId, pct: real, speed: string, eta: int)

  /** What reaches the job row's progress columns and the event stream. */
  datatype Emission =
    | Reset(step: StepId)              // 0 %, at step start
    | Throttled(p: Progress, at: int)  // let through by OnProgress
    | Flushed(p: Progress)
    | Final(step: StepId)              // 100 %, at step completion

  /** lastProgressAt (None is the zero time), pendingProgress, currentStep */
  datatype State = State(last: Option<int>, pending: Option<Progress>, current: Option<StepId>)

  datatype Call =
    | OnStart(step: StepId)
    | OnProgress(p: Progress)
    | OnFlush
    | OnDone(step: StepId)
    | OnFail(step: StepId)

  /** A call and the clock at that moment. */
  datatype Timed = Timed(call: Call, at: int)

  // ---- the calls, as functions ----

  predicate Due(s: State, now: int) {
    s.last.None? || now - s.last.value >= INTERVAL
  }

  function WithoutStep(s: State, step: StepId): State {
    if s.current == Some(step) then s.(current := None) else s
  }

  function Next(s: State, e: Timed): State {
    match e.call
    case OnStart(step) => State(None, None, Some(step))
    case OnProgress(p) =>
      if Due(s, e.at) then s.(last := Some(e.at), pending := None) else s.(pending := Some(p))
    case OnFlush => s.(last := Some(e.at), pending := None)
    case OnDone(step) => WithoutStep(s.(last := Some(e.at), pending := None), step)
    case OnFail(step) => WithoutStep(s, step)
  }

  function FlushOf(s: State): seq<Emission> {
    if s.pending.Some? then [Flushed(s.pending.value)] else []
  }

  function Out(s: State, e: Timed): seq<Emission> {
    match e.call
    case OnStart(step) => [Reset(step)]
    case OnProgress(p) => if Due(s, e.at) then [Throttled(p, e.at)] else []
    case OnFlush => FlushOf(s)
    case OnDone(step) => FlushOf(s) + [Final(step)]
    case OnFail(_) => []
  }

  /** The sink after the first n calls made on it. */
  function StateAt(es: seq<Timed>, n: nat): State
    requires n <= |es|
  {
    if n == 0 then State(None, None, None) else Next(StateAt(es, n - 1), es[n - 1])
  }

  /** What call n emits. */
  function Emits(es: seq<Timed>, n: nat): seq<Emission>
    requires n < |es|
  {
    Out(StateAt(es, n), es[n])
  }

  /** The writes to the job's step rows. */
  function StepWrites(e: Call): seq<SinkEvent> {
    match e
    case OnStart(step) => [Start(step)]
    case OnDone(step) => [Finish(step)]
    case OnFail(step) => [Fail(step)]
    case _ => []
  }

  // ---- the object ----

  class PersistentSink {
    var lastProgressAt: Option<int>
    var pendingProgress: Option<Progress>
    var currentStep: Option<StepId>
    var emitted: seq<Emission>    // UpdateJobProgress writes, each published
    var trace: seq<SinkEvent>     // UpdateJobStepState writes, each published
    ghost var calls: seq<Timed>   // every call so far

    function Abstract(): State
      reads this
    {
      State(lastProgressAt, pendingProgress, currentStep)
    }

    /** The fields are what the functions above say of the calls so far. */
    ghost predicate Valid()
      reads this
    {
      Abstract() == StateAt(calls, |calls|)
    }

    /** The effect of one call, emissions and step writes included. */
    twostate predicate Did(e: Timed)
      requires old(Valid())
      reads this
    {
      && Valid() && calls == old(calls) + [e]
      && emitted == old(emitted) + Out(StateAt(old(calls), |old(calls)|), e)
      && trace == old(trace) + StepWrites(e.call)
    }

    constructor ()
      ensures Valid() && calls == [] && emitted == [] && trace == []
    {
      lastProgressAt, pendingProgress, currentStep := None, None, None;
      emitted, trace, calls := [], [], [];
    }

    ghost method Record(e: Timed)
      modifies this`calls
      ensures calls == old(calls) + [e]
      ensures StateAt(calls, |calls|) == Next(StateAt(old(calls), |old(calls)|), e)
    {
      StatePrefix(calls, e, |calls|);
      calls := calls + [e];
    }

    method OnStepStart(step: StepId, now: int)
      requires Valid()
      modifies this
      ensures Did(Timed(OnStart(step), now)) && trace == old(trace) + [Start(step)]
      ensures emitted == old(emitted) + [Reset(step)] && pendingProgress.None? && lastProgressAt.None?
    {
      trace := trace + [Start(step)];
      emitted := emitted + [Reset(step)];
      pendingProgress := None;
      lastProgressAt := None;
      currentStep := Some(step);
      Record(Timed(OnStart(step), now));
    }

    method OnProgress(p: Progress, now: int)
      requires Valid()
      modifies this
      ensures Did(Timed(Call.OnProgress(p), now)) && trace == old(trace)
      ensures if old(lastProgressAt).None? || now - old(lastProgressAt).value >= 1000000000
              then emitted == old(emitted) + [Throttled(p, now)] && pendingProgress.None? && lastProgressAt == Some(now)
              else emitted == old(emitted) && pendingProgress == Some(p) && lastProgressAt == old(lastProgressAt)
    {
      Record(Timed(Call.OnProgress(p), now));
      pendingProgress := Some(p);
      if lastProgressAt.Some? && now - lastProgressAt.value < INTERVAL {
        return;
      }
      var emit := pendingProgress.value;
      pendingProgress := None;
      lastProgressAt := Some(now);
      emitted := emitted + [Throttled(emit, now)];
    }

    method EmitPending(now: int)
      modifies `pendingProgress, `lastProgressAt, `emitted
      ensures pendingProgress == None && lastProgressAt == Some(now)
      ensures emitted == old(emitted) + FlushOf(old(Abstract()))
    {
      var pending := pendingProgress;
      pendingProgress := None;
      lastProgressAt := Some(now);
      if pending.Some? {
        emitted := emitted + [Flushed(pending.value)];
      }
    }

    method Flush(now: int)
      requires Valid()
      modifies this
      ensures Did(Timed(OnFlush, now)) && trace == old(trace)
      ensures pendingProgress.None? && lastProgressAt == Some(now)
      ensures emitted == old(emitted) + if old(pendingProgress).Some? then [Flushed(old(pendingProgress).value)] else []
    {
      EmitPending(now);
      Record(Timed(OnFlush, now));
    }

    method OnStepDone(step: StepId, now: int)
      requires Valid()
      modifies this
      ensures Did(Timed(OnDone(step), now)) && trace == old(trace) + [Finish(step)]
      ensures pendingProgress.None? && lastProgressAt == Some(now)
      ensures emitted == old(emitted)
                         + (if old(pendingProgress).Some? then [Flushed(old(pendingProgress).value)] else [])
                         + [Final(step)]
    {
      EmitPending(now);
      emitted := emitted + [Final(step)];
      if currentStep == Some(step) {
        currentStep := None;
      }
      trace := trace + [Finish(step)];
      Record(Timed(OnDone(step), now));
    }

    method OnStepFailed(step: StepId, now: int)
      requires Valid()
      modifies this
      ensures Did(Timed(OnFail(step), now)) && trace == old(trace) + [Fail(step)]
      ensures emitted == old(emitted)
      ensures pendingProgress == old(pendingProgress) && lastProgressAt == old(lastProgressAt)
    {
      if currentStep == Some(step) {
        currentStep := None;
      }
      trace := trace + [Fail(step)];
      Record(Timed(OnFail(step), now));
    }
  }

  lemma {:induction false} StatePrefix(es: seq<Timed>, e: Timed, n: nat)
    requires n <= |es|
    ensures StateAt(es + [e], n) == StateAt(es, n)
  {
    if n > 0 {
      StatePrefix(es, e, n - 1);
    }
  }

  // ---- throttling ----

  predicate Monotone(es: seq<Timed>) {
    forall i, j :: 0 <= i < j < |es| ==> es[i].at <= es[j].at
  }

  /** No step starts in calls a to b - 1. */
  predicate WithinOneStep(es: seq<Timed>, a: nat, b: nat)
    requires a <= b <= |es|
  {
    forall i :: a <= i < b ==> !es[i].call.OnStart?
  }

  /** Call n is an OnProgress that emits. */
  predicate Ticks(es: seq<Timed>, n: nat)
    requires n < |es|
  {
    es[n].call.OnProgress? && Emits(es, n) != []
  }

  /** How many of the calls a to b - 1 tick. */
  function TickCount(es: seq<Timed>, a: nat, b: nat): nat
    requires a <= b <= |es|
    decreases b
  {
    if a == b then 0 else TickCount(es, a, b - 1) + if Ticks(es, b - 1) then 1 else 0
  }

  lemma {:induction false} LastIsPast(es: seq<Timed>, n: nat)
    requires Monotone(es) && n < |es|
    ensures StateAt(es, n).last.Some? ==> StateAt(es, n).last.value <= es[n].at
  {
    if n > 0 {
      LastIsPast(es, n - 1);
    }
  }

  /** Since a tick at call a, the throttle's time has moved on by one interval
      for each further tick. */
  lemma {:induction false} ThrottleMoves(es: seq<Timed>, a: nat, b: nat)
    requires Monotone(es) && a < b <= |es| && WithinOneStep(es, a, b) && Ticks(es, a)
    ensures StateAt(es, b).last.Some?
    ensures StateAt(es, b).last.value - es[a].at >= (TickCount(es, a, b) - 1) * INTERVAL
    decreases b
  {
    if b == a + 1 {
      assert TickCount(es, a, a) == 0;
    } else {
      ThrottleMoves(es, a, b - 1);
      LastIsPast(es, b - 1);
    }
  }

  /** Within one step any n emissions by OnProgress span at least n - 1 intervals. */
  lemma ProgressRate(es: seq<Timed>, a: nat, b: nat)
    requires Monotone(es) && a < b < |es| && WithinOneStep(es, a, b) && Ticks(es, a) && Ticks(es, b)
    ensures es[b].at - es[a].at >= (TickCount(es, a, b + 1) - 1) * INTERVAL
  {
    ThrottleMoves(es, a, b);
    assert Due(StateAt(es, b), es[b].at);
  }

  /** Call k moves the throttle's time. */
  predicate Marks(es: seq<Timed>, k: nat)
    requires k < |es|
  {
    es[k].call.OnFlush? || es[k].call.OnDone? || Ticks(es, k)
  }

  lemma {:induction false} LastMark(es: seq<Timed>, n: nat) returns (k: int)
    requires n <= |es|
    ensures -1 <= k < n
    ensures k == -1 ==> StateAt(es, n).last.None?
    ensures k >= 0 ==> Marks(es, k) && WithinOneStep(es, k + 1, n) && StateAt(es, n).last == Some(es[k].at)
    ensures forall j :: k < j < n && Marks(es, j) ==> !WithinOneStep(es, j + 1, n)
  {
    if n == 0 || es[n - 1].call.OnStart? {
      k := -1;
    } else if Marks(es, n - 1) {
      k := n - 1;
    } else {
      k := LastMark(es, n - 1);
      forall j | k < j < n && Marks(es, j)
        ensures !WithinOneStep(es, j + 1, n)
      {
        assert j < n - 1 && !WithinOneStep(es, j + 1, n - 1);
      }
    }
  }

  /** A progress report is passed on exactly if, within its step, a second has
      gone by since every report, flush and completion before it. */
  lemma TicksExactly(es: seq<Timed>, n: nat)
    requires Monotone(es) && n < |es| && es[n].call.OnProgress?
    ensures Ticks(es, n) <==> forall k :: 0 <= k < n && Marks(es, k) && WithinOneStep(es, k + 1, n) ==>
                                es[n].at - es[k].at >= 1000000000
    ensures Ticks(es, n) ==> Emits(es, n) == [Throttled(es[n].call.p, es[n].at)]
  {
    var k := LastMark(es, n);
    if k >= 0 {
      assert Marks(es, k) && WithinOneStep(es, k + 1, n);
      assert Ticks(es, n) <==> es[n].at - es[k].at >= 1000000000;
      assert forall j :: 0 <= j <= k ==> es[j].at <= es[k].at;
    }
  }

  // ---- coalescing ----

  /** The call whose value is pending after the first n calls. */
  function PendingFrom(es: seq<Timed>, n: nat): Option<nat>
    requires n <= |es|
  {
    if n == 0 then None
    else
      match es[n - 1].call
      case OnProgress(_) => if Due(StateAt(es, n - 1), es[n - 1].at) then None else Some(n - 1)
      case OnFail(_) => PendingFrom(es, n - 1)
      case _ => None
  }

  /** The call whose value call n reports, if it reports one. */
  function Source(es: seq<Timed>, n: nat): Option<nat>
    requires n < |es|
  {
    match es[n].call
    case OnProgress(_) => if Due(StateAt(es, n), es[n].at) then Some(n) else None
    case OnFlush => PendingFrom(es, n)
    case OnDone(_) => PendingFrom(es, n)
    case _ => None
  }

  /** A pending value was received earlier in this step and not reported since. */
  lemma {:induction false} PendingIsReceived(es: seq<Timed>, n: nat)
    requires n <= |es|
    ensures var i := PendingFrom(es, n);
            && (i.None? <==> StateAt(es, n).pending.None?)
            && (i.Some? ==> && i.value < n && es[i.value].call.OnProgress?
                            && StateAt(es, n).pending == Some(es[i.value].call.p))
            && (i.Some? ==> forall k :: i.value <= k < n ==> Source(es, k).None? && !es[k].call.OnStart?)
  {
    if n > 0 {
      PendingIsReceived(es, n - 1);
    }
  }

  /** The first emission of a call, if it carries a reported value. */
  function ReportedBy(es: seq<Timed>, n: nat): Option<Progress>
    requires n < |es|
  {
    var out := Emits(es, n);
    if out != [] && (out[0].Throttled? || out[0].Flushed?) then Some(out[0].p) else None
  }

  /** Every value reported is the one some call handed to OnProgress, at or
      before the report and within the same step; a call reports at most one. */
  lemma ReportsReceived(es: seq<Timed>, n: nat)
    requires n < |es|
    ensures var i := Source(es, n);
            && (i.None? <==> ReportedBy(es, n).None?)
            && (i.Some? ==> && i.value <= n && es[i.value].call.OnProgress?
                            && ReportedBy(es, n) == Some(es[i.value].call.p)
                            && forall k :: i.value <= k < n ==> !es[k].call.OnStart?)
    ensures forall m :: 0 < m < |Emits(es, n)| ==> Emits(es, n)[m].Final?
  {
    PendingIsReceived(es, n);
  }

  /** The values reported form a subsequence of those received: later reports
      come from later calls. */
  lemma ReportsInOrder(es: seq<Timed>, m: nat, n: nat)
    requires m < n < |es| && Source(es, m).Some? && Source(es, n).Some?
    ensures Source(es, m).value < Source(es, n).value
  {
    PendingIsReceived(es, m);
    PendingIsReceived(es, n);
  }

  /** No pending value crosses a step start. */
  lemma StartForgets(es: seq<Timed>, a: nat, n: nat)
    requires a < n < |es| && es[a].call.OnStart? && Source(es, n).Some?
    ensures a < Source(es, n).value
  {
    PendingIsReceived(es, n);
  }

  /** Until another value arrives or a step starts, the one received last is
      pending or has been reported. */
  lemma {:induction false} LastIsKept(es: seq<Timed>, i: nat, n: nat)
    requires i < n <= |es| && es[i].call.OnProgress?
    requires forall k :: i < k < n ==> !es[k].call.OnProgress? && !es[k].call.OnStart?
    ensures PendingFrom(es, n) == Some(i) || exists k :: i <= k < n && Source(es, k) == Some(i)
  {
    if n == i + 1 {
      assert PendingFrom(es, n) == Some(i) || Source(es, i) == Some(i);
    } else {
      LastIsKept(es, i, n - 1);
      assert PendingFrom(es, n - 1) == Some(i) ==> PendingFrom(es, n) == Some(i) || Source(es, n - 1) == Some(i);
    }
  }

  /** When a step completes, the value received last has been reported, and the
      final 100 % comes after it. */
  lemma DoneReportsLast(es: seq<Timed>, i: nat, n: nat) returns (k: nat)
    requires i < n < |es| && es[i].call.OnProgress? && es[n].call.OnDone?
    requires forall k :: i < k < n ==> !es[k].call.OnProgress? && !es[k].call.OnStart?
    ensures i <= k <= n && ReportedBy(es, k) == Some(es[i].call.p)
    ensures var out := Emits(es, n); out != [] && out[|out| - 1] == Final(es[n].call.step)
  {
    LastIsKept(es, i, n);
    k := n;
    if PendingFrom(es, n) != Some(i) {
      k :| i <= k < n && Source(es, k) == Some(i);
    }
    ReportsReceived(es, k);
  }
}
