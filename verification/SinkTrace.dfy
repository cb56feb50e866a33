/** What a pipeline handler does to its job's step rows, as a sequence of sink
    events (daemon/jobs/sink.go, OnStepStart, OnStepDone and OnStepFailed). */
module SinkTrace {
  import opened Wrappers
  import opened Schema

  datatype SinkEvent = Start(step: StepId) | Finish(step: StepId) | Fail(step: StepId)

  /** The step state an event writes. */
  function Written(e: SinkEvent): StepState {
    match e
    case Start(_) => StepState.Running
    case Finish(_) => StepState.Done
    case Fail(_) => StepState.Failed
  }

  /** The step left running by an event, given the one running before. */
  function After(cur: Option<StepId>, e: SinkEvent): Option<StepId> {
    if e.Start? then Some(e.step) else None
  }

  /** A step starts only when none is running, and only the running step, or
      one that has already ended, is ended. */
  predicate Allowed(cur: Option<StepId>, e: SinkEvent) {
    if e.Start? then cur.None? else cur.None? || cur == Some(e.step)
  }

  /** Never two steps running, and none left running at the end. */
  predicate Disciplined(cur: Option<StepId>, trace: seq<SinkEvent>)
    decreases trace
  {
    if trace == [] then cur.None?
    else Allowed(cur, trace[0]) && Disciplined(After(cur, trace[0]), trace[1..])
  }
}
