/** The pipeline handlers' Plan and Run for audio CDs, DVD-Video and PlayStation
    discs, and the shared notify and eject steps. The tools and the file system
    are given by their outcomes; whatever those are, a run writes the canonical
    step events (daemon/pipelines/audiocd, dvdvideo, psx, steps.go). */
module Handlers {
  import opened Wrappers
  import opened Schema
  import opened SinkTrace
  import opened StepTrace
  import opened Sink

  /** One progress report of a tool. */
  datatype Update = Update(pct: real, speed: string, eta: int)

  /** What a tool reports while it runs, and whether it succeeds. */
  datatype ToolRun = ToolRun(updates: seq<Update>, ok: bool)

  datatype StepPlan = StepPlan(id: StepId, skip: bool)

  const AUDIO_SKIP: set<StepId> := {Transcode, Compress}
  const DVD_SKIP: set<StepId> := {Compress}
  const PSX_SKIP: set<StepId> := {Transcode}

  // ---- plans ----

  /** The eight steps in canonical order, marked exactly as the handler skips them. */
  method Plan(skipped: set<StepId>) returns (out: seq<StepPlan>)
    ensures |out| == |CanonicalSteps()|
    ensures forall i :: 0 <= i < |out| ==> out[i].id == CanonicalSteps()[i] && (out[i].skip <==> out[i].id in skipped)
  {
    out := [];
    var steps := CanonicalSteps();
    for i := 0 to |steps|
      invariant |out| == i
      invariant forall j :: 0 <= j < i ==> out[j].id == steps[j] && (out[j].skip <==> out[j].id in skipped)
    {
      out := out + [StepPlan(steps[i], steps[i] in skipped)];
    }
  }

  // ---- effects ----

  /** The step of the first effect, from the i-th on, that fails. */
  function FirstFailure(effects: seq<(StepId, bool)>, i: nat := 0): Option<StepId>
    requires i <= |effects|
    decreases |effects| - i
  {
    if i == |effects| then None
    else if !effects[i].1 then Some(effects[i].0)
    else FirstFailure(effects, i + 1)
  }

  ghost predicate OkBefore(effects: seq<(StepId, bool)>, k: nat) {
    k <= |effects| && forall i :: 0 <= i < k ==> effects[i].1
  }

  lemma {:induction false} SkipOk(effects: seq<(StepId, bool)>, k: nat)
    requires OkBefore(effects, k)
    ensures FirstFailure(effects) == FirstFailure(effects, k)
  {
    if k > 0 {
      SkipOk(effects, k - 1);
    }
  }

  lemma FailsAt(effects: seq<(StepId, bool)>, k: nat)
    requires OkBefore(effects, k) && k < |effects| && !effects[k].1
    ensures FirstFailure(effects) == Some(effects[k].0)
  {
    SkipOk(effects, k);
  }

  lemma NeverFails(effects: seq<(StepId, bool)>)
    requires OkBefore(effects, |effects|)
    ensures FirstFailure(effects) == None
  {
    SkipOk(effects, |effects|);
  }

  /** What a run writes, given the step it fails at, if any. */
  function HandlerTrace(skip: set<StepId>, failed: Option<StepId>, ejectFailed: bool): seq<SinkEvent> {
    var order := Order(skip);
    if failed.None? then (if order == [] then [] else FullTrace(order, ejectFailed))
    else if failed.value in order then BrokenTrace(order, Position(order, failed.value))
    else []
  }

  function Position(order: seq<StepId>, s: StepId): (k: nat)
    requires s in order
    ensures k < |order| && order[k] == s
  {
    if order[0] == s then 0 else Position(order[1..], s) + 1
  }

  lemma CanonicalTails()
    ensures var all := CanonicalSteps();
            && all[1..] == [Identify, Rip, Transcode, Compress, Move, Notify, Eject]
            && all[1..][1..] == [Rip, Transcode, Compress, Move, Notify, Eject]
            && all[1..][1..][1..] == [Transcode, Compress, Move, Notify, Eject]
            && all[1..][1..][1..][1..] == [Compress, Move, Notify, Eject]
            && all[1..][1..][1..][1..][1..] == [Move, Notify, Eject]
  {
  }

  lemma LastThree(skip: set<StepId>)
    requires {Move, Notify, Eject} !! skip
    ensures Kept([Move, Notify, Eject], skip) == [Move, Notify, Eject]
  {
    assert [Move, Notify, Eject][1..] == [Notify, Eject] && [Notify, Eject][1..] == [Eject] && [Eject][1..] == [];
    assert Kept([Eject], skip) == [Eject];
    assert Kept([Notify, Eject], skip) == [Notify, Eject];
  }

  lemma AudioOrder()
    ensures Order(AUDIO_SKIP) == [Detect, Identify, Rip, Move, Notify, Eject]
  {
    CanonicalTails();
    LastThree(AUDIO_SKIP);
  }

  lemma DvdOrder()
    ensures Order(DVD_SKIP) == [Detect, Identify, Rip, Transcode, Move, Notify, Eject]
  {
    CanonicalTails();
    LastThree(DVD_SKIP);
  }

  lemma PsxOrder()
    ensures Order(PSX_SKIP) == [Detect, Identify, Rip, Compress, Move, Notify, Eject]
  {
    CanonicalTails();
    LastThree(PSX_SKIP);
  }

  /** `at` holds the trace before each step of a run, and at its end. */
  ghost predicate Connected(order: seq<StepId>, at: seq<seq<SinkEvent>>) {
    && |at| == |order| + 1
    && forall k :: 0 <= k < |order| ==> at[k + 1] == at[k] + [Start(order[k])] + [Finish(order[k])]
  }

  /** The trace after the k-th step failed. */
  ghost function Broken(order: seq<StepId>, at: seq<seq<SinkEvent>>, k: nat): seq<SinkEvent>
    requires k < |order| && Connected(order, at)
  {
    at[k] + [Start(order[k])] + [Fail(order[k])]
  }

  lemma Landmarks(before: seq<SinkEvent>, order: seq<StepId>) returns (at: seq<seq<SinkEvent>>)
    ensures Connected(order, at) && at[0] == before
    ensures forall k :: 0 <= k <= |order| ==> at[k] == before + Passed(order, k)
  {
    at := [before];
    for n := 0 to |order|
      invariant |at| == n + 1 && at[0] == before
      invariant forall k :: 0 <= k <= n ==> at[k] == before + Passed(order, k)
    {
      at := at + [before + Passed(order, n + 1)];
    }
    forall k | 0 <= k < |order|
      ensures at[k + 1] == at[k] + [Start(order[k])] + [Finish(order[k])]
    {
      OneMorePassed(before, order, k);
    }
  }

  lemma OneMorePassed(before: seq<SinkEvent>, order: seq<StepId>, k: nat)
    requires k < |order|
    ensures before + Passed(order, k + 1) == before + Passed(order, k) + [Start(order[k])] + [Finish(order[k])]
  {
  }

  lemma PositionIsUnique(order: seq<StepId>, i: nat)
    requires Distinct(order) && i < |order|
    ensures Position(order, order[i]) == i
  {
    var k := Position(order, order[i]);
    assert order[k] == order[i];
  }

  lemma BrokenAt(skip: set<StepId>, i: nat, ejectFailed: bool)
    requires i < |Order(skip)|
    ensures HandlerTrace(skip, Some(Order(skip)[i]), ejectFailed) == BrokenTrace(Order(skip), i)
  {
    OrderIsCanonical(skip);
    PositionIsUnique(Order(skip), i);
  }

  /** A run that failed inside step i wrote the handler's trace for that step. */
  lemma EndsBroken(before: seq<SinkEvent>, skip: set<StepId>, i: nat, at: seq<seq<SinkEvent>>, ejectFailed: bool)
    requires i < |Order(skip)| && Connected(Order(skip), at) && at[i] == before + Passed(Order(skip), i)
    ensures Broken(Order(skip), at, i) == before + HandlerTrace(skip, Some(Order(skip)[i]), ejectFailed)
  {
    BrokenAt(skip, i, ejectFailed);
    BreaksInside(before, Order(skip), i);
  }

  lemma BreaksInside(before: seq<SinkEvent>, order: seq<StepId>, i: nat)
    requires i < |order|
    ensures before + Passed(order, i) + [Start(order[i])] + [Fail(order[i])] == before + BrokenTrace(order, i)
  {
  }

  /** A run that reached the end wrote the full trace. */
  lemma EndsFull(before: seq<SinkEvent>, skip: set<StepId>, at: seq<seq<SinkEvent>>, ejectFailed: bool)
    requires var n := |Order(skip)|;
             && n > 0 && Order(skip)[n - 1] == Eject && Connected(Order(skip), at)
             && at[n - 1] == before + Passed(Order(skip), n - 1)
    ensures at[|Order(skip)| - 1] + EjectEvents(ejectFailed) == before + HandlerTrace(skip, None, ejectFailed)
  {
  }

  /** What the handlers' Run contracts follow from: where the run stopped, in
      its effects and in its steps. */
  lemma RunEnds(before: seq<SinkEvent>, after: seq<SinkEvent>, skip: set<StepId>, at: seq<seq<SinkEvent>>,
                effects: seq<(StepId, bool)>, ok: bool, k: nat, i: nat, ejectFailed: bool)
    requires var n := |Order(skip)|;
             && n > 0 && Order(skip)[n - 1] == Eject && Connected(Order(skip), at)
             && (forall m :: 0 <= m <= n ==> at[m] == before + Passed(Order(skip), m))
             && OkBefore(effects, k)
             && (ok ==> k == |effects| && after == at[n - 1] + EjectEvents(ejectFailed))
             && (!ok ==> k < |effects| && i < n && effects[k] == (Order(skip)[i], false)
                         && after == Broken(Order(skip), at, i))
    ensures ok <==> FirstFailure(effects).None?
    ensures after == before + HandlerTrace(skip, FirstFailure(effects), ejectFailed)
  {
    if ok {
      NeverFails(effects);
      EndsFull(before, skip, at, ejectFailed);
    } else {
      FailsAt(effects, k);
      EndsBroken(before, skip, i, at, ejectFailed);
    }
  }

  // ---- shared pieces ----

  /** The clock can show anything. */
  method Now() returns (t: int)
  {
    t := *;
  }

  /** A tool reports progress through the sink and moves no step. */
  method RunTool(sink: PersistentSink, step: StepId, run: ToolRun) returns (ok: bool)
    requires sink.Valid()
    modifies sink
    ensures sink.Valid() && sink.trace == old(sink.trace) && ok == run.ok
  {
    for i := 0 to |run.updates|
      invariant sink.Valid() && sink.trace == old(sink.trace)
    {
      var u := run.updates[i];
      var now := Now();
      sink.OnProgress(Progress(step, u.pct, u.speed, u.eta), now);
    }
    ok := run.ok;
  }

  method Started(sink: PersistentSink, step: StepId)
    requires sink.Valid()
    modifies sink
    ensures sink.Valid() && sink.trace == old(sink.trace) + [Start(step)]
  {
    var now := Now();
    sink.OnStepStart(step, now);
  }

  method Done(sink: PersistentSink, step: StepId)
    requires sink.Valid()
    modifies sink
    ensures sink.Valid() && sink.trace == old(sink.trace) + [Finish(step)]
  {
    var now := Now();
    sink.OnStepDone(step, now);
  }

  method Failed(sink: PersistentSink, step: StepId)
    requires sink.Valid()
    modifies sink
    ensures sink.Valid() && sink.trace == old(sink.trace) + [Fail(step)]
  {
    var now := Now();
    sink.OnStepFailed(step, now);
  }

  /** `apprise` is missing if there are no tools or it is not registered. */
  method RunNotifyStep(sink: PersistentSink, apprise: Option<ToolRun>)
    requires sink.Valid()
    modifies sink
    ensures sink.Valid() && sink.trace == old(sink.trace) + [Start(Notify)] + [Finish(Notify)]
  {
    Started(sink, Notify);
    if apprise.Some? {
      var _ := RunTool(sink, Notify, apprise.value);
    }
    Done(sink, Notify);
  }

  datatype EjectEnv = EjectEnv(hasTools: bool, devPath: string, shouldEject: bool, eject: Option<ToolRun>)

  function EjectEvents(failed: bool): seq<SinkEvent> {
    if failed then [Start(Eject), Fail(Eject), Finish(Eject)] else [Start(Eject), Finish(Eject)]
  }

  predicate EjectFails(env: EjectEnv) {
    env.hasTools && env.devPath != "" && env.shouldEject && env.eject.Some? && !env.eject.value.ok
  }

  /** The body of the eject step, before its deferred completion. `ran` tells
      whether the tray was opened, or was tried to. */
  method EjectBody(sink: PersistentSink, env: EjectEnv) returns (ran: bool)
    requires sink.Valid()
    modifies sink
    ensures ran <==> env.hasTools && env.devPath != "" && env.shouldEject && env.eject.Some?
    ensures sink.Valid() && sink.trace == old(sink.trace) + if ran && !env.eject.value.ok then [Fail(Eject)] else []
  {
    ran := false;
    if !env.hasTools || env.devPath == "" {
      return;
    }
    if !env.shouldEject {
      return;
    }
    if env.eject.None? {
      return;
    }
    ran := true;
    var ok := RunTool(sink, Eject, env.eject.value);
    if !ok {
      Failed(sink, Eject);
    }
  }

  /** A failed eject is reported and still completed: it never fails the job. */
  method RunEjectStep(sink: PersistentSink, env: EjectEnv) returns (ran: bool)
    requires sink.Valid()
    modifies sink
    ensures sink.Valid() && sink.trace == old(sink.trace) + EjectEvents(EjectFails(env))
    ensures ran <==> env.hasTools && env.devPath != "" && env.shouldEject && env.eject.Some?
    ensures EjectFails(env) <==> ran && !env.eject.value.ok
  {
    Started(sink, Eject);
    ran := EjectBody(sink, env);
    Done(sink, Eject);
  }

  /** Detect and identify are over when a job runs; they are passed for the record. */
  method PassEarlySteps(sink: PersistentSink, ghost order: seq<StepId>, ghost at: seq<seq<SinkEvent>>)
    requires sink.Valid() && Connected(order, at) && sink.trace == at[0]
    requires |order| >= 2 && order[0] == Detect && order[1] == Identify
    modifies sink
    ensures sink.Valid() && sink.trace == at[2]
  {
    Started(sink, Detect);
    Done(sink, Detect);
    Started(sink, Identify);
    Done(sink, Identify);
  }

  /** Notify and eject, the last two steps of every order. */
  method FinishJob(sink: PersistentSink, apprise: Option<ToolRun>, eject: EjectEnv,
                   ghost order: seq<StepId>, ghost at: seq<seq<SinkEvent>>)
    requires sink.Valid() && Connected(order, at)
    requires |order| >= 2 && order[|order| - 2] == Notify && sink.trace == at[|order| - 2]
    modifies sink
    ensures sink.Valid() && sink.trace == at[|order| - 1] + EjectEvents(EjectFails(eject))
  {
    RunNotifyStep(sink, apprise);
    var _ := RunEjectStep(sink, eject);
  }

  /** The move step, notify and eject: how every run ends if it gets that far. */
  method MoveAndFinish(sink: PersistentSink, rendered: bool, moved: bool, apprise: Option<ToolRun>, eject: EjectEnv,
                       ghost order: seq<StepId>, ghost at: seq<seq<SinkEvent>>)
    returns (ok: bool)
    requires sink.Valid() && Connected(order, at) && |order| >= 3
    requires order[|order| - 3] == Move && order[|order| - 2] == Notify && sink.trace == at[|order| - 3]
    modifies sink
    ensures sink.Valid() && ok == (rendered && moved)
    ensures sink.trace == if ok then at[|order| - 1] + EjectEvents(EjectFails(eject))
                          else Broken(order, at, |order| - 3)
  {
    Started(sink, Move);
    if !rendered {
      Failed(sink, Move);
      return false;
    }
    if !moved {
      Failed(sink, Move);
      return false;
    }
    Done(sink, Move);
    FinishJob(sink, apprise, eject, order, at);
    ok := true;
  }

  // ---- audio CD ----

  datatype AudioEnv = AudioEnv(workDir: bool, probe: bool, whipper: Option<ToolRun>, move: bool,
                               apprise: Option<ToolRun>, eject: EjectEnv)

  /** The fallible effects in program order, under the step that owns each. */
  function AudioEffects(env: AudioEnv): seq<(StepId, bool)> {
    [(Rip, env.workDir), (Rip, env.probe), (Rip, env.whipper.Some? && env.whipper.value.ok), (Move, env.move)]
  }

  /** The first effect of the rip that fails, or the first one after it. */
  ghost function AudioRipStop(env: AudioEnv): (k: nat)
    ensures k <= 3 && OkBefore(AudioEffects(env), k)
    ensures k < 3 ==> AudioEffects(env)[k] == (Rip, false)
  {
    if !env.workDir then 0
    else if !env.probe then 1
    else if env.whipper.None? || !env.whipper.value.ok then 2
    else 3
  }

  /** The rip step. */
  method RipAudio(sink: PersistentSink, env: AudioEnv, ghost order: seq<StepId>, ghost at: seq<seq<SinkEvent>>)
    returns (r: Result<(), string>, ghost k: nat)
    requires sink.Valid() && Connected(order, at) && |order| > 2 && order[2] == Rip && sink.trace == at[2]
    modifies sink
    ensures sink.Valid() && sink.trace == if r.Ok? then at[3] else Broken(order, at, 2)
    ensures k == AudioRipStop(env) && (r.Ok? <==> k == 3)
  {
    Started(sink, Rip);
    if !env.workDir {
      Failed(sink, Rip);
      return Err("work dir"), 0;
    }
    if !env.probe {
      Failed(sink, Rip);
      return Err("library probe"), 1;
    }
    if env.whipper.None? {
      Failed(sink, Rip);
      return Err("audiocd: whipper tool not registered"), 2;
    }
    var ripped := RunTool(sink, Rip, env.whipper.value);
    if !ripped {
      Failed(sink, Rip);
      return Err("whipper"), 2;
    }
    Done(sink, Rip);
    return Ok(()), 3;
  }

  /** The body of Run: k is the first effect that failed, inside the i-th step. */
  method AudioCdSteps(sink: PersistentSink, env: AudioEnv, ghost order: seq<StepId>, ghost at: seq<seq<SinkEvent>>)
    returns (r: Result<(), string>, ghost k: nat, ghost i: nat)
    requires sink.Valid() && Connected(order, at) && sink.trace == at[0]
    requires |order| == 6 && order[0] == Detect && order[1] == Identify && order[2] == Rip && order[3] == Move
    requires order[4] == Notify && order[5] == Eject
    modifies sink
    ensures sink.Valid() && OkBefore(AudioEffects(env), k)
    ensures r.Ok? ==> k == |AudioEffects(env)| && sink.trace == at[|order| - 1] + EjectEvents(EjectFails(env.eject))
    ensures r.Err? ==> k < |AudioEffects(env)| && i < |order| && AudioEffects(env)[k] == (order[i], false)
                       && sink.trace == Broken(order, at, i)
  {
    PassEarlySteps(sink, order, at);
    r, k := RipAudio(sink, env, order, at);
    i := 2;
    if r.Err? {
      return;
    }
    var moved := MoveAndFinish(sink, true, env.move, env.apprise, env.eject, order, at);
    if !moved {
      return Err("move"), 3, 3;
    }
    return Ok(()), 4, 3;
  }

  predicate AudioRips(env: AudioEnv) {
    env.workDir && env.probe && env.whipper.Some? && env.whipper.value.ok
  }

  /** The step at which a run fails, read off the outcomes of the tools. */
  lemma AudioFailure(env: AudioEnv)
    ensures FirstFailure(AudioEffects(env))
         == if !AudioRips(env) then Some(Rip) else if !env.move then Some(Move) else None
  {
    var k := AudioRipStop(env);
    if k < 3 || !env.move {
      FailsAt(AudioEffects(env), k);
    } else {
      NeverFails(AudioEffects(env));
    }
  }

  /** Run, for whatever set of skipped steps gives this order. */
  method RunAudioOn(sink: PersistentSink, env: AudioEnv, ghost skip: set<StepId>) returns (r: Result<(), string>)
    requires sink.Valid()
    requires Order(skip) == [Detect, Identify, Rip, Move, Notify, Eject]
    modifies sink
    ensures sink.Valid()
    ensures r.Ok? <==> FirstFailure(AudioEffects(env)).None?
    ensures sink.trace == old(sink.trace) + HandlerTrace(skip, FirstFailure(AudioEffects(env)), EjectFails(env.eject))
  {
    ghost var before := sink.trace;
    ghost var at := Landmarks(before, Order(skip));
    ghost var k, i;
    r, k, i := AudioCdSteps(sink, env, Order(skip), at);
    RunEnds(before, sink.trace, skip, at, AudioEffects(env), r.Ok?, k, i, EjectFails(env.eject));
  }

  method RunAudioCd(sink: PersistentSink, env: AudioEnv) returns (r: Result<(), string>)
    requires sink.Valid()
    modifies sink
    ensures sink.Valid()
    ensures r.Ok? <==> AudioRips(env) && env.move
    ensures r.Ok? <==> FirstFailure(AudioEffects(env)).None?
    ensures sink.trace == old(sink.trace)
                          + HandlerTrace(AUDIO_SKIP, FirstFailure(AudioEffects(env)), EjectFails(env.eject))
  {
    AudioOrder();
    r := RunAudioOn(sink, env, AUDIO_SKIP);
    AudioFailure(env);
  }

  // ---- DVD-Video ----

  datatype Encode = Encode(run: ToolRun, valid: bool)

  /** `scan` gives the titles chosen by the profile, if the scan works; a movie
      profile encodes `feature` alone, if it passes the checks. */
  datatype DvdEnv = DvdEnv(workDir: bool, probe: bool, backup: Option<ToolRun>, scanner: bool, ripDir: bool,
                           scan: Option<seq<nat>>, handbrake: bool, isMovie: bool, feature: nat, featureOk: bool,
                           encode: nat -> Encode, move: bool, apprise: Option<ToolRun>, eject: EjectEnv)

  function Titles(env: DvdEnv): seq<nat> {
    if env.isMovie then [env.feature] else if env.scan.Some? then env.scan.value else []
  }

  predicate TitlesOk(env: DvdEnv) {
    if env.isMovie then env.featureOk else Titles(env) != []
  }

  predicate Encoded(env: DvdEnv, title: nat) {
    env.encode(title).run.ok && env.encode(title).valid
  }

  function EncodeEffects(env: DvdEnv, titles: seq<nat>): (effects: seq<(StepId, bool)>)
    ensures |effects| == |titles|
    ensures forall i :: 0 <= i < |titles| ==> effects[i] == (Transcode, Encoded(env, titles[i]))
  {
    seq(|titles|, (i: nat) requires i < |titles| => (Transcode, Encoded(env, titles[i])))
  }

  function DvdPrepare(env: DvdEnv): seq<(StepId, bool)> {
    [(Rip, env.workDir), (Rip, env.probe), (Rip, env.backup.Some?), (Rip, env.scanner), (Rip, env.ripDir),
     (Rip, env.backup.Some? && env.backup.value.ok),
     (Transcode, env.scan.Some?), (Transcode, env.handbrake), (Transcode, TitlesOk(env))]
  }

  function DvdEffects(env: DvdEnv): seq<(StepId, bool)> {
    DvdPrepare(env) + EncodeEffects(env, Titles(env)) + [(Move, env.move)]
  }

  /** The effects of a run, place by place. */
  ghost predicate DvdShape(env: DvdEnv, effects: seq<(StepId, bool)>) {
    && |effects| == 10 + |Titles(env)| && effects[|effects| - 1] == (Move, env.move)
    && (forall j :: 0 <= j < 9 ==> effects[j] == DvdPrepare(env)[j])
    && (forall j :: 9 <= j < |effects| - 1 ==> effects[j] == (Transcode, Encoded(env, Titles(env)[j - 9])))
  }

  lemma DvdEffectsShape(env: DvdEnv)
    ensures DvdShape(env, DvdEffects(env))
  {
    Concatenation(DvdPrepare(env), EncodeEffects(env, Titles(env)), [(Move, env.move)]);
  }

  lemma Concatenation(a: seq<(StepId, bool)>, b: seq<(StepId, bool)>, c: seq<(StepId, bool)>)
    ensures forall i :: 0 <= i < |a| ==> (a + b + c)[i] == a[i]
    ensures forall i :: |a| <= i < |a| + |b| ==> (a + b + c)[i] == b[i - |a|]
    ensures forall i :: 0 <= i < |c| ==> (a + b + c)[|a| + |b| + i] == c[i]
  {
  }

  /** The first effect of the rip that fails, or the first one after it. */
  ghost function DvdRipStop(env: DvdEnv): (k: nat)
    ensures k <= 6 && OkBefore(DvdPrepare(env), k)
    ensures k < 6 ==> DvdPrepare(env)[k] == (Rip, false)
  {
    if !env.workDir then 0
    else if !env.probe then 1
    else if env.backup.None? then 2
    else if !env.scanner then 3
    else if !env.ripDir then 4
    else if !env.backup.value.ok then 5
    else 6
  }

  /** The rip step. */
  method RipDvd(sink: PersistentSink, env: DvdEnv, ghost order: seq<StepId>, ghost at: seq<seq<SinkEvent>>)
    returns (ok: bool, ghost k: nat)
    requires sink.Valid() && Connected(order, at) && |order| > 2 && order[2] == Rip && sink.trace == at[2]
    modifies sink
    ensures sink.Valid() && sink.trace == if ok then at[3] else Broken(order, at, 2)
    ensures k == DvdRipStop(env) && (ok <==> k == 6)
  {
    Started(sink, Rip);
    ok, k := false, 0;
    if !env.workDir {
      Failed(sink, Rip);
      return;
    }
    k := 1;
    if !env.probe {
      Failed(sink, Rip);
      return;
    }
    k := 2;
    if env.backup.None? {
      Failed(sink, Rip);
      return;
    }
    k := 3;
    if !env.scanner {
      Failed(sink, Rip);
      return;
    }
    k := 4;
    if !env.ripDir {
      Failed(sink, Rip);
      return;
    }
    k := 5;
    var mirrored := RunTool(sink, Rip, env.backup.value);
    if !mirrored {
      Failed(sink, Rip);
      return;
    }
    k := 6;
    Done(sink, Rip);
    ok := true;
  }

  /** Encodes the titles in order until one fails; `encoded` are those that worked. */
  method EncodeTitles(sink: PersistentSink, env: DvdEnv, titles: seq<nat>) returns (ok: bool, encoded: seq<nat>)
    requires sink.Valid()
    modifies sink
    ensures sink.Valid() && sink.trace == old(sink.trace)
    ensures encoded <= titles && forall t :: t in encoded ==> Encoded(env, t)
    ensures ok ==> encoded == titles
    ensures !ok ==> encoded != titles && !Encoded(env, titles[|encoded|])
  {
    encoded := [];
    for n := 0 to |titles|
      invariant sink.Valid() && sink.trace == old(sink.trace)
      invariant encoded == titles[..n] && forall t :: t in encoded ==> Encoded(env, t)
    {
      var e := env.encode(titles[n]);
      var ran := RunTool(sink, Transcode, e.run);
      if !ran || !e.valid {
        return false, encoded;
      }
      encoded := encoded + [titles[n]];
    }
    ok := true;
  }

  /** The transcode step, once the rip passed. */
  method TranscodeDvd(sink: PersistentSink, env: DvdEnv, ghost effects: seq<(StepId, bool)>,
                      ghost order: seq<StepId>, ghost at: seq<seq<SinkEvent>>)
    returns (ok: bool, encoded: seq<nat>, ghost k: nat)
    requires DvdShape(env, effects)
    requires sink.Valid() && Connected(order, at) && |order| > 3 && order[3] == Transcode && sink.trace == at[3]
    requires OkBefore(DvdPrepare(env), 6)
    modifies sink
    ensures sink.Valid() && sink.trace == if ok then at[4] else Broken(order, at, 3)
    ensures k < |effects| && OkBefore(effects, k)
    ensures ok ==> k == |effects| - 1 && encoded == Titles(env)
    ensures !ok ==> effects[k] == (Transcode, false)
  {
    Started(sink, Transcode);
    ok, encoded := false, [];
    if env.scan.None? {
      Failed(sink, Transcode);
      k := 6;
      EarlierEffects(env, effects, 6, 0);
      return;
    }
    if !env.handbrake {
      Failed(sink, Transcode);
      k := 7;
      EarlierEffects(env, effects, 7, 0);
      return;
    }
    var titles := if env.isMovie then [env.feature] else env.scan.value;
    if !TitlesOk(env) {
      Failed(sink, Transcode);
      k := 8;
      EarlierEffects(env, effects, 8, 0);
      return;
    }
    ok, encoded := EncodeTitles(sink, env, titles);
    k := 9 + |encoded|;
    EarlierEffects(env, effects, 9, |encoded|);
    if !ok {
      Failed(sink, Transcode);
      return;
    }
    Done(sink, Transcode);
  }

  /** All went well up to the k-th effect of the preparation, and, if that is
      over, with the first n titles. */
  lemma EarlierEffects(env: DvdEnv, effects: seq<(StepId, bool)>, k: nat, n: nat)
    requires DvdShape(env, effects)
    requires k <= 9 && OkBefore(DvdPrepare(env), k) && n <= |Titles(env)| && (n == 0 || k == 9)
    requires forall i :: 0 <= i < n ==> Encoded(env, Titles(env)[i])
    ensures OkBefore(effects, k + n)
    ensures k < 9 ==> effects[k] == DvdPrepare(env)[k]
    ensures k == 9 && n < |Titles(env)| ==> effects[9 + n] == (Transcode, Encoded(env, Titles(env)[n]))
  {
  }

  /** Everything up to the move: k is the first effect that failed, inside the
      i-th step, or the move. */
  method EncodeDvd(sink: PersistentSink, env: DvdEnv, ghost effects: seq<(StepId, bool)>,
                   ghost order: seq<StepId>, ghost at: seq<seq<SinkEvent>>)
    returns (r: Result<(), string>, encoded: seq<nat>, ghost k: nat, ghost i: nat)
    requires DvdShape(env, effects)
    requires sink.Valid() && Connected(order, at) && sink.trace == at[0]
    requires |order| > 3 && order[0] == Detect && order[1] == Identify && order[2] == Rip && order[3] == Transcode
    modifies sink
    ensures sink.Valid() && k < |effects| && OkBefore(effects, k)
    ensures r.Ok? ==> k == |effects| - 1 && encoded == Titles(env) && sink.trace == at[4]
    ensures r.Err? ==> i < 4 && effects[k] == (order[i], false) && sink.trace == Broken(order, at, i)
  {
    encoded, i := [], 2;
    PassEarlySteps(sink, order, at);
    var ok;
    ok, k := RipDvd(sink, env, order, at);
    if !ok {
      EarlierEffects(env, effects, k, 0);
      return Err("rip"), encoded, k, i;
    }
    ok, encoded, k := TranscodeDvd(sink, env, effects, order, at);
    i := 3;
    r := if ok then Ok(()) else Err("transcode");
  }

  /** The body of Run: k is the first effect that failed, inside the i-th step. */
  method DvdVideoSteps(sink: PersistentSink, env: DvdEnv, ghost effects: seq<(StepId, bool)>,
                       ghost order: seq<StepId>, ghost at: seq<seq<SinkEvent>>)
    returns (r: Result<(), string>, encoded: seq<nat>, ghost k: nat, ghost i: nat)
    requires DvdShape(env, effects)
    requires sink.Valid() && Connected(order, at) && sink.trace == at[0]
    requires |order| == 7 && order[0] == Detect && order[1] == Identify && order[2] == Rip && order[3] == Transcode
    requires order[4] == Move && order[5] == Notify && order[6] == Eject
    modifies sink
    ensures sink.Valid() && OkBefore(effects, k)
    ensures r.Ok? ==> encoded == Titles(env)
    ensures r.Ok? ==> k == |effects| && sink.trace == at[|order| - 1] + EjectEvents(EjectFails(env.eject))
    ensures r.Err? ==> k < |effects| && i < |order| && effects[k] == (order[i], false)
                       && sink.trace == Broken(order, at, i)
  {
    r, encoded, k, i := EncodeDvd(sink, env, effects, order, at);
    if r.Err? {
      return;
    }
    var moved := MoveAndFinish(sink, true, env.move, env.apprise, env.eject, order, at);
    if !moved {
      return Err("move"), encoded, k, 4;
    }
    k := k + 1;
  }

  /** Run, for effects of this shape and whatever set of skipped steps gives this order. */
  method RunDvdOn(sink: PersistentSink, env: DvdEnv, ghost effects: seq<(StepId, bool)>, ghost skip: set<StepId>)
    returns (r: Result<(), string>, encoded: seq<nat>)
    requires sink.Valid() && DvdShape(env, effects)
    requires Order(skip) == [Detect, Identify, Rip, Transcode, Move, Notify, Eject]
    modifies sink
    ensures sink.Valid()
    ensures r.Ok? <==> FirstFailure(effects).None?
    ensures r.Ok? ==> encoded == Titles(env)
    ensures sink.trace == old(sink.trace) + HandlerTrace(skip, FirstFailure(effects), EjectFails(env.eject))
  {
    ghost var before := sink.trace;
    ghost var at := Landmarks(before, Order(skip));
    ghost var k, i;
    r, encoded, k, i := DvdVideoSteps(sink, env, effects, Order(skip), at);
    RunEnds(before, sink.trace, skip, at, effects, r.Ok?, k, i, EjectFails(env.eject));
  }

  predicate DvdRips(env: DvdEnv) {
    && env.workDir && env.probe && env.backup.Some? && env.scanner && env.ripDir && env.backup.value.ok
  }

  predicate DvdTranscodes(env: DvdEnv) {
    && env.scan.Some? && env.handbrake
    && if env.isMovie then env.featureOk && env.encode(env.feature).run.ok && env.encode(env.feature).valid
       else env.scan.value != []
            && forall i :: 0 <= i < |env.scan.value| ==>
                 env.encode(env.scan.value[i]).run.ok && env.encode(env.scan.value[i]).valid
  }

  /** The step at which a run fails, read off the outcomes of the tools. */
  lemma DvdFailure(env: DvdEnv)
    ensures FirstFailure(DvdEffects(env))
         == if !DvdRips(env) then Some(Rip) else if !DvdTranscodes(env) then Some(Transcode)
            else if !env.move then Some(Move) else None
  {
    DvdEffectsShape(env);
    var effects, k := DvdEffects(env), DvdRipStop(env);
    if k < 6 {
      EarlierEffects(env, effects, k, 0);
      FailsAt(effects, k);
    } else if !DvdTranscodes(env) {
      k := DvdTranscodeStop(env, effects);
      FailsAt(effects, k);
    } else {
      EarlierEffects(env, effects, 9, |Titles(env)|);
      if env.move {
        NeverFails(effects);
      } else {
        FailsAt(effects, |effects| - 1);
      }
    }
  }

  lemma DvdTranscodeStop(env: DvdEnv, effects: seq<(StepId, bool)>) returns (k: nat)
    requires DvdShape(env, effects) && DvdRips(env) && !DvdTranscodes(env)
    ensures k < |effects| && OkBefore(effects, k) && effects[k] == (Transcode, false)
  {
    k := if env.scan.None? then 6 else if !env.handbrake then 7 else if !TitlesOk(env) then 8 else 9;
    var n: nat := 0;
    if k == 9 {
      n := EncodedUpTo(env, Titles(env));
      assert n < |Titles(env)| by {
        if env.isMovie {
          assert Titles(env)[0] == env.feature;
        } else {
          var i :| 0 <= i < |env.scan.value| && !Encoded(env, env.scan.value[i]);
          assert n <= i;
        }
      }
    }
    assert OkBefore(DvdPrepare(env), k);
    EarlierEffects(env, effects, k, n);
    k := k + n;
  }

  /** How many titles are encoded before one fails. */
  lemma EncodedUpTo(env: DvdEnv, titles: seq<nat>) returns (n: nat)
    ensures n <= |titles| && forall i :: 0 <= i < n ==> Encoded(env, titles[i])
    ensures n < |titles| ==> !Encoded(env, titles[n])
  {
    n := 0;
    while n < |titles| && Encoded(env, titles[n])
      invariant n <= |titles| && forall i :: 0 <= i < n ==> Encoded(env, titles[i])
    {
      n := n + 1;
    }
  }

  method RunDvdVideo(sink: PersistentSink, env: DvdEnv) returns (r: Result<(), string>, encoded: seq<nat>)
    requires sink.Valid()
    modifies sink
    ensures sink.Valid()
    ensures r.Ok? <==> DvdRips(env) && DvdTranscodes(env) && env.move
    ensures r.Ok? ==> encoded == if env.isMovie then [env.feature] else env.scan.value
    ensures r.Ok? <==> FirstFailure(DvdEffects(env)).None?
    ensures sink.trace == old(sink.trace)
                          + HandlerTrace(DVD_SKIP, FirstFailure(DvdEffects(env)), EjectFails(env.eject))
  {
    DvdEffectsShape(env);
    DvdOrder();
    r, encoded := RunDvdOn(sink, env, DvdEffects(env), DVD_SKIP);
    DvdFailure(env);
  }

  // ---- PlayStation ----

  datatype PsxEnv = PsxEnv(workDir: bool, probe: bool, redumper: Option<ToolRun>, chdman: Option<ToolRun>,
                           render: bool, move: bool, apprise: Option<ToolRun>, eject: EjectEnv)

  function PsxEffects(env: PsxEnv): seq<(StepId, bool)> {
    [(Rip, env.workDir), (Rip, env.probe), (Rip, env.redumper.Some? && env.chdman.Some?),
     (Rip, env.redumper.Some? && env.redumper.value.ok), (Compress, env.chdman.Some? && env.chdman.value.ok),
     (Move, env.render), (Move, env.move)]
  }

  /** The first effect of the rip that fails, or the first one after it. */
  ghost function PsxRipStop(env: PsxEnv): (k: nat)
    ensures k <= 4 && OkBefore(PsxEffects(env), k)
    ensures if k == 4 then env.chdman.Some? else PsxEffects(env)[k] == (Rip, false)
  {
    if !env.workDir then 0
    else if !env.probe then 1
    else if env.redumper.None? || env.chdman.None? then 2
    else if !env.redumper.value.ok then 3
    else 4
  }

  /** The rip step. */
  method RipPsx(sink: PersistentSink, env: PsxEnv, ghost order: seq<StepId>, ghost at: seq<seq<SinkEvent>>)
    returns (r: Result<(), string>, ghost k: nat)
    requires sink.Valid() && Connected(order, at) && |order| > 2 && order[2] == Rip && sink.trace == at[2]
    modifies sink
    ensures sink.Valid() && sink.trace == if r.Ok? then at[3] else Broken(order, at, 2)
    ensures k == PsxRipStop(env) && (r.Ok? <==> k == 4)
  {
    Started(sink, Rip);
    if !env.workDir {
      Failed(sink, Rip);
      return Err("work dir"), 0;
    }
    if !env.probe {
      Failed(sink, Rip);
      return Err("library probe"), 1;
    }
    if env.redumper.None? || env.chdman.None? {
      Failed(sink, Rip);
      return Err("psx: redumper or chdman not configured"), 2;
    }
    var ripped := RunTool(sink, Rip, env.redumper.value);
    if !ripped {
      Failed(sink, Rip);
      return Err("redumper"), 3;
    }
    Done(sink, Rip);
    return Ok(()), 4;
  }

  method CompressPsx(sink: PersistentSink, chdman: ToolRun, ghost order: seq<StepId>, ghost at: seq<seq<SinkEvent>>)
    returns (ok: bool)
    requires sink.Valid() && Connected(order, at) && |order| > 3 && order[3] == Compress && sink.trace == at[3]
    modifies sink
    ensures sink.Valid() && ok == chdman.ok && sink.trace == if ok then at[4] else Broken(order, at, 3)
  {
    Started(sink, Compress);
    ok := RunTool(sink, Compress, chdman);
    if ok {
      Done(sink, Compress);
    } else {
      Failed(sink, Compress);
    }
  }

  /** The body of Run: k is the first effect that failed, inside the i-th step. */
  method PsxSteps(sink: PersistentSink, env: PsxEnv, ghost order: seq<StepId>, ghost at: seq<seq<SinkEvent>>)
    returns (r: Result<(), string>, ghost k: nat, ghost i: nat)
    requires sink.Valid() && Connected(order, at) && sink.trace == at[0]
    requires |order| == 7 && order[0] == Detect && order[1] == Identify && order[2] == Rip && order[3] == Compress
    requires order[4] == Move && order[5] == Notify && order[6] == Eject
    modifies sink
    ensures sink.Valid() && OkBefore(PsxEffects(env), k)
    ensures r.Ok? ==> k == |PsxEffects(env)| && sink.trace == at[|order| - 1] + EjectEvents(EjectFails(env.eject))
    ensures r.Err? ==> k < |PsxEffects(env)| && i < |order| && PsxEffects(env)[k] == (order[i], false)
                       && sink.trace == Broken(order, at, i)
  {
    PassEarlySteps(sink, order, at);
    r, k := RipPsx(sink, env, order, at);
    i := 2;
    if r.Err? {
      return;
    }
    var compressed := CompressPsx(sink, env.chdman.value, order, at);
    if !compressed {
      return Err("chdman"), 4, 3;
    }
    var moved := MoveAndFinish(sink, env.render, env.move, env.apprise, env.eject, order, at);
    if !moved {
      return Err("move"), if env.render then 6 else 5, 4;
    }
    return Ok(()), 7, 4;
  }

  /** Run, for whatever set of skipped steps gives this order. */
  method RunPsxOn(sink: PersistentSink, env: PsxEnv, ghost skip: set<StepId>) returns (r: Result<(), string>)
    requires sink.Valid()
    requires Order(skip) == [Detect, Identify, Rip, Compress, Move, Notify, Eject]
    modifies sink
    ensures sink.Valid()
    ensures r.Ok? <==> FirstFailure(PsxEffects(env)).None?
    ensures sink.trace == old(sink.trace) + HandlerTrace(skip, FirstFailure(PsxEffects(env)), EjectFails(env.eject))
  {
    ghost var before := sink.trace;
    ghost var at := Landmarks(before, Order(skip));
    ghost var k, i;
    r, k, i := PsxSteps(sink, env, Order(skip), at);
    RunEnds(before, sink.trace, skip, at, PsxEffects(env), r.Ok?, k, i, EjectFails(env.eject));
  }

  predicate PsxRips(env: PsxEnv) {
    env.workDir && env.probe && env.redumper.Some? && env.chdman.Some? && env.redumper.value.ok
  }

  /** The step at which a run fails, read off the outcomes of the tools. */
  lemma PsxFailure(env: PsxEnv)
    ensures FirstFailure(PsxEffects(env))
         == if !PsxRips(env) then Some(Rip) else if !env.chdman.value.ok then Some(Compress)
            else if !env.render || !env.move then Some(Move) else None
  {
    var k := PsxRipStop(env);
    if k == 4 && env.chdman.value.ok {
      k := if !env.render then 5 else if !env.move then 6 else 7;
    }
    if k < 7 {
      FailsAt(PsxEffects(env), k);
    } else {
      NeverFails(PsxEffects(env));
    }
  }

  method RunPsx(sink: PersistentSink, env: PsxEnv) returns (r: Result<(), string>)
    requires sink.Valid()
    modifies sink
    ensures sink.Valid()
    ensures r.Ok? <==> PsxRips(env) && env.chdman.value.ok && env.render && env.move
    ensures r.Ok? <==> FirstFailure(PsxEffects(env)).None?
    ensures sink.trace == old(sink.trace)
                          + HandlerTrace(PSX_SKIP, FirstFailure(PsxEffects(env)), EjectFails(env.eject))
  {
    PsxOrder();
    r := RunPsxOn(sink, env, PSX_SKIP);
    PsxFailure(env);
  }

  // ---- what a run leaves ----

  /** The row that a run failing at `failed` (or nowhere) is meant to leave. */
  function Outcome(skip: set<StepId>, failed: Option<StepId>, s: StepId): StepState {
    if s in skip then StepState.Skipped
    else if failed.None? || Rank(s) < Rank(failed.value) then StepState.Done
    else if s == failed.value then StepState.Failed
    else StepState.Pending
  }

  /** For any skip set, failing step and eject, a run keeps at most one step
      running throughout, and leaves each row as meant. */
  lemma HandlerOutcome(skip: set<StepId>, failed: Option<StepId>, ejectFailed: bool, s: StepId)
    requires Eject !in skip && (failed.Some? ==> failed.value !in skip)
    ensures Disciplined(None, HandlerTrace(skip, failed, ejectFailed))
    ensures RowAfter(Planned(skip, s), s, HandlerTrace(skip, failed, ejectFailed)) == Outcome(skip, failed, s)
  {
    OrderIsCanonical(skip);
    var order := Order(skip);
    assert Eject in order;
    if failed.None? {
      TracesAreDisciplined(order, 0, ejectFailed);
      NilMeansAllDone(skip, ejectFailed, s);
    } else {
      var k := Position(order, failed.value);
      TracesAreDisciplined(order, k, ejectFailed);
      ErrorMeansOneFailed(skip, k, s);
    }
  }

  lemma {:induction false} FailureIsAnEffect(effects: seq<(StepId, bool)>, skip: set<StepId>, i: nat)
    requires i <= |effects| && forall k :: 0 <= k < |effects| ==> effects[k].0 !in skip
    ensures FirstFailure(effects, i).Some? ==> FirstFailure(effects, i).value !in skip
    decreases |effects| - i
  {
    if i < |effects| && effects[i].1 {
      FailureIsAnEffect(effects, skip, i + 1);
    }
  }

  /** The three handlers only ever fail at a step they do not skip. */
  lemma FailuresAreNotSkipped(audio: AudioEnv, dvd: DvdEnv, psx: PsxEnv)
    ensures FirstFailure(AudioEffects(audio)).Some? ==> FirstFailure(AudioEffects(audio)).value !in AUDIO_SKIP
    ensures FirstFailure(DvdEffects(dvd)).Some? ==> FirstFailure(DvdEffects(dvd)).value !in DVD_SKIP
    ensures FirstFailure(PsxEffects(psx)).Some? ==> FirstFailure(PsxEffects(psx)).value !in PSX_SKIP
  {
    FailureIsAnEffect(AudioEffects(audio), AUDIO_SKIP, 0);
    DvdSteps(dvd);
    FailureIsAnEffect(DvdEffects(dvd), DVD_SKIP, 0);
    FailureIsAnEffect(PsxEffects(psx), PSX_SKIP, 0);
  }

  lemma DvdSteps(env: DvdEnv)
    ensures forall k :: 0 <= k < |DvdEffects(env)| ==> DvdEffects(env)[k].0 !in DVD_SKIP
  {
    Concatenation(DvdPrepare(env), EncodeEffects(env, Titles(env)), [(Move, env.move)]);
  }
}
