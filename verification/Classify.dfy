/** Classifying a disc through probes that may not be ready yet: three
    retry-with-backoff loops around the decision tree (daemon/identify/classify.go).
    A probe is the function from call number to what that call returns. */
module Classify {
  import opened Wrappers
  import opened Text
  import CdInfo

  type Error = string

  datatype Failure = ContextDone | ProbeFailed(error: Error)

  /** When the caller's context is done: seen right after call k, or while waiting after it. */
  datatype Context = Context(doneAfterCall: nat -> bool, doneInWait: nat -> bool)

  ghost predicate Live(ctx: Context) {
    forall k: nat :: !ctx.doneAfterCall(k) && !ctx.doneInWait(k)
  }

  function Sum(waits: seq<nat>): nat {
    if waits == [] then 0 else Sum(waits[..|waits| - 1]) + waits[|waits| - 1]
  }

  /** The first call number up to n that is ready; n when none is. */
  function FirstReady(ready: nat -> bool, n: nat, from: nat := 0): (k: nat)
    requires from <= n
    ensures from <= k <= n
    ensures forall i :: from <= i < k ==> !ready(i)
    ensures k < n ==> ready(k)
    decreases n - from
  {
    if from == n || ready(from) then from else FirstReady(ready, n, from + 1)
  }

  lemma FirstReadyIs(ready: nat -> bool, n: nat, k: nat)
    requires k <= n
    requires forall i: nat :: i < k ==> !ready(i)
    requires k < n ==> ready(k)
    ensures FirstReady(ready, n) == k
  {
    var f := FirstReady(ready, n);
    assert !(f < k) && !(k < f);
  }

  // ---- what "ready" means to each loop ----

  function CdReady(probe: nat -> Result<string, Error>): nat -> bool {
    (i: nat) => probe(i).Ok?
  }

  function ListReady(probe: nat -> Result<seq<string>, Error>): nat -> bool {
    (i: nat) => probe(i).Ok? && probe(i).value != []
  }

  function CnfReady(probe: nat -> Result<Option<bool>, Error>): nat -> bool {
    (i: nat) => probe(i).Ok? && probe(i).value.Some?
  }

  /** Not ready for the first calls, at most n of them, and the same answer ever after. */
  ghost predicate Settles<T(!new)>(probe: nat -> Result<T, Error>, ready: nat -> bool, n: nat,
                                   steady: Result<T, Error>)
  {
    exists k: nat :: k <= n && SettlesAt(probe, ready, k, steady)
  }

  ghost predicate SettlesAt<T(!new)>(probe: nat -> Result<T, Error>, ready: nat -> bool, k: nat,
                                     steady: Result<T, Error>)
  {
    (forall i: nat :: i < k ==> !ready(i)) && forall i: nat :: i >= k ==> probe(i) == steady
  }

  /** A settling probe, asked until it is ready or n retries are used up, gives
      its steady answer, ready or not. */
  lemma SettledAnswer<T(!new)>(probe: nat -> Result<T, Error>, ready: nat -> bool, n: nat, steady: Result<T, Error>)
    requires Settles(probe, ready, n, steady)
    requires forall i: nat, j: nat :: probe(i) == probe(j) ==> ready(i) == ready(j)
    ensures probe(FirstReady(ready, n)) == steady
  {
    var k: nat :| k <= n && SettlesAt(probe, ready, k, steady);
    assert FirstReady(ready, n) >= k;
  }

  // ---- the three loops ----

  function AsAnswer<T>(r: Result<T, Error>): Result<T, Failure> {
    match r
    case Ok(v) => Ok(v)
    case Err(e) => Err(ProbeFailed(e))
  }

  /** runCDInfo: every error is retried. */
  method RunCDInfo(probe: nat -> Result<string, Error>, backoff: seq<nat>, ctx: Context)
    returns (r: Result<string, Failure>, calls: nat, waited: nat)
    ensures 1 <= calls <= |backoff| + 1 && waited == Sum(backoff[..calls - 1]) <= Sum(backoff)
    ensures forall i: nat :: i < calls - 1 ==> probe(i).Err?
    ensures r == Err(ContextDone) || r == AsAnswer(probe(calls - 1))
    ensures r == Err(ContextDone) ==> ctx.doneAfterCall(calls - 1) || ctx.doneInWait(calls - 1)
    ensures probe(calls - 1).Err? ==> r == Err(ContextDone) || calls == |backoff| + 1
    ensures Live(ctx) ==>
              var k := FirstReady(CdReady(probe), |backoff|);
              && calls == k + 1 && waited == Sum(backoff[..k])
              && r == AsAnswer(probe(k))
  {
    var lastErr := "";
    calls, waited := 0, 0;
    var attempt: nat := 0;
    while attempt <= |backoff|
      invariant attempt <= |backoff|
      invariant calls == attempt && waited == Sum(backoff[..attempt])
      invariant forall i: nat :: i < attempt ==> probe(i).Err?
    {
      SumMonotone(backoff, attempt);
      var res := probe(attempt);
      calls := calls + 1;
      if res.Ok? {
        FirstReadyIs(CdReady(probe), |backoff|, attempt);
        return Ok(res.value), calls, waited;
      }
      lastErr := res.error;
      if ctx.doneAfterCall(attempt) {
        return Err(ContextDone), calls, waited;
      }
      if attempt == |backoff| {
        break;
      }
      if ctx.doneInWait(attempt) {
        return Err(ContextDone), calls, waited;
      }
      assert backoff[..attempt + 1][..attempt] == backoff[..attempt];
      waited := waited + backoff[attempt];
      attempt := attempt + 1;
    }
    FirstReadyIs(CdReady(probe), |backoff|, |backoff|);
    r := Err(ProbeFailed(lastErr));
  }

  /** retryingFSProber.List: errors and empty listings are retried. */
  method RetryingList(probe: nat -> Result<seq<string>, Error>, backoff: seq<nat>, ctx: Context)
    returns (r: Result<seq<string>, Failure>, calls: nat, waited: nat)
    ensures 1 <= calls <= |backoff| + 1 && waited == Sum(backoff[..calls - 1]) <= Sum(backoff)
    ensures forall i: nat :: i < calls - 1 ==> probe(i).Err? || probe(i) == Ok([])
    ensures r == Err(ContextDone) || r == AsAnswer(probe(calls - 1))
    ensures r == Err(ContextDone) ==> ctx.doneAfterCall(calls - 1) || ctx.doneInWait(calls - 1)
    ensures probe(calls - 1).Err? || probe(calls - 1) == Ok([]) ==> r == Err(ContextDone) || calls == |backoff| + 1
    ensures Live(ctx) ==>
              var k := FirstReady(ListReady(probe), |backoff|);
              && calls == k + 1 && waited == Sum(backoff[..k])
              && r == AsAnswer(probe(k))
  {
    var last: Result<seq<string>, Error> := Ok([]);
    calls, waited := 0, 0;
    var attempt: nat := 0;
    while attempt <= |backoff|
      invariant attempt <= |backoff|
      invariant calls == attempt && waited == Sum(backoff[..attempt])
      invariant forall i: nat :: i < attempt ==> probe(i).Err? || probe(i) == Ok([])
    {
      SumMonotone(backoff, attempt);
      last := probe(attempt);
      calls := calls + 1;
      if last.Ok? && last.value != [] {
        FirstReadyIs(ListReady(probe), |backoff|, attempt);
        return Ok(last.value), calls, waited;
      }
      if ctx.doneAfterCall(attempt) {
        return Err(ContextDone), calls, waited;
      }
      if attempt == |backoff| {
        break;
      }
      if ctx.doneInWait(attempt) {
        return Err(ContextDone), calls, waited;
      }
      assert backoff[..attempt + 1][..attempt] == backoff[..attempt];
      waited := waited + backoff[attempt];
      attempt := attempt + 1;
    }
    FirstReadyIs(ListReady(probe), |backoff|, |backoff|);
    if last.Err? {
      return Err(ProbeFailed(last.error)), calls, waited;
    }
    r := Ok(last.value);
  }

  /** retryingSystemCNFProber.Probe: errors and answers without a BOOT line are
      retried. The answer itself is reduced to "is a PS2 disc". */
  method RetryingCnf(probe: nat -> Result<Option<bool>, Error>, backoff: seq<nat>, ctx: Context)
    returns (r: Result<Option<bool>, Failure>, calls: nat, waited: nat)
    ensures 1 <= calls <= |backoff| + 1 && waited == Sum(backoff[..calls - 1]) <= Sum(backoff)
    ensures forall i: nat :: i < calls - 1 ==> probe(i).Err? || probe(i) == Ok(None)
    ensures r == Err(ContextDone) || r == AsAnswer(probe(calls - 1))
    ensures r == Err(ContextDone) ==> ctx.doneAfterCall(calls - 1) || ctx.doneInWait(calls - 1)
    ensures probe(calls - 1).Err? || probe(calls - 1) == Ok(None) ==> r == Err(ContextDone) || calls == |backoff| + 1
    ensures Live(ctx) ==>
              var k := FirstReady(CnfReady(probe), |backoff|);
              && calls == k + 1 && waited == Sum(backoff[..k])
              && r == AsAnswer(probe(k))
  {
    var last: Result<Option<bool>, Error> := Ok(None);
    calls, waited := 0, 0;
    var attempt: nat := 0;
    while attempt <= |backoff|
      invariant attempt <= |backoff|
      invariant calls == attempt && waited == Sum(backoff[..attempt])
      invariant forall i: nat :: i < attempt ==> probe(i).Err? || probe(i) == Ok(None)
    {
      SumMonotone(backoff, attempt);
      last := probe(attempt);
      calls := calls + 1;
      if last.Ok? && last.value.Some? {
        FirstReadyIs(CnfReady(probe), |backoff|, attempt);
        return Ok(last.value), calls, waited;
      }
      if ctx.doneAfterCall(attempt) {
        return Err(ContextDone), calls, waited;
      }
      if attempt == |backoff| {
        break;
      }
      if ctx.doneInWait(attempt) {
        return Err(ContextDone), calls, waited;
      }
      assert backoff[..attempt + 1][..attempt] == backoff[..attempt];
      waited := waited + backoff[attempt];
      attempt := attempt + 1;
    }
    FirstReadyIs(CnfReady(probe), |backoff|, |backoff|);
    if last.Err? {
      return Err(ProbeFailed(last.error)), calls, waited;
    }
    r := Ok(last.value);
  }

  lemma {:induction false} SumMonotone(waits: seq<nat>, k: nat)
    requires k <= |waits|
    ensures Sum(waits[..k]) <= Sum(waits)
    decreases |waits| - k
  {
    if k < |waits| {
      SumMonotone(waits, k + 1);
      assert waits[..k + 1][..k] == waits[..k];
    } else {
      assert waits[..k] == waits;
    }
  }

  // ---- the decision tree ----

  datatype DiscType = AUDIO_CD | DVD | BDMV | UHD | PSX | PS2 | XBOX | SAT | DC | DATA

  /** Each probe's answer; None where no prober is configured. */
  datatype Answers = Answers(
    fs: Option<Result<seq<string>, Failure>>,
    bdAacs2: Option<Result<bool, Error>>,
    cnfIsPs2: Option<Result<Option<bool>, Failure>>,
    saturn: Option<Result<bool, Error>>,
    xbox: Option<Result<bool, Error>>,
    dc: Option<Result<bool, Error>>)

  predicate Says(answer: Option<Result<bool, Error>>) {
    answer == Some(Ok(true))
  }

  function RefineDiscType(base: CdInfo.Base, a: Answers): DiscType {
    if base.AudioCD? then AUDIO_CD
    else match a.fs
      case None => DATA
      case Some(Err(_)) => DATA
      case Some(Ok(files)) =>
        if "/VIDEO_TS" in files then DVD
        else if "/BDMV/index.bdmv" in files then
          if Says(a.bdAacs2) then UHD else BDMV
        else if "/SYSTEM.CNF" in files then
          match a.cnfIsPs2
          case Some(Ok(Some(ps2))) => if ps2 then PS2 else PSX
          case _ => DATA
        else if "/default.xbe" in files && Says(a.xbox) then XBOX
        else if Says(a.saturn) then SAT
        else if Says(a.dc) then DC
        else DATA
  }

  /** The three probes that are retried, call by call, and the others' single answers. */
  datatype World = World(
    cdInfo: nat -> Result<string, Error>,
    fs: Option<nat -> Result<seq<string>, Error>>,
    cnf: Option<nat -> Result<Option<bool>, Error>>,
    bdAacs2: Option<Result<bool, Error>>,
    saturn: Option<Result<bool, Error>>,
    xbox: Option<Result<bool, Error>>,
    dc: Option<Result<bool, Error>>)

  datatype ClassifyError = CdInfoFailed(failure: Failure) | Unreadable(message: string)

  predicate Listable(a: Answers) {
    a.fs.Some? && a.fs.value.Ok?
  }

  /** The listing succeeded, and it has this path. */
  predicate Listed(a: Answers, path: string) {
    Listable(a) && path in a.fs.value.value
  }

  predicate Video(a: Answers) {
    Listed(a, "/VIDEO_TS")
  }

  predicate BluRay(a: Answers) {
    !Listed(a, "/VIDEO_TS") && Listed(a, "/BDMV/index.bdmv")
  }

  predicate PlayStation(a: Answers) {
    !Listed(a, "/VIDEO_TS") && !Listed(a, "/BDMV/index.bdmv") && Listed(a, "/SYSTEM.CNF")
  }

  /** A listing, but with none of the paths that decide on their own. */
  predicate Unmarked(a: Answers) {
    Listable(a) && !Listed(a, "/VIDEO_TS") && !Listed(a, "/BDMV/index.bdmv") && !Listed(a, "/SYSTEM.CNF")
  }

  predicate Xbox(a: Answers) {
    Unmarked(a) && Listed(a, "/default.xbe") && a.xbox == Some(Ok(true))
  }

  /** Type by type, exactly which answers lead to it. */
  method Refine(base: CdInfo.Base, w: World, backoff: seq<nat>, ctx: Context)
    returns (t: DiscType, ghost seen: Answers)
    ensures t == RefineDiscType(base, seen)
    ensures t == AUDIO_CD <==> base == CdInfo.AudioCD
    ensures base == CdInfo.Data ==>
              && (t == DVD <==> Video(seen))
              && (t == UHD <==> BluRay(seen) && seen.bdAacs2 == Some(Ok(true)))
              && (t == BDMV <==> BluRay(seen) && seen.bdAacs2 != Some(Ok(true)))
              && (t == PS2 <==> PlayStation(seen) && seen.cnfIsPs2 == Some(Ok(Some(true))))
              && (t == PSX <==> PlayStation(seen) && seen.cnfIsPs2 == Some(Ok(Some(false))))
              && (t == XBOX <==> Xbox(seen))
              && (t == SAT <==> Unmarked(seen) && !Xbox(seen) && seen.saturn == Some(Ok(true)))
              && (t == DC <==> Unmarked(seen) && !Xbox(seen) && seen.saturn != Some(Ok(true))
                               && seen.dc == Some(Ok(true)))
              && (t == DATA <==>
                    || !Listable(seen)
                    || (PlayStation(seen) && seen.cnfIsPs2 != Some(Ok(Some(true)))
                                          && seen.cnfIsPs2 != Some(Ok(Some(false))))
                    || (Unmarked(seen) && !Xbox(seen) && seen.saturn != Some(Ok(true)) && seen.dc != Some(Ok(true))))
    // Which probes were asked, and what they answered.
    ensures seen.bdAacs2 == w.bdAacs2 && seen.saturn == w.saturn && seen.xbox == w.xbox && seen.dc == w.dc
    ensures seen.fs.Some? <==> w.fs.Some? && base == CdInfo.Data
    ensures seen.cnfIsPs2.Some? <==> w.cnf.Some? && PlayStation(seen)
    ensures Live(ctx) && seen.fs.Some? ==> seen.fs == FinalAnswers(w, |backoff|).fs
    ensures Live(ctx) && seen.cnfIsPs2.Some? ==> seen.cnfIsPs2 == FinalAnswers(w, |backoff|).cnfIsPs2
  {
    seen := Answers(None, w.bdAacs2, None, w.saturn, w.xbox, w.dc);
    if base == CdInfo.AudioCD {
      return AUDIO_CD, seen;
    }
    if w.fs.None? {
      return DATA, seen;
    }
    var files, _, _ := RetryingList(w.fs.value, backoff, ctx);
    seen := seen.(fs := Some(files));
    if files.Err? {
      return DATA, seen;
    }
    if "/VIDEO_TS" in files.value {
      return DVD, seen;
    }
    if "/BDMV/index.bdmv" in files.value {
      return if Says(w.bdAacs2) then UHD else BDMV, seen;
    }
    if "/SYSTEM.CNF" in files.value {
      if w.cnf.None? {
        return DATA, seen;
      }
      var info, _, _ := RetryingCnf(w.cnf.value, backoff, ctx);
      seen := seen.(cnfIsPs2 := Some(info));
      if info.Err? || info.value.None? {
        return DATA, seen;
      }
      return if info.value.value then PS2 else PSX, seen;
    }
    if "/default.xbe" in files.value && Says(w.xbox) {
      return XBOX, seen;
    }
    if Says(w.saturn) {
      return SAT, seen;
    }
    if Says(w.dc) {
      return DC, seen;
    }
    return DATA, seen;
  }

  method Classify(w: World, backoff: seq<nat>, ctx: Context)
    returns (r: Result<DiscType, ClassifyError>, ghost seen: Answers, ghost cd: Result<string, Failure>)
    ensures r == Verdict(cd, seen)
    ensures Live(ctx) ==> r == Verdict(LastAnswer(w.cdInfo, CdReady(w.cdInfo), |backoff|), FinalAnswers(w, |backoff|))
    ensures Live(ctx) ==> cd == LastAnswer(w.cdInfo, CdReady(w.cdInfo), |backoff|)
    ensures cd.Err? ==> r == Err(CdInfoFailed(cd.error))
    ensures cd.Ok? ==> (r.Ok? <==> TrimSpace(cd.value) != "")
    ensures r.Ok? ==> r.value == RefineDiscType(CdInfo.ClassifyFromCDInfo(cd.value).value, seen)
    ensures r == Ok(AUDIO_CD) <==>
              && cd.Ok? && TrimSpace(cd.value) != ""
              && exists i :: 0 <= i < |CdInfo.Lines(cd.value)| && CdInfo.SaysAudio(CdInfo.Lines(cd.value)[i])
  {
    var out, _, _ := RunCDInfo(w.cdInfo, backoff, ctx);
    cd := out;
    seen := Answers(None, w.bdAacs2, None, w.saturn, w.xbox, w.dc);
    if out.Err? {
      return Err(CdInfoFailed(out.error)), seen, cd;
    }
    var base := CdInfo.ClassifyFromCDInfo(out.value);
    if base.Err? {
      return Err(Unreadable(base.error)), seen, cd;
    }
    var t;
    t, seen := Refine(base.value, w, backoff, ctx);
    r := Ok(t);
  }

  /** Reading cd-info's output and refining it, on fixed answers: no retry anywhere. */
  function Verdict(cd: Result<string, Failure>, a: Answers): Result<DiscType, ClassifyError> {
    match cd
    case Err(f) => Err(CdInfoFailed(f))
    case Ok(out) =>
      match CdInfo.ClassifyFromCDInfo(out)
      case Err(m) => Err(Unreadable(m))
      case Ok(base) => Ok(RefineDiscType(base, a))
  }

  /** Once a branch has matched, nothing below it matters: not the rest of the
      listing, and no answer of a later probe. */
  lemma LaterProbesDoNotMatter(base: CdInfo.Base, a: Answers, b: Answers)
    ensures RefineDiscType(CdInfo.AudioCD, a) == RefineDiscType(CdInfo.AudioCD, b)
    ensures Video(a) && Video(b) ==> RefineDiscType(base, a) == RefineDiscType(base, b)
    ensures BluRay(a) && BluRay(b) && a.bdAacs2 == b.bdAacs2 ==> RefineDiscType(base, a) == RefineDiscType(base, b)
    ensures PlayStation(a) && PlayStation(b) && a.cnfIsPs2 == b.cnfIsPs2 ==>
              RefineDiscType(base, a) == RefineDiscType(base, b)
    ensures Xbox(a) && Xbox(b) ==> RefineDiscType(base, a) == RefineDiscType(base, b)
    ensures !Listable(a) && !Listable(b) ==> RefineDiscType(base, a) == RefineDiscType(base, b)
  {
  }

  function LastAnswer<T>(probe: nat -> Result<T, Error>, ready: nat -> bool, n: nat): Result<T, Failure> {
    AsAnswer(probe(FirstReady(ready, n)))
  }

  /** What the retry loops hand to the decision tree when the context stays live. */
  function FinalAnswers(w: World, n: nat): Answers {
    Answers(
      if w.fs.Some? then Some(LastAnswer(w.fs.value, ListReady(w.fs.value), n)) else None,
      w.bdAacs2,
      if w.cnf.Some? then Some(LastAnswer(w.cnf.value, CnfReady(w.cnf.value), n)) else None,
      w.saturn, w.xbox, w.dc)
  }

  /** Retry transparency: with probes that settle within the schedule, whatever
      they settle on, the verdict is the one-shot verdict on the steady answers. */
  lemma RetriesAreTransparent(w: World, n: nat, cd: Result<string, Error>,
                              fs: Result<seq<string>, Error>, cnf: Result<Option<bool>, Error>)
    requires Settles(w.cdInfo, CdReady(w.cdInfo), n, cd)
    requires w.fs.Some? ==> Settles(w.fs.value, ListReady(w.fs.value), n, fs)
    requires w.cnf.Some? ==> Settles(w.cnf.value, CnfReady(w.cnf.value), n, cnf)
    ensures Verdict(LastAnswer(w.cdInfo, CdReady(w.cdInfo), n), FinalAnswers(w, n))
         == Verdict(AsAnswer(cd), Answers(if w.fs.Some? then Some(AsAnswer(fs)) else None, w.bdAacs2,
                                          if w.cnf.Some? then Some(AsAnswer(cnf)) else None, w.saturn, w.xbox, w.dc))
  {
    SettledAnswer(w.cdInfo, CdReady(w.cdInfo), n, cd);
    if w.fs.Some? {
      SettledAnswer(w.fs.value, ListReady(w.fs.value), n, fs);
    }
    if w.cnf.Some? {
      SettledAnswer(w.cnf.value, CnfReady(w.cnf.value), n, cnf);
    }
  }

  /** The bound on settling is tight: one more not-ready call than there are
      retries and the steady answer is never seen. */
  lemma OneCallTooLate(n: nat, steady: string)
    ensures var probe: nat -> Result<string, Error> := i => if i <= n then Err("not ready") else Ok(steady);
            && Settles(probe, CdReady(probe), n + 1, Ok(steady))
            && LastAnswer(probe, CdReady(probe), n) == Err(ProbeFailed("not ready"))
  {
    var probe: nat -> Result<string, Error> := i => if i <= n then Err("not ready") else Ok(steady);
    assert SettlesAt(probe, CdReady(probe), n + 1, Ok(steady));
    FirstReadyIs(CdReady(probe), n, n);
  }
}
