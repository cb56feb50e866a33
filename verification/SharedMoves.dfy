/** Library moves of several jobs at once (daemon/pipelines/output.go, AtomicMove
    and copyFile): one worker per drive moves files into the same library, and
    nothing locks the path between the Stat that finds it free and the Rename
    that replaces whatever is there by then. Each system call is a step. */
module SharedMoves {
  import opened Wrappers

  type Path = string
  type Content = seq<char>
  type FileId = nat

  /** Where an AtomicMove call is; `own` is the file it has put at dst. */
  datatype Stage =
    | Asked                    // before Stat
    | Absent                   // Stat found nothing
    | Ready                    // the parent exists; before Rename
    | Falling                  // Rename failed; before the exclusive create
    | Writing(own: FileId)
    | Closing(own: FileId)
    | Cleaning(own: FileId)    // the copy failed; before its removal
    | Removing(own: FileId)    // the copy is done; before the source's removal
    | Moved(own: FileId)
    | Stopped                  // returned an error

  /** `what` is history: the bytes of src when the move began. */
  datatype Mover = Mover(src: Path, dst: Path, what: Content, stage: Stage)

  /** Names and files apart, as in a file system. `work` are the paths inside the
      jobs' private work directories. */
  datatype World = World(files: map<Path, FileId>, data: map<FileId, Content>, work: set<Path>, movers: map<nat, Mover>)

  datatype Act =
    | Stat(fails: bool)
    | Mkdir(fails: bool)
    | Rename(fails: bool)
    | Create(id: FileId, fails: bool)
    | Write(fails: bool, partial: Content)
    | Close(fails: bool)
    | Clean(fails: bool)
    | Remove(fails: bool)

  datatype Step = Begin(m: nat, src: Path, dst: Path) | Advance(m: nat, act: Act)

  predicate ActEnabled(w: World, v: Mover, act: Act) {
    match act
    case Stat(_) => v.stage.Asked?
    case Mkdir(_) => v.stage.Absent?
    case Rename(_) => v.stage.Ready?
    case Create(id, _) => v.stage.Falling? && id !in w.data
    case Write(_, _) => v.stage.Writing?
    case Close(_) => v.stage.Closing?
    case Clean(_) => v.stage.Cleaning?
    case Remove(_) => v.stage.Removing?
  }

  predicate Enabled(w: World, s: Step) {
    match s
    case Begin(m, src, dst) =>
      && m !in w.movers && src in w.files && w.files[src] in w.data && src in w.work && dst !in w.work
      && forall k :: k in w.movers ==> w.movers[k].src != src
    case Advance(m, act) => m in w.movers && ActEnabled(w, w.movers[m], act)
  }

  function SourceBytes(w: World, v: Mover): Content {
    if v.src in w.files && w.files[v.src] in w.data then w.data[w.files[v.src]] else []
  }

  /** The call's effect on names. */
  function FilesAfter(w: World, v: Mover, act: Act): map<Path, FileId> {
    match act
    case Rename(fails) => if fails || v.src !in w.files then w.files else (w.files - {v.src})[v.dst := w.files[v.src]]
    case Create(id, fails) => if fails || v.src !in w.files || v.dst in w.files then w.files else w.files[v.dst := id]
    case Clean(fails) => if fails then w.files else w.files - {v.dst}
    case Remove(fails) => if fails then w.files else w.files - {v.src}
    case _ => w.files
  }

  /** The call's effect on contents. */
  function DataAfter(w: World, v: Mover, act: Act): map<FileId, Content>
    requires ActEnabled(w, v, act)
  {
    match act
    case Create(id, fails) => if fails || v.src !in w.files || v.dst in w.files then w.data else w.data[id := []]
    case Write(fails, partial) => w.data[v.stage.own := if fails then partial else SourceBytes(w, v)]
    case _ => w.data
  }

  function StageAfter(w: World, v: Mover, act: Act): Stage
    requires ActEnabled(w, v, act)
  {
    match act
    case Stat(fails) => if fails || v.dst in w.files then Stopped else Absent
    case Mkdir(fails) => if fails then Stopped else Ready
    case Rename(fails) => if fails || v.src !in w.files then Falling else Moved(w.files[v.src])
    case Create(id, fails) => if fails || v.src !in w.files || v.dst in w.files then Stopped else Writing(id)
    case Write(fails, _) => if fails then Cleaning(v.stage.own) else Closing(v.stage.own)
    case Close(fails) => if fails then Cleaning(v.stage.own) else Removing(v.stage.own)
    case Clean(_) => Stopped
    case Remove(fails) => if fails then Stopped else Moved(v.stage.own)
  }

  function Next(w: World, s: Step): World
    requires Enabled(w, s)
  {
    match s
    case Begin(m, src, dst) => w.(movers := w.movers[m := Mover(src, dst, w.data[w.files[src]], Asked)])
    case Advance(m, act) =>
      var v := w.movers[m];
      World(FilesAfter(w, v, act), DataAfter(w, v, act), w.work,
            w.movers[m := v.(stage := StageAfter(w, v, act))])
  }

  ghost predicate Run(ws: seq<World>, steps: seq<Step>) {
    && |ws| == |steps| + 1
    && forall i :: 0 <= i < |steps| ==> Enabled(ws[i], steps[i]) && ws[i + 1] == Next(ws[i], steps[i])
  }

  /** The step is a Rename that succeeds on a path that is taken. */
  predicate Clobbers(w: World, s: Step) {
    && s.Advance? && s.act.Rename? && !s.act.fails && s.m in w.movers
    && w.movers[s.m].src in w.files && w.movers[s.m].dst in w.files
  }

  predicate ClobbersAt(w: World, s: Step, p: Path) {
    Clobbers(w, s) && w.movers[s.m].dst == p
  }

  /** The mover has put a file at its destination. */
  predicate Holder(g: Stage) {
    g.Writing? || g.Closing? || g.Cleaning? || g.Removing? || g.Moved?
  }

  /** That file is still there. */
  predicate Holds(w: World, v: Mover)
    requires Holder(v.stage)
  {
    v.dst in w.files && w.files[v.dst] == v.stage.own
  }

  /** A copy that failed is taken back, but its path holds another file by now. */
  predicate Misremoves(w: World, s: Step) {
    && s.Advance? && s.act.Clean? && !s.act.fails && s.m in w.movers && w.movers[s.m].stage.Cleaning?
    && w.movers[s.m].dst in w.files && !Holds(w, w.movers[s.m])
  }

  /** The source of a finished copy is removed, but the copy is gone by now. */
  predicate Abandons(w: World, s: Step) {
    && s.Advance? && s.act.Remove? && !s.act.fails && s.m in w.movers && w.movers[s.m].stage.Removing?
    && !Holds(w, w.movers[s.m])
  }

  // ---- what every step keeps ----

  /** One name per file, and every file has contents. */
  ghost predicate NamesInv(w: World) {
    && (forall p :: p in w.files ==> w.files[p] in w.data)
    && (forall p, q :: p in w.files && q in w.files && w.files[p] == w.files[q] ==> p == q)
  }

  /** A mover's source is its own and keeps its bytes until the move succeeds;
      what it has put at the destination is there or nowhere. */
  ghost predicate MoverInv(w: World, v: Mover) {
    && v.src in w.work && v.dst !in w.work
    && (!v.stage.Moved? ==> v.src in w.files && w.files[v.src] in w.data && w.data[w.files[v.src]] == v.what)
    && (Holder(v.stage) ==> v.stage.own in w.data && OnlyAt(w, v.stage.own, v.dst))
    && (v.stage.Closing? || v.stage.Removing? || v.stage.Moved? ==> w.data[v.stage.own] == v.what)
  }

  ghost predicate OnlyAt(w: World, f: FileId, p: Path) {
    forall q :: q in w.files && w.files[q] == f ==> q == p
  }

  ghost predicate MoversInv(w: World) {
    forall m :: m in w.movers ==> MoverInv(w, w.movers[m])
  }

  ghost predicate Apart(w: World) {
    && (forall m, n :: m in w.movers && n in w.movers && m != n ==> w.movers[m].src != w.movers[n].src)
    && (forall m, n ::
          (m in w.movers && n in w.movers && m != n && Holder(w.movers[m].stage) && Holder(w.movers[n].stage)) ==>
            w.movers[m].stage.own != w.movers[n].stage.own)
  }

  ghost predicate Inv(w: World) {
    NamesInv(w) && MoversInv(w) && Apart(w)
  }

  /** A name leaves or gets a new file; every other name keeps its own. */
  ghost predicate OthersKept(w: World, w': World, v: Mover) {
    && (forall p :: p in w.files && p != v.src && p != v.dst ==> p in w'.files && w'.files[p] == w.files[p])
    && (forall p :: p in w'.files && p != v.src && p != v.dst ==> p in w.files)
    && (v.src in w'.files ==> v.src in w.files && w'.files[v.src] == w.files[v.src])
  }

  lemma AdvanceKeepsOthers(w: World, m: nat, act: Act)
    requires Enabled(w, Advance(m, act)) && w.movers[m].src != w.movers[m].dst
    ensures OthersKept(w, Next(w, Advance(m, act)), w.movers[m])
  {
  }

  /** Contents only change in a new file, or in the mover's own. */
  lemma AdvanceKeepsData(w: World, m: nat, act: Act, f: FileId)
    requires Enabled(w, Advance(m, act)) && f in w.data
    requires act.Write? ==> f != w.movers[m].stage.own
    ensures var w' := Next(w, Advance(m, act)); f in w'.data && w'.data[f] == w.data[f]
  {
  }

  /** A file is given a new name only by the mover that has it as source. */
  lemma NewNames(w: World, m: nat, act: Act, q: Path)
    requires Enabled(w, Advance(m, act)) && w.movers[m].src != w.movers[m].dst
    requires var w' := Next(w, Advance(m, act)); q in w'.files && !(q in w.files && w.files[q] == w'.files[q])
    ensures var w', v := Next(w, Advance(m, act)), w.movers[m];
            q == v.dst && (w'.files[q] !in w.data || (v.src in w.files && w'.files[q] == w.files[v.src]))
  {
  }

  lemma NamesStay(w: World, m: nat, act: Act)
    requires NamesInv(w) && Enabled(w, Advance(m, act)) && w.movers[m].src != w.movers[m].dst
    ensures NamesInv(Next(w, Advance(m, act)))
  {
  }

  lemma OtherMoverStays(w: World, m: nat, act: Act, n: nat)
    requires Inv(w) && Enabled(w, Advance(m, act)) && n in w.movers && n != m
    ensures MoverInv(Next(w, Advance(m, act)), w.movers[n])
  {
    var v, u := w.movers[m], w.movers[n];
    assert MoverInv(w, v) && MoverInv(w, u);
    if !u.stage.Moved? {
      AdvanceKeepsOthers(w, m, act);
      AdvanceKeepsData(w, m, act, w.files[u.src]);
    }
    if Holder(u.stage) {
      AdvanceKeepsData(w, m, act, u.stage.own);
      StaysOnlyAt(w, m, act, u.stage.own, u.dst);
    }
  }

  lemma StaysOnlyAt(w: World, m: nat, act: Act, f: FileId, p: Path)
    requires NamesInv(w) && Enabled(w, Advance(m, act)) && MoverInv(w, w.movers[m])
    requires f in w.data && OnlyAt(w, f, p) && p !in w.work
    ensures OnlyAt(Next(w, Advance(m, act)), f, p)
  {
    var w' := Next(w, Advance(m, act));
    forall q | q in w'.files && w'.files[q] == f
      ensures q == p
    {
      if !(q in w.files && w.files[q] == f) {
        NewNames(w, m, act, q);
      }
    }
  }

  lemma OwnMoverStays(w: World, m: nat, act: Act)
    requires NamesInv(w) && MoversInv(w) && Enabled(w, Advance(m, act))
    ensures var w' := Next(w, Advance(m, act)); MoverInv(w', w'.movers[m])
  {
    assert MoverInv(w, w.movers[m]);
  }

  lemma ApartStays(w: World, m: nat, act: Act)
    requires Inv(w) && Enabled(w, Advance(m, act))
    ensures Apart(Next(w, Advance(m, act)))
  {
    var w' := Next(w, Advance(m, act));
    assert MoverInv(w, w.movers[m]);
    forall n | n in w.movers && n != m && Holder(w.movers[n].stage) && Holder(w'.movers[m].stage)
      ensures w.movers[n].stage.own != w'.movers[m].stage.own
    {
      assert MoverInv(w, w.movers[n]);
    }
  }

  lemma BeginKeeps(w: World, s: Step)
    requires Inv(w) && s.Begin? && Enabled(w, s)
    ensures Inv(Next(w, s))
  {
    forall n | n in w.movers
      ensures MoverInv(Next(w, s), w.movers[n])
    {
      assert MoverInv(w, w.movers[n]);
    }
  }

  /** Any system call of any move keeps the invariant, clobbering or not. */
  lemma StepKeepsInv(w: World, s: Step)
    requires Inv(w) && Enabled(w, s)
    ensures Inv(Next(w, s))
  {
    if s.Begin? {
      BeginKeeps(w, s);
    } else {
      AdvanceKeepsInv(w, s.m, s.act);
    }
  }

  lemma AdvanceKeepsInv(w: World, m: nat, act: Act)
    requires Inv(w) && Enabled(w, Advance(m, act))
    ensures Inv(Next(w, Advance(m, act)))
  {
    var w' := Next(w, Advance(m, act));
    assert MoverInv(w, w.movers[m]);
    NamesStay(w, m, act);
    ApartStays(w, m, act);
    OwnMoverStays(w, m, act);
    forall n | n in w.movers && n != m
      ensures MoverInv(w', w'.movers[n])
    {
      OtherMoverStays(w, m, act, n);
    }
  }

  // ---- what one path keeps until it is clobbered ----

  /** Every mover that has put a file at p finds it there. */
  ghost predicate HeldAt(w: World, p: Path) {
    forall m :: m in w.movers && w.movers[m].dst == p && Holder(w.movers[m].stage) ==> Holds(w, w.movers[m])
  }

  lemma StepKeepsHeld(w: World, s: Step, p: Path)
    requires Inv(w) && HeldAt(w, p) && Enabled(w, s) && !ClobbersAt(w, s, p)
    ensures HeldAt(Next(w, s), p)
  {
    if s.Advance? {
      forall n | n in w.movers && n != s.m && w.movers[n].dst == p && Holder(w.movers[n].stage)
        ensures Holds(Next(w, s), w.movers[n])
      {
        OtherStillHolds(w, s.m, s.act, n);
      }
      assert MoverInv(w, w.movers[s.m]);
      if w.movers[s.m].dst == p {
        OwnStillHolds(w, s.m, s.act);
      }
    }
  }

  lemma OtherStillHolds(w: World, m: nat, act: Act, n: nat)
    requires Inv(w) && Enabled(w, Advance(m, act)) && n in w.movers && n != m
    requires Holder(w.movers[n].stage) && Holds(w, w.movers[n])
    requires w.movers[m].dst == w.movers[n].dst ==> !Clobbers(w, Advance(m, act)) && !Misremoves(w, Advance(m, act))
    ensures Holds(Next(w, Advance(m, act)), w.movers[n])
  {
    assert MoverInv(w, w.movers[m]) && MoverInv(w, w.movers[n]);
  }

  lemma OwnStillHolds(w: World, m: nat, act: Act)
    requires Enabled(w, Advance(m, act)) && w.movers[m].src != w.movers[m].dst
    requires Holder(w.movers[m].stage) ==> Holds(w, w.movers[m])
    ensures var w' := Next(w, Advance(m, act)); Holder(w'.movers[m].stage) ==> Holds(w', w'.movers[m])
  {
  }

  /** The path has the file it started with, bytes and all, and no mover claims it. */
  ghost predicate Untouched(w: World, p: Path, f: FileId, c: Content) {
    && p !in w.work && p in w.files && w.files[p] == f && f in w.data && w.data[f] == c
    && forall m :: m in w.movers && w.movers[m].dst == p ==> !Holder(w.movers[m].stage)
  }

  lemma StepKeepsUntouched(w: World, s: Step, p: Path, f: FileId, c: Content)
    requires Inv(w) && Untouched(w, p, f, c) && Enabled(w, s) && !ClobbersAt(w, s, p)
    ensures Untouched(Next(w, s), p, f, c)
  {
    if s.Advance? {
      assert MoverInv(w, w.movers[s.m]);
      AdvanceKeepsData(w, s.m, s.act, f);
      NameIsKept(w, s.m, s.act, p);
    }
  }

  lemma NameIsKept(w: World, m: nat, act: Act, p: Path)
    requires Enabled(w, Advance(m, act)) && p in w.files && p != w.movers[m].src
    requires w.movers[m].dst == p ==> !Holder(w.movers[m].stage) && !Clobbers(w, Advance(m, act))
    ensures var w' := Next(w, Advance(m, act));
            && p in w'.files && w'.files[p] == w.files[p]
            && (w.movers[m].dst == p ==> !Holder(w'.movers[m].stage))
  {
  }

  // ---- runs ----

  /** No move has begun; every name has a file of its own. */
  ghost predicate Started(w: World) {
    w.movers == map[] && NamesInv(w)
  }

  /** No Rename has clobbered this path up to state n. */
  ghost predicate ClearPath(ws: seq<World>, steps: seq<Step>, n: nat, p: Path)
    requires |ws| == |steps| + 1 && n < |ws|
  {
    forall k :: 0 <= k < n ==> !ClobbersAt(ws[k], steps[k], p)
  }

  lemma {:induction false} RunKeepsInv(ws: seq<World>, steps: seq<Step>, n: nat)
    requires Run(ws, steps) && n < |ws| && Started(ws[0])
    ensures Inv(ws[n])
  {
    if n > 0 {
      RunKeepsInv(ws, steps, n - 1);
      StepKeepsInv(ws[n - 1], steps[n - 1]);
    }
  }

  lemma {:induction false} RunKeepsHeld(ws: seq<World>, steps: seq<Step>, n: nat, p: Path)
    requires Run(ws, steps) && n < |ws| && Started(ws[0]) && ClearPath(ws, steps, n, p)
    ensures HeldAt(ws[n], p)
  {
    if n > 0 {
      RunKeepsHeld(ws, steps, n - 1, p);
      RunKeepsInv(ws, steps, n - 1);
      StepKeepsHeld(ws[n - 1], steps[n - 1], p);
    }
  }

  /** A file of the library is as it was until a Rename lands on its path,
      whatever happens on other paths. */
  lemma {:induction false} LibraryFileIsKept(ws: seq<World>, steps: seq<Step>, n: nat, p: Path)
    requires Run(ws, steps) && n < |ws| && Started(ws[0]) && ClearPath(ws, steps, n, p)
    requires p in ws[0].files && p !in ws[0].work
    ensures Untouched(ws[n], p, ws[0].files[p], ws[0].data[ws[0].files[p]])
  {
    if n > 0 {
      LibraryFileIsKept(ws, steps, n - 1, p);
      RunKeepsInv(ws, steps, n - 1);
      StepKeepsUntouched(ws[n - 1], steps[n - 1], p, ws[0].files[p], ws[0].data[ws[0].files[p]]);
    }
  }

  /** Where a move's bytes are meant to be. */
  function Place(v: Mover): Path {
    if v.stage.Moved? then v.dst else v.src
  }

  predicate BytesAt(w: World, p: Path, c: Content) {
    p in w.files && w.files[p] in w.data && w.data[w.files[p]] == c
  }

  /** For any number of moves at once and any failures: a move that has not
      succeeded has its bytes at its source, always; one that has succeeded has
      them at its destination, until a Rename lands on a taken destination there;
      and until then no other move to that path has succeeded. */
  lemma NothingIsLost(ws: seq<World>, steps: seq<Step>, n: nat, m: nat)
    requires Run(ws, steps) && n < |ws| && Started(ws[0]) && m in ws[n].movers
    ensures !ws[n].movers[m].stage.Moved? || ClearPath(ws, steps, n, ws[n].movers[m].dst) ==>
              BytesAt(ws[n], Place(ws[n].movers[m]), ws[n].movers[m].what)
    ensures ws[n].movers[m].stage.Moved? && ClearPath(ws, steps, n, ws[n].movers[m].dst) ==>
              forall k :: k in ws[n].movers && ws[n].movers[k].stage.Moved? && k != m ==>
                ws[n].movers[k].dst != ws[n].movers[m].dst
  {
    RunKeepsInv(ws, steps, n);
    assert MoverInv(ws[n], ws[n].movers[m]);
    if ClearPath(ws, steps, n, ws[n].movers[m].dst) {
      RunKeepsHeld(ws, steps, n, ws[n].movers[m].dst);
    }
  }

  // ---- exactly what destroys a file ----

  predicate Named(files: map<Path, FileId>, f: FileId) {
    exists p :: p in files && files[p] == f
  }

  /** The file has a name before the step and none after it. */
  predicate Destroys(w: World, s: Step, f: FileId)
    requires Enabled(w, s)
  {
    Named(w.files, f) && !Named(Next(w, s).files, f)
  }

  /** A mover takes back its own unfinished copy, or the source of its own copy. */
  predicate TakesBack(w: World, s: Step, f: FileId) {
    && s.Advance? && s.m in w.movers
    && var v := w.movers[s.m];
    || (s.act.Clean? && !s.act.fails && v.stage.Cleaning? && Holds(w, v) && f == v.stage.own)
    || (s.act.Remove? && !s.act.fails && v.stage.Removing? && v.src in w.files && f == w.files[v.src])
  }

  /** In every reachable state: apart from a mover taking back what is its own, a
      file is destroyed exactly by a Rename that finds it at its destination, or
      by the clean-up of a failed copy that finds it where the copy was. */
  lemma DestroyedExactly(w: World, s: Step, f: FileId)
    requires Inv(w) && Enabled(w, s)
    ensures Destroys(w, s, f) <==>
            TakesBack(w, s, f) || ((Clobbers(w, s) || Misremoves(w, s)) && f == w.files[w.movers[s.m].dst])
  {
    if s.Begin? {
      assert Next(w, s).files == w.files;
    } else {
      assert MoverInv(w, w.movers[s.m]);
      if Named(w.files, f) {
        var p :| p in w.files && w.files[p] == f;
        NameOfFile(w, s.m, s.act, p);
      } else {
        Unnamed(w, s.m, s.act, f);
      }
    }
  }

  lemma Unnamed(w: World, m: nat, act: Act, f: FileId)
    requires Enabled(w, Advance(m, act)) && !Named(w.files, f)
    ensures !TakesBack(w, Advance(m, act), f)
    ensures var s := Advance(m, act);
            !((Clobbers(w, s) || Misremoves(w, s)) && f == w.files[w.movers[m].dst])
  {
  }

  /** What becomes of the file at p. */
  lemma NameOfFile(w: World, m: nat, act: Act, p: Path)
    requires NamesInv(w) && Enabled(w, Advance(m, act)) && p in w.files
    requires w.movers[m].src != w.movers[m].dst
    requires var v := w.movers[m]; v.stage.Ready? || v.stage.Removing? ==> v.src in w.files
    ensures var s := Advance(m, act);
            Destroys(w, s, w.files[p]) <==>
            TakesBack(w, s, w.files[p])
            || ((Clobbers(w, s) || Misremoves(w, s)) && w.files[p] == w.files[w.movers[m].dst])
  {
    var v, files' := w.movers[m], FilesAfter(w, w.movers[m], act);
    assert Named(w.files, w.files[p]);
    if p in files' && files'[p] == w.files[p] {
      assert Named(files', w.files[p]);
    } else if act.Rename? && p == v.src {
      assert files'[v.dst] == w.files[p];
      assert Named(files', w.files[p]);
    } else {
      NameIsGone(w, v, act, p);
    }
  }

  /** A name that a step takes from its file leaves the file without any. */
  lemma NameIsGone(w: World, v: Mover, act: Act, p: Path)
    requires NamesInv(w) && p in w.files && v.src != v.dst
    requires var files' := FilesAfter(w, v, act); !(p in files' && files'[p] == w.files[p])
    requires !(act.Rename? && p == v.src)
    ensures !Named(FilesAfter(w, v, act), w.files[p])
    ensures if act.Rename? then !act.fails && v.src in w.files && p == v.dst
            else (act.Clean? && !act.fails && p == v.dst) || (act.Remove? && !act.fails && p == v.src)
  {
  }

  /** When the copy is gone and the source goes too, the move's bytes have no
      name left, though the move reports success. */
  lemma AbandonedIsLost(w: World, s: Step)
    requires Inv(w) && Enabled(w, s) && Abandons(w, s)
    ensures var w', v := Next(w, s), w.movers[s.m];
            w'.movers[s.m].stage.Moved? && !Named(w'.files, v.stage.own)
            && v.src in w.files && !Named(w'.files, w.files[v.src])
  {
    assert MoverInv(w, w.movers[s.m]);
  }

  // ---- when a mover's file is gone from its destination ----

  /** Another mover with the same destination takes m's file from there. */
  predicate TakenFrom(w: World, s: Step, m: nat) {
    && m in w.movers && Holder(w.movers[m].stage) && Holds(w, w.movers[m])
    && s.Advance? && s.m in w.movers && s.m != m && w.movers[s.m].dst == w.movers[m].dst
    && (Clobbers(w, s) || Misremoves(w, s))
  }

  lemma LosesExactly(w: World, s: Step, m: nat)
    requires Inv(w) && Enabled(w, s) && m in w.movers && Holder(w.movers[m].stage) && Holds(w, w.movers[m])
    requires Holder(Next(w, s).movers[m].stage)
    ensures !Holds(Next(w, s), Next(w, s).movers[m]) <==> TakenFrom(w, s, m)
  {
    if s.Advance? {
      assert MoverInv(w, w.movers[s.m]) && MoverInv(w, w.movers[m]);
      if s.m == m {
        OwnStillHolds(w, m, s.act);
      } else if !TakenFrom(w, s, m) {
        OtherStillHolds(w, s.m, s.act, m);
      }
    }
  }

  /** What is gone stays gone. */
  lemma LossIsForGood(w: World, s: Step, m: nat)
    requires Inv(w) && Enabled(w, s) && m in w.movers && Holder(w.movers[m].stage) && !Holds(w, w.movers[m])
    requires Holder(Next(w, s).movers[m].stage)
    ensures !Holds(Next(w, s), Next(w, s).movers[m])
  {
    if s.Advance? {
      assert MoverInv(w, w.movers[s.m]) && MoverInv(w, w.movers[m]);
      NoNameComesBack(w, s.m, s.act, w.movers[m].stage.own);
    }
  }

  lemma NoNameComesBack(w: World, m: nat, act: Act, f: FileId)
    requires Enabled(w, Advance(m, act)) && w.movers[m].src != w.movers[m].dst
    requires f in w.data && forall p :: p in w.files ==> w.files[p] != f
    ensures forall p :: p in Next(w, Advance(m, act)).files ==> Next(w, Advance(m, act)).files[p] != f
  {
    forall p | p in Next(w, Advance(m, act)).files
      ensures Next(w, Advance(m, act)).files[p] != f
    {
      if Next(w, Advance(m, act)).files[p] == f {
        NewNames(w, m, act, p);
      }
    }
  }

  lemma BecomesHolder(w: World, s: Step, m: nat)
    requires Inv(w) && Enabled(w, s) && m in Next(w, s).movers && Holder(Next(w, s).movers[m].stage)
    requires m in w.movers ==> !Holder(w.movers[m].stage)
    ensures m in w.movers && Holds(Next(w, s), Next(w, s).movers[m])
  {
    assert m in w.movers ==> MoverInv(w, w.movers[m]);
  }

  lemma StopIsFinal(w: World, s: Step, m: nat)
    requires Enabled(w, s) && m in w.movers && Rank(w.movers[m].stage) == 3
    ensures m in Next(w, s).movers && Rank(Next(w, s).movers[m].stage) == 3
    ensures w.movers[m].stage.Stopped? ==> Next(w, s).movers[m].stage.Stopped?
    ensures Holder(w.movers[m].stage) ==> Holder(Next(w, s).movers[m].stage) || Next(w, s).movers[m].stage.Stopped?
  {
  }

  lemma {:induction false} HolderBetween(ws: seq<World>, steps: seq<Step>, k: nat, n: nat, m: nat)
    requires Run(ws, steps) && k <= n < |ws| && m in ws[k].movers && Holder(ws[k].movers[m].stage)
    ensures m in ws[n].movers && (Holder(ws[n].movers[m].stage) || ws[n].movers[m].stage.Stopped?)
  {
    if k < n {
      HolderBetween(ws, steps, k, n - 1, m);
      StopIsFinal(ws[n - 1], steps[n - 1], m);
    }
  }

  /** A mover's file is gone from its destination exactly if, at some earlier step,
      another mover with that destination renamed onto it or cleaned up over it. */
  lemma {:induction false} LostExactly(ws: seq<World>, steps: seq<Step>, n: nat, m: nat)
    requires Run(ws, steps) && n < |ws| && Started(ws[0])
    requires m in ws[n].movers && Holder(ws[n].movers[m].stage)
    ensures !Holds(ws[n], ws[n].movers[m]) <==> exists k :: 0 <= k < n && TakenFrom(ws[k], steps[k], m)
  {
    if n > 0 {
      RunKeepsInv(ws, steps, n - 1);
      if m in ws[n - 1].movers && Holder(ws[n - 1].movers[m].stage) {
        LostExactly(ws, steps, n - 1, m);
        if Holds(ws[n - 1], ws[n - 1].movers[m]) {
          LosesExactly(ws[n - 1], steps[n - 1], m);
        } else {
          LossIsForGood(ws[n - 1], steps[n - 1], m);
        }
      } else {
        BecomesHolder(ws[n - 1], steps[n - 1], m);
        NotTakenYet(ws, steps, n, m);
      }
    }
  }

  lemma NotTakenYet(ws: seq<World>, steps: seq<Step>, n: nat, m: nat)
    requires Run(ws, steps) && 0 < n < |ws| && m in ws[n - 1].movers && !Holder(ws[n - 1].movers[m].stage)
    requires m in ws[n].movers && Holder(ws[n].movers[m].stage)
    ensures forall k :: 0 <= k < n ==> !TakenFrom(ws[k], steps[k], m)
  {
    forall k | 0 <= k < n
      ensures !TakenFrom(ws[k], steps[k], m)
    {
      if m in ws[k].movers && Holder(ws[k].movers[m].stage) {
        HolderBetween(ws, steps, k, n - 1, m);
        StopIsFinal(ws[n - 1], steps[n - 1], m);
      }
    }
  }

  /** The two indirect ways to lose a file only come after a Rename has clobbered
      that very path. */
  lemma OnlyAfterClobber(ws: seq<World>, steps: seq<Step>, n: nat)
    requires Run(ws, steps) && n < |steps| && Started(ws[0])
    requires Misremoves(ws[n], steps[n]) || Abandons(ws[n], steps[n])
    ensures exists k :: 0 <= k < n && ClobbersAt(ws[k], steps[k], ws[n].movers[steps[n].m].dst)
  {
    var p := ws[n].movers[steps[n].m].dst;
    if ClearPath(ws, steps, n, p) {
      RunKeepsHeld(ws, steps, n, p);
      assert false;
    }
  }

  // ---- exactly when a Rename finds its destination taken ----

  /** How far a call has come; from the Rename on it is past the gap. */
  function Rank(g: Stage): nat {
    match g
    case Asked => 0
    case Absent => 1
    case Ready => 2
    case _ => 3
  }

  lemma StepForward(w: World, s: Step, m: nat)
    requires Enabled(w, s) && m in w.movers
    ensures var v, v' := w.movers[m], Next(w, s).movers[m];
            && v'.src == v.src && v'.dst == v.dst && Rank(v.stage) <= Rank(v'.stage)
            && (s.Advance? && s.m == m && Rank(v'.stage) <= 2 ==> Next(w, s).files == w.files)
  {
  }

  lemma {:induction false} MoveForward(ws: seq<World>, steps: seq<Step>, i: nat, k: nat, m: nat)
    requires Run(ws, steps) && i <= k < |ws| && m in ws[i].movers
    ensures m in ws[k].movers
    ensures ws[k].movers[m].src == ws[i].movers[m].src && ws[k].movers[m].dst == ws[i].movers[m].dst
    ensures Rank(ws[i].movers[m].stage) <= Rank(ws[k].movers[m].stage)
  {
    if i < k {
      MoveForward(ws, steps, i, k - 1, m);
      StepForward(ws[k - 1], steps[k - 1], m);
    }
  }

  /** Step c is another mover's, and puts a file at p that stays until k. */
  ghost predicate CreatedByOther(ws: seq<World>, steps: seq<Step>, c: nat, k: nat, m: nat, p: Path)
    requires |ws| == |steps| + 1 && c < k < |ws|
  {
    && steps[c].Advance? && steps[c].m != m
    && p !in ws[c].files && forall n :: c < n <= k ==> p in ws[n].files
  }

  lemma {:induction false} LastCreated(ws: seq<World>, i: nat, k: nat, p: Path) returns (c: nat)
    requires i < k < |ws| && p !in ws[i].files && p in ws[k].files
    ensures i <= c < k && p !in ws[c].files && forall n :: c < n <= k ==> p in ws[n].files
  {
    c := k - 1;
    if p in ws[k - 1].files {
      c := LastCreated(ws, i, k - 1, p);
    }
  }

  /** A successful Rename overwrites a file exactly if another move created it
      between this move's Stat and this Rename. */
  lemma ClobberedExactly(ws: seq<World>, steps: seq<Step>, i: nat, k: nat, m: nat)
    requires Run(ws, steps) && i < k < |steps| && m in ws[i].movers
    requires steps[i] == Advance(m, Stat(false)) && ws[i].movers[m].dst !in ws[i].files
    requires steps[k] == Advance(m, Rename(false)) && ws[i].movers[m].src in ws[k].files
    ensures Clobbers(ws[k], steps[k]) <==>
            exists c :: i < c < k && CreatedByOther(ws, steps, c, k, m, ws[i].movers[m].dst)
  {
    var p := ws[i].movers[m].dst;
    MoveForward(ws, steps, i, k, m);
    if p in ws[k].files {
      assert ws[i + 1].files == ws[i].files;
      var c := LastCreated(ws, i + 1, k, p);
      MoveForward(ws, steps, i, c, m);
      MoveForward(ws, steps, c + 1, k, m);
      StepForward(ws[c], steps[c], m);
      assert CreatedByOther(ws, steps, c, k, m, p);
    }
  }

  // ---- taking turns ----

  predicate UnderWay(g: Stage) {
    !g.Moved? && !g.Stopped?
  }

  /** At most one move to p is under way. */
  ghost predicate OneAtATime(w: World, p: Path) {
    forall m, n :: (m in w.movers && n in w.movers && w.movers[m].dst == p && w.movers[n].dst == p
                    && UnderWay(w.movers[m].stage) && UnderWay(w.movers[n].stage)) ==> m == n
  }

  predicate InGap(g: Stage) {
    g.Absent? || g.Ready?
  }

  /** A move to p that has found it free still does. */
  ghost predicate GapClear(w: World, p: Path) {
    forall m :: m in w.movers && w.movers[m].dst == p && InGap(w.movers[m].stage) ==> p !in w.files
  }

  lemma GapIsNotClobbered(w: World, s: Step, p: Path)
    requires GapClear(w, p) && Enabled(w, s)
    ensures !ClobbersAt(w, s, p)
  {
  }

  lemma StepKeepsGap(w: World, s: Step, p: Path)
    requires Inv(w) && GapClear(w, p) && OneAtATime(w, p) && Enabled(w, s)
    ensures GapClear(Next(w, s), p)
  {
    if s.Advance? {
      var w' := Next(w, s);
      assert MoverInv(w, w.movers[s.m]);
      forall m | m in w.movers && w.movers[m].dst == p && InGap(w'.movers[m].stage)
        ensures p !in w'.files
      {
        if s.m == m {
          GapStarts(w, m, s.act);
        } else {
          FreeStaysFree(w, s.m, s.act, p);
        }
      }
    }
  }

  lemma GapStarts(w: World, m: nat, act: Act)
    requires Enabled(w, Advance(m, act)) && InGap(Next(w, Advance(m, act)).movers[m].stage)
    requires InGap(w.movers[m].stage) ==> w.movers[m].dst !in w.files
    ensures w.movers[m].dst !in Next(w, Advance(m, act)).files
  {
  }

  lemma FreeStaysFree(w: World, m: nat, act: Act, p: Path)
    requires Enabled(w, Advance(m, act)) && p !in w.files
    requires w.movers[m].dst == p ==> !UnderWay(w.movers[m].stage)
    ensures p !in Next(w, Advance(m, act)).files
  {
  }

  lemma {:induction false} RunKeepsGap(ws: seq<World>, steps: seq<Step>, n: nat, p: Path)
    requires Run(ws, steps) && n < |ws| && Started(ws[0]) && forall i :: 0 <= i < n ==> OneAtATime(ws[i], p)
    ensures GapClear(ws[n], p) && ClearPath(ws, steps, n, p)
  {
    if n > 0 {
      RunKeepsGap(ws, steps, n - 1, p);
      RunKeepsInv(ws, steps, n - 1);
      GapIsNotClobbered(ws[n - 1], steps[n - 1], p);
      StepKeepsGap(ws[n - 1], steps[n - 1], p);
    }
  }

  /** As long as moves to p take turns, as those of one job do, nothing is lost
      there, even if several render the same path: the file that was there stays,
      or the first move that succeeds keeps it. Other paths do not matter. */
  lemma TakingTurnsIsSafe(ws: seq<World>, steps: seq<Step>, n: nat, p: Path)
    requires Run(ws, steps) && n < |ws| && Started(ws[0]) && forall i :: 0 <= i < n ==> OneAtATime(ws[i], p)
    ensures p in ws[0].files && p !in ws[0].work ==> Untouched(ws[n], p, ws[0].files[p], ws[0].data[ws[0].files[p]])
    ensures forall m :: m in ws[n].movers && ws[n].movers[m].dst == p ==>
              BytesAt(ws[n], Place(ws[n].movers[m]), ws[n].movers[m].what)
  {
    RunKeepsGap(ws, steps, n, p);
    if p in ws[0].files && p !in ws[0].work {
      LibraryFileIsKept(ws, steps, n, p);
    }
    forall m | m in ws[n].movers && ws[n].movers[m].dst == p
      ensures BytesAt(ws[n], Place(ws[n].movers[m]), ws[n].movers[m].what)
    {
      NothingIsLost(ws, steps, n, m);
    }
  }

  /** A move whose destination no other move has is safe, whatever the others do. */
  lemma OwnTargetIsSafe(ws: seq<World>, steps: seq<Step>, n: nat, m: nat)
    requires Run(ws, steps) && n < |ws| && Started(ws[0]) && m in ws[n].movers
    requires forall k :: k in ws[n].movers && k != m ==> ws[n].movers[k].dst != ws[n].movers[m].dst
    ensures BytesAt(ws[n], Place(ws[n].movers[m]), ws[n].movers[m].what)
  {
    var p := ws[n].movers[m].dst;
    forall i | 0 <= i < n
      ensures OneAtATime(ws[i], p)
    {
      forall k | k in ws[i].movers && ws[i].movers[k].dst == p
        ensures k == m
      {
        MoveForward(ws, steps, i, n, k);
      }
    }
    TakingTurnsIsSafe(ws, steps, n, p);
  }

  // ---- two drives, one path ----

  lemma RunOn(ws: seq<World>, steps: seq<Step>, s: Step)
    requires Run(ws, steps) && Enabled(ws[|steps|], s)
    ensures Run(ws + [Next(ws[|steps|], s)], steps + [s])
  {
  }

  function TwoSources(a: Content, b: Content): World {
    World(map["w/a" := 0, "w/b" := 1], map[0 := a, 1 := b], {"w/a", "w/b"}, map[])
  }

  function TwoMovers(a: Content, b: Content, g: Stage, h: Stage): World {
    TwoSources(a, b).(movers := map[0 := Mover("w/a", "lib", a, g), 1 := Mover("w/b", "lib", b, h)])
  }

  lemma BothBegin(a: Content, b: Content) returns (ws: seq<World>, steps: seq<Step>)
    ensures Run(ws, steps) && |steps| == 2 && ws[0] == TwoSources(a, b) && ws[2] == TwoMovers(a, b, Asked, Asked)
  {
    ws, steps := [TwoSources(a, b)], [];
    RunOn(ws, steps, Begin(0, "w/a", "lib"));
    ws, steps := ws + [Next(ws[0], Begin(0, "w/a", "lib"))], steps + [Begin(0, "w/a", "lib")];
    assert ws[1].movers == map[0 := Mover("w/a", "lib", a, Asked)];
    RunOn(ws, steps, Begin(1, "w/b", "lib"));
    ws, steps := ws + [Next(ws[1], Begin(1, "w/b", "lib"))], steps + [Begin(1, "w/b", "lib")];
    assert ws[2].movers == map[0 := Mover("w/a", "lib", a, Asked), 1 := Mover("w/b", "lib", b, Asked)];
  }

  /** A step that only moves one of the two on. */
  lemma OneMoves(a: Content, b: Content, g: Stage, h: Stage, m: nat, act: Act)
    requires m < 2 && (act == Stat(false) || act == Mkdir(false))
    requires ActEnabled(TwoMovers(a, b, g, h), TwoMovers(a, b, g, h).movers[m], act)
    ensures var next := if act.Stat? then Absent else Ready;
            Next(TwoMovers(a, b, g, h), Advance(m, act))
            == if m == 0 then TwoMovers(a, b, next, h) else TwoMovers(a, b, g, next)
  {
    var movers, next := TwoMovers(a, b, g, h).movers, if act.Stat? then Absent else Ready;
    if m == 0 {
      assert movers[0 := Mover("w/a", "lib", a, next)] == TwoMovers(a, b, next, h).movers;
    } else {
      assert movers[1 := Mover("w/b", "lib", b, next)] == TwoMovers(a, b, g, next).movers;
    }
  }

  lemma BothReady(a: Content, b: Content) returns (ws: seq<World>, steps: seq<Step>)
    ensures Run(ws, steps) && |steps| == 6 && ws[0] == TwoSources(a, b) && ws[6] == TwoMovers(a, b, Ready, Ready)
  {
    ws, steps := BothBegin(a, b);
    OneMoves(a, b, Asked, Asked, 0, Stat(false));
    RunOn(ws, steps, Advance(0, Stat(false)));
    ws, steps := ws + [TwoMovers(a, b, Absent, Asked)], steps + [Advance(0, Stat(false))];
    OneMoves(a, b, Absent, Asked, 1, Stat(false));
    RunOn(ws, steps, Advance(1, Stat(false)));
    ws, steps := ws + [TwoMovers(a, b, Absent, Absent)], steps + [Advance(1, Stat(false))];
    OneMoves(a, b, Absent, Absent, 0, Mkdir(false));
    RunOn(ws, steps, Advance(0, Mkdir(false)));
    ws, steps := ws + [TwoMovers(a, b, Ready, Absent)], steps + [Advance(0, Mkdir(false))];
    OneMoves(a, b, Ready, Absent, 1, Mkdir(false));
    RunOn(ws, steps, Advance(1, Mkdir(false)));
    ws, steps := ws + [TwoMovers(a, b, Ready, Ready)], steps + [Advance(1, Mkdir(false))];
  }

  /** Two jobs that render the same path both find it free; both moves succeed,
      and the first job's file is gone. */
  lemma TwoDrivesOnePath(a: Content, b: Content) returns (ws: seq<World>, steps: seq<Step>)
    ensures Run(ws, steps) && |steps| == 8 && ws[0] == TwoSources(a, b) && Started(ws[0])
    ensures ws[8].movers == map[0 := Mover("w/a", "lib", a, Moved(0)), 1 := Mover("w/b", "lib", b, Moved(1))]
    ensures ws[8].files == map["lib" := 1] && !Named(ws[8].files, 0)
  {
    ws, steps := BothReady(a, b);
    FirstRename(a, b);
    RunOn(ws, steps, Advance(0, Rename(false)));
    ws, steps := ws + [FirstMoved(a, b)], steps + [Advance(0, Rename(false))];
    RunOn(ws, steps, Advance(1, Rename(false)));
    SecondRename(FirstMoved(a, b), a, b);
    ws, steps := ws + [Next(FirstMoved(a, b), Advance(1, Rename(false)))], steps + [Advance(1, Rename(false))];
  }

  function FirstMoved(a: Content, b: Content): World {
    World(map["w/b" := 1, "lib" := 0], map[0 := a, 1 := b], {"w/a", "w/b"},
          map[0 := Mover("w/a", "lib", a, Moved(0)), 1 := Mover("w/b", "lib", b, Ready)])
  }

  lemma FirstRename(a: Content, b: Content)
    ensures Next(TwoMovers(a, b, Ready, Ready), Advance(0, Rename(false))) == FirstMoved(a, b)
  {
    var w := TwoMovers(a, b, Ready, Ready);
    assert (w.files - {"w/a"})["lib" := 0] == FirstMoved(a, b).files;
    assert w.movers[0 := Mover("w/a", "lib", a, Moved(0))] == FirstMoved(a, b).movers;
  }

  lemma SecondRename(w: World, a: Content, b: Content)
    requires w.files == map["w/b" := 1, "lib" := 0]
    requires w.movers == map[0 := Mover("w/a", "lib", a, Moved(0)), 1 := Mover("w/b", "lib", b, Ready)]
    ensures Enabled(w, Advance(1, Rename(false))) && Clobbers(w, Advance(1, Rename(false)))
    ensures var w' := Next(w, Advance(1, Rename(false)));
            && w'.files == map["lib" := 1]
            && w'.movers == map[0 := Mover("w/a", "lib", a, Moved(0)), 1 := Mover("w/b", "lib", b, Moved(1))]
  {
  }

  // ---- a failed copy's clean-up, and a copy that is gone ----

  /** The first job's copy is open when the second job renames over it. */
  function Overtaken(a: Content, b: Content): World {
    World(map["w/a" := 0, "lib" := 1], map[0 := a, 1 := b, 2 := []], {"w/a", "w/b"},
          map[0 := Mover("w/a", "lib", a, Writing(2)), 1 := Mover("w/b", "lib", b, Moved(1))])
  }

  function Opened(a: Content, b: Content): World {
    World(map["w/a" := 0, "w/b" := 1, "lib" := 2], map[0 := a, 1 := b, 2 := []], {"w/a", "w/b"},
          map[0 := Mover("w/a", "lib", a, Writing(2)), 1 := Mover("w/b", "lib", b, Ready)])
  }

  lemma RenameFails(a: Content, b: Content)
    ensures Next(TwoMovers(a, b, Ready, Ready), Advance(0, Rename(true))) == TwoMovers(a, b, Falling, Ready)
  {
    var movers := TwoMovers(a, b, Ready, Ready).movers;
    assert movers[0 := Mover("w/a", "lib", a, Falling)] == TwoMovers(a, b, Falling, Ready).movers;
  }

  lemma CopyOpens(a: Content, b: Content)
    ensures Enabled(TwoMovers(a, b, Falling, Ready), Advance(0, Create(2, false)))
    ensures Next(TwoMovers(a, b, Falling, Ready), Advance(0, Create(2, false))) == Opened(a, b)
  {
    var movers := TwoMovers(a, b, Falling, Ready).movers;
    assert movers[0 := Mover("w/a", "lib", a, Writing(2))] == Opened(a, b).movers;
  }

  lemma Overtakes(a: Content, b: Content)
    ensures Clobbers(Opened(a, b), Advance(1, Rename(false)))
    ensures Next(Opened(a, b), Advance(1, Rename(false))) == Overtaken(a, b)
  {
    var w := Opened(a, b);
    assert (w.files - {"w/b"})["lib" := 1] == Overtaken(a, b).files;
    assert w.movers[1 := Mover("w/b", "lib", b, Moved(1))] == Overtaken(a, b).movers;
  }

  lemma ReachOvertaken(a: Content, b: Content) returns (ws: seq<World>, steps: seq<Step>)
    ensures Run(ws, steps) && |steps| == 9 && ws[0] == TwoSources(a, b) && Started(ws[0]) && ws[9] == Overtaken(a, b)
  {
    ws, steps := BothReady(a, b);
    RenameFails(a, b);
    RunOn(ws, steps, Advance(0, Rename(true)));
    ws, steps := ws + [TwoMovers(a, b, Falling, Ready)], steps + [Advance(0, Rename(true))];
    CopyOpens(a, b);
    RunOn(ws, steps, Advance(0, Create(2, false)));
    ws, steps := ws + [Opened(a, b)], steps + [Advance(0, Create(2, false))];
    Overtakes(a, b);
    RunOn(ws, steps, Advance(1, Rename(false)));
    ws, steps := ws + [Overtaken(a, b)], steps + [Advance(1, Rename(false))];
  }

  /** The copy fails, and its clean-up removes the file of the second job, whose
      move had succeeded. */
  lemma CleanUpTakesAnothersFile(a: Content, b: Content) returns (ws: seq<World>, steps: seq<Step>)
    ensures Run(ws, steps) && |steps| == 11 && ws[0] == TwoSources(a, b) && Started(ws[0])
    ensures Misremoves(ws[10], steps[10]) && Destroys(ws[10], steps[10], 1)
    ensures 1 in ws[11].movers && ws[11].movers[1] == Mover("w/b", "lib", b, Moved(1))
    ensures ws[11].files == map["w/a" := 0]
  {
    ws, steps := ReachOvertaken(a, b);
    CopyBreaks(a, b);
    RunOn(ws, steps, Advance(0, Write(true, [])));
    ws, steps := ws + [Failing(a, b)], steps + [Advance(0, Write(true, []))];
    RunOn(ws, steps, Advance(0, Clean(false)));
    AnotherIsRemoved(a, b);
    ws, steps := ws + [Next(Failing(a, b), Advance(0, Clean(false)))], steps + [Advance(0, Clean(false))];
  }

  function Failing(a: Content, b: Content): World {
    Overtaken(a, b).(movers := map[0 := Mover("w/a", "lib", a, Cleaning(2)), 1 := Mover("w/b", "lib", b, Moved(1))])
  }

  lemma CopyBreaks(a: Content, b: Content)
    ensures Next(Overtaken(a, b), Advance(0, Write(true, []))) == Failing(a, b)
  {
    var w := Overtaken(a, b);
    assert w.data[2 := []] == w.data;
    assert w.movers[0 := Mover("w/a", "lib", a, Cleaning(2))] == Failing(a, b).movers;
  }

  lemma AnotherIsRemoved(a: Content, b: Content)
    ensures var w, clean := Failing(a, b), Advance(0, Clean(false));
            && Misremoves(w, clean) && Destroys(w, clean, 1) && Next(w, clean).files == map["w/a" := 0]
            && 1 in Next(w, clean).movers && Next(w, clean).movers[1] == w.movers[1]
  {
    assert Failing(a, b).files["lib"] == 1;
    assert Failing(a, b).files - {"lib"} == map["w/a" := 0];
  }

  function WithCopy(a: Content, b: Content, g: Stage): World {
    Overtaken(a, b).(data := map[0 := a, 1 := b, 2 := a],
                     movers := map[0 := Mover("w/a", "lib", a, g), 1 := Mover("w/b", "lib", b, Moved(1))])
  }

  /** The copy works, and the source is removed though the copy is gone: both
      moves succeed, and the first job's bytes are nowhere. */
  lemma CopyIsAbandoned(a: Content, b: Content) returns (ws: seq<World>, steps: seq<Step>)
    ensures Run(ws, steps) && |steps| == 12 && ws[0] == TwoSources(a, b) && Started(ws[0])
    ensures Abandons(ws[11], steps[11])
    ensures ws[12].movers == map[0 := Mover("w/a", "lib", a, Moved(2)), 1 := Mover("w/b", "lib", b, Moved(1))]
    ensures ws[12].files == map["lib" := 1]
  {
    ws, steps := ReachOvertaken(a, b);
    CopyIsWritten(a, b);
    CopyIsClosed(a, b);
    RunOn(ws, steps, Advance(0, Write(false, [])));
    ws, steps := ws + [WithCopy(a, b, Closing(2))], steps + [Advance(0, Write(false, []))];
    RunOn(ws, steps, Advance(0, Close(false)));
    ws, steps := ws + [WithCopy(a, b, Removing(2))], steps + [Advance(0, Close(false))];
    RunOn(ws, steps, Advance(0, Remove(false)));
    SourceIsRemoved(a, b);
    var last := Next(WithCopy(a, b, Removing(2)), Advance(0, Remove(false)));
    ws, steps := ws + [last], steps + [Advance(0, Remove(false))];
  }

  lemma CopyIsWritten(a: Content, b: Content)
    ensures Next(Overtaken(a, b), Advance(0, Write(false, []))) == WithCopy(a, b, Closing(2))
  {
    var w := Overtaken(a, b);
    assert DataAfter(w, w.movers[0], Write(false, [])) == map[0 := a, 1 := b, 2 := a];
    assert w.movers[0 := Mover("w/a", "lib", a, Closing(2))] == WithCopy(a, b, Closing(2)).movers;
  }

  lemma CopyIsClosed(a: Content, b: Content)
    ensures Next(WithCopy(a, b, Closing(2)), Advance(0, Close(false))) == WithCopy(a, b, Removing(2))
  {
    var w := WithCopy(a, b, Closing(2));
    assert w.movers[0 := Mover("w/a", "lib", a, Removing(2))] == WithCopy(a, b, Removing(2)).movers;
  }

  lemma SourceIsRemoved(a: Content, b: Content)
    ensures Abandons(WithCopy(a, b, Removing(2)), Advance(0, Remove(false)))
    ensures var w := Next(WithCopy(a, b, Removing(2)), Advance(0, Remove(false)));
            && w.files == map["lib" := 1]
            && w.movers == map[0 := Mover("w/a", "lib", a, Moved(2)), 1 := Mover("w/b", "lib", b, Moved(1))]
  {
    var w := WithCopy(a, b, Removing(2));
    assert w.files - {"w/a"} == map["lib" := 1];
    assert w.movers[0 := Mover("w/a", "lib", a, Moved(2))] == WithCopy(a, b, Moved(2)).movers;
  }
}
