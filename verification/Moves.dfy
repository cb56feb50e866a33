/** Library moves of one job that has the destination to itself: AtomicMove with
    its copy fallback, the loops that move a rip's outputs one by one, and the
    clean-up after them (daemon/pipelines/output.go, audiocd.go, dvdvideo.go).
    Every operating-system call may fail; which ones do is an input. SharedMoves
    says what changes when several jobs move at once. */
module Moves {
  import opened Wrappers

  type Path = string
  type Content = seq<char>

  /** Which calls of one AtomicMove fail. `partial` is what a failed copy had
      written; `cleanup` says that removing it failed too. */
  datatype Faults = Faults(
    stat: bool, mkdir: bool, rename: bool,
    open: bool, create: bool, write: bool, close: bool, cleanup: bool, remove: bool,
    partial: Content)

  datatype MoveError = DestinationExists | StatFailed | MkdirFailed | CopyFailed | RemoveFailed | RenderFailed | NoAudio

  /** One output to move: where it is, where its rendered name puts it (None
      when rendering fails), and what goes wrong on the way. */
  datatype Item = Item(src: Path, dst: Option<Path>, faults: Faults)

  class FileSystem {
    var files: map<Path, Content>

    constructor (files: map<Path, Content>)
      ensures this.files == files
    {
      this.files := files;
    }

    /** os.Rename; the caller has already checked that dst is free. */
    method Rename(src: Path, dst: Path, fails: bool) returns (ok: bool)
      modifies this
      ensures ok == (!fails && src in old(files))
      ensures files == if ok then (old(files) - {src})[dst := old(files)[src]] else old(files)
    {
      ok := !fails && src in files;
      if ok {
        files := (files - {src})[dst := files[src]];
      }
    }

    /** copyFile: create exclusively, copy, close; a failed copy is removed again. */
    method CopyFile(src: Path, dst: Path, f: Faults) returns (ok: bool)
      modifies this
      ensures files - {dst} == old(files) - {dst}
      ensures dst in old(files) ==> files == old(files)
      ensures ok <==> src in old(files) && dst !in old(files) && !f.open && !f.create && !f.write && !f.close
      ensures ok ==> files == old(files)[dst := old(files)[src]]
      ensures !ok && !f.cleanup ==> files == old(files)
    {
      ok := false;
      if src !in files || f.open {
        return;
      }
      if dst in files || f.create {
        return;
      }
      var content := files[src];
      files := files[dst := if f.write then f.partial else content];
      if f.write || f.close {
        if !f.cleanup {
          files := files - {dst};
        }
        return;
      }
      ok := true;
    }

    /** Moves src to dst, never over a file that exists: nobody else creates one
        between the Stat and the Rename here (see SharedMoves.ClobberedExactly). */
    method AtomicMove(src: Path, dst: Path, f: Faults) returns (err: Option<MoveError>)
      modifies this
      ensures dst in old(files) ==> err == Some(DestinationExists) && files == old(files)
      ensures err != Some(RenderFailed) && err != Some(NoAudio)
      ensures err.None? ==> src in old(files) && dst !in old(files)
                            && files == (old(files) - {src})[dst := old(files)[src]]
      ensures err.Some? ==> files - {dst} == old(files) - {dst}
      ensures err.None? <==> (&& src in old(files) && dst !in old(files) && !f.stat && !f.mkdir
                              && (!f.rename || (!f.open && !f.create && !f.write && !f.close && !f.remove)))
      ensures err.Some? && dst !in old(files) && dst in files && !f.cleanup ==>
                src in files && files[dst] == files[src]
    {
      if f.stat {
        return Some(if dst in files then DestinationExists else StatFailed);
      }
      if dst in files {
        return Some(DestinationExists);
      }
      if f.mkdir {
        return Some(MkdirFailed);
      }
      var renamed := Rename(src, dst, f.rename);
      if renamed {
        return None;
      }
      var copied := CopyFile(src, dst, f);
      if !copied {
        return Some(CopyFailed);
      }
      if f.remove {
        return Some(RemoveFailed);
      }
      files := files - {src};
      return None;
    }

    /** The move loop shared by the handlers: stop at the first error and report
        what was moved so far. The sources are distinct existing files: the audio
        handler collects them with a directory walk, the DVD handler has just
        checked each encoded title. */
    method MoveAll(items: seq<Item>) returns (moved: seq<Path>, err: Option<MoveError>)
      requires forall i, j :: 0 <= i < j < |items| ==> items[i].src != items[j].src
      requires forall i :: 0 <= i < |items| ==> items[i].src in files
      modifies this
      ensures NoLoss(items, moved, old(files), files)
      ensures err.None? <==> |moved| == |items|
      ensures err.Some? ==> StoppedBy(items, moved, old(files), err.value)
      ensures err.Some? ==> items[|moved|].src in files && files[items[|moved|].src] == old(files)[items[|moved|].src]
      ensures forall i, j :: 0 <= i < j < |items| && items[i].dst.Some? && items[i].dst == items[j].dst ==> |moved| <= j
      ensures forall p :: p in files ==> p in old(files) || p in moved || LeftOver(items, moved, p)
    {
      moved, err := [], None;
      for k := 0 to |items|
        invariant |moved| == k && SoFar(items, moved, old(files), files) && err.None?
      {
        ghost var before := files;
        NextIsThere(items, moved, old(files), files);
        if items[k].dst.None? {
          err := Some(RenderFailed);
          break;
        }
        var dst := items[k].dst.value;
        err := AtomicMove(items[k].src, dst, items[k].faults);
        if err.Some? {
          FailedMove(items, moved, old(files), before, files, err.value);
          break;
        }
        WorkedMove(items, moved, old(files), before, files);
        moved := moved + [dst];
      }
      SameTargetStops(items, moved, old(files), files);
      if err.Some? {
        assert !MovedAway(items, |moved|, items[|moved|].src);
      }
    }

    /** The move step as a job sees it, with the deferred removal of its work
        directory after it. Success means that every output is in the library.
        After an error the outputs moved so far are there, the later ones are
        gone with the work directory, and of the one that failed at most a copy
        is left at its destination. Nothing else in the library changes. */
    method MoveStep(items: seq<Item>, work: set<Path>) returns (moved: seq<Path>, err: Option<MoveError>)
      requires forall i, j :: 0 <= i < j < |items| ==> items[i].src != items[j].src
      requires forall i :: 0 <= i < |items| ==> items[i].src in files && items[i].src in work
      requires forall i :: 0 <= i < |items| && items[i].dst.Some? ==> items[i].dst.value !in work
      modifies this
      ensures err.None? <==> |moved| == |items|
      ensures err.Some? ==> StoppedBy(items, moved, old(files), err.value)
      ensures |moved| <= |items| && forall i :: 0 <= i < |moved| ==>
                items[i].dst == Some(moved[i]) && moved[i] in files && files[moved[i]] == old(files)[items[i].src]
      ensures forall i :: 0 <= i < |items| ==> items[i].src !in files
      ensures forall p :: p in old(files) && p !in work ==> p in files && files[p] == old(files)[p]
      ensures forall p :: p in files ==> p !in work && (p in old(files) || p in moved || LeftOver(items, moved, p))
    {
      moved, err := MoveAll(items);
      files := files - work;
    }

    /** audiocd's moveOutputs: keep the .flac and .cue files of the walk, refuse
        to "succeed" without any FLAC, then move. */
    method MoveAudioOutputs(walked: seq<(Item, string)>) returns (moved: seq<Path>, err: Option<MoveError>)
      requires forall i, j :: 0 <= i < j < |walked| ==> walked[i].0.src != walked[j].0.src
      requires forall i :: 0 <= i < |walked| ==> walked[i].0.src in files
      modifies this
      ensures NoLoss(Candidates(walked), moved, old(files), files)
      ensures err == Some(NoAudio) <==> forall i :: 0 <= i < |walked| ==> walked[i].1 != ".flac"
      ensures err == Some(NoAudio) ==> files == old(files)
      ensures err.None? ==> |moved| == |Candidates(walked)|
      ensures err.Some? ==> err == Some(NoAudio) || StoppedBy(Candidates(walked), moved, old(files), err.value)
      ensures err.None? ==> forall i :: 0 <= i < |walked| && (walked[i].1 == ".flac" || walked[i].1 == ".cue") ==>
                InPlace(walked[i].0, old(files), files)
      ensures err.None? ==> forall i :: 0 <= i < |walked| && walked[i].1 != ".flac" && walked[i].1 != ".cue" ==>
                walked[i].0.src in files && files[walked[i].0.src] == old(files)[walked[i].0.src]
    {
      var candidates: seq<Item> := [];
      var flacs := 0;
      for i := 0 to |walked|
        invariant candidates == Candidates(walked[..i])
        invariant flacs > 0 <==> exists j :: 0 <= j < i && walked[j].1 == ".flac"
        invariant flacs >= 0
      {
        assert walked[..i + 1][..i] == walked[..i];
        if walked[i].1 == ".flac" || walked[i].1 == ".cue" {
          candidates := candidates + [walked[i].0];
        }
        if walked[i].1 == ".flac" {
          flacs := flacs + 1;
        }
      }
      assert walked[..|walked|] == walked;
      CandidatesComeFromWalk(walked);
      if flacs == 0 {
        return [], Some(NoAudio);
      }
      assert forall c :: c in candidates ==> c.src in files;
      moved, err := MoveAll(candidates);
      if err.None? {
        AllInPlace(walked, moved, old(files), files);
        OthersStay(walked, moved, old(files), files);
      }
    }
  }

  /** The item's bytes are where its rendered name puts them. */
  ghost predicate InPlace(it: Item, before: map<Path, Content>, after: map<Path, Content>) {
    it.dst.Some? && it.src in before && it.dst.value in after && after[it.dst.value] == before[it.src]
  }

  /** A file is there when the next item's turn comes: one that was there from
      the start and has not been moved away, or one that was moved there. */
  ghost predicate Occupied(items: seq<Item>, moved: seq<Path>, before: map<Path, Content>, p: Path) {
    |moved| <= |items| && (p in moved || (p in before && !MovedAway(items, |moved|, p)))
  }

  /** Why the loop stopped at the next item: its name could not be rendered, its
      destination was taken, or one of the calls failed that a move cannot do without. */
  ghost predicate StoppedBy(items: seq<Item>, moved: seq<Path>, before: map<Path, Content>, err: MoveError) {
    && |moved| < |items| && err != NoAudio
    && var it := items[|moved|]; var f := it.faults;
       && (it.dst.None? <==> err == RenderFailed)
       && (it.dst.Some? && Occupied(items, moved, before, it.dst.value) ==> err == DestinationExists)
       && (it.dst.Some? && !Occupied(items, moved, before, it.dst.value) ==>
             f.stat || f.mkdir || (f.rename && (f.open || f.create || f.write || f.close || f.remove)))
  }

  /** Apart from the moved files there is nothing new, and no source was left behind. */
  ghost predicate NothingElse(items: seq<Item>, moved: seq<Path>, before: map<Path, Content>, now: map<Path, Content>) {
    |moved| <= |items| && forall p :: p in now ==> p in moved || (p in before && !MovedAway(items, |moved|, p))
  }

  ghost predicate Distinct(items: seq<Item>) {
    forall i, j :: 0 <= i < j < |items| ==> items[i].src != items[j].src
  }

  ghost predicate AllThere(items: seq<Item>, files: map<Path, Content>) {
    forall i :: 0 <= i < |items| ==> items[i].src in files
  }

  /** What holds before each move of the loop. */
  ghost predicate SoFar(items: seq<Item>, moved: seq<Path>, before: map<Path, Content>, now: map<Path, Content>) {
    && |moved| <= |items| && Distinct(items) && AllThere(items, before)
    && NoLoss(items, moved, before, now) && NothingElse(items, moved, before, now)
  }

  lemma NextIsThere(items: seq<Item>, moved: seq<Path>, before: map<Path, Content>, now: map<Path, Content>)
    requires SoFar(items, moved, before, now) && |moved| < |items|
    ensures items[|moved|].src in now && now[items[|moved|].src] == before[items[|moved|].src]
  {
    assert !MovedAway(items, |moved|, items[|moved|].src);
  }

  lemma FailedMove(items: seq<Item>, moved: seq<Path>, before: map<Path, Content>,
                   was: map<Path, Content>, now: map<Path, Content>, err: MoveError)
    requires SoFar(items, moved, before, was) && |moved| < |items| && items[|moved|].dst.Some?
    requires err != RenderFailed && err != NoAudio
    requires var it := items[|moved|]; var f := it.faults;
             && (it.dst.value in was ==> err == DestinationExists && now == was)
             && (it.dst.value !in was ==>
                   f.stat || f.mkdir || (f.rename && (f.open || f.create || f.write || f.close || f.remove)))
             && now - {it.dst.value} == was - {it.dst.value}
    ensures StoppedBy(items, moved, before, err) && NoLoss(items, moved, before, now)
    ensures forall p :: p in now ==> p in before || p in moved || LeftOver(items, moved, p)
  {
    FailedMoveKeeps(items, moved, before, was, now, items[|moved|].dst.value);
    OnlyAt(was, now, items[|moved|].dst.value);
  }

  lemma WorkedMove(items: seq<Item>, moved: seq<Path>, before: map<Path, Content>,
                   was: map<Path, Content>, now: map<Path, Content>)
    requires SoFar(items, moved, before, was) && |moved| < |items| && items[|moved|].dst.Some?
    requires var it := items[|moved|];
             it.src in was && it.dst.value !in was && now == (was - {it.src})[it.dst.value := was[it.src]]
    ensures SoFar(items, moved + [items[|moved|].dst.value], before, now)
  {
    MovedOneMore(items, moved, before, was, now, items[|moved|].dst.value);
    NothingElseNow(items, moved, before, was, now, items[|moved|].dst.value);
  }

  /** Two items with one destination: the second is never moved. */
  lemma SameTargetStops(items: seq<Item>, moved: seq<Path>, before: map<Path, Content>, now: map<Path, Content>)
    requires NoLoss(items, moved, before, now)
    ensures forall i, j :: 0 <= i < j < |items| && items[i].dst.Some? && items[i].dst == items[j].dst ==> |moved| <= j
  {
    assert forall i, j :: 0 <= i < j < |moved| ==> items[i].dst.value != items[j].dst.value;
  }

  lemma NothingElseNow(items: seq<Item>, moved: seq<Path>, before: map<Path, Content>,
                       was: map<Path, Content>, now: map<Path, Content>, dst: Path)
    requires |moved| < |items| && NothingElse(items, moved, before, was)
    requires items[|moved|].src in was && now == (was - {items[|moved|].src})[dst := was[items[|moved|].src]]
    ensures NothingElse(items, moved + [dst], before, now)
  {
    forall p | p in now && p != dst
      ensures p in moved || (p in before && !MovedAway(items, |moved| + 1, p))
    {
      assert p in was && p != items[|moved|].src;
    }
  }

  /** Where the item that failed was headed. */
  predicate LeftOver(items: seq<Item>, moved: seq<Path>, p: Path) {
    |moved| < |items| && items[|moved|].dst == Some(p)
  }

  /** The outputs worth moving, in walk order. */
  ghost function Candidates(walked: seq<(Item, string)>): seq<Item> {
    if walked == [] then []
    else
      var n := |walked| - 1;
      Candidates(walked[..n]) + if walked[n].1 == ".flac" || walked[n].1 == ".cue" then [walked[n].0] else []
  }

  lemma {:induction false} CandidatesComeFromWalk(walked: seq<(Item, string)>)
    requires forall i, j :: 0 <= i < j < |walked| ==> walked[i].0.src != walked[j].0.src
    ensures forall c :: c in Candidates(walked) ==> exists i :: 0 <= i < |walked| && walked[i].0 == c
    ensures forall i, j :: 0 <= i < j < |Candidates(walked)| ==> Candidates(walked)[i].src != Candidates(walked)[j].src
  {
    if walked != [] {
      var n := |walked| - 1;
      CandidatesComeFromWalk(walked[..n]);
      forall c | c in Candidates(walked)
        ensures exists i :: 0 <= i < |walked| && walked[i].0 == c
      {
        if c in Candidates(walked[..n]) {
          var i :| 0 <= i < n && walked[..n][i].0 == c;
          assert walked[i].0 == c;
        } else {
          assert walked[n].0 == c;
        }
      }
      assert forall c :: c in Candidates(walked[..n]) ==> c.src != walked[n].0.src;
    }
  }

  lemma {:induction false} CandidateAt(walked: seq<(Item, string)>, i: nat) returns (k: nat)
    requires i < |walked| && (walked[i].1 == ".flac" || walked[i].1 == ".cue")
    ensures k < |Candidates(walked)| && Candidates(walked)[k] == walked[i].0
  {
    var n := |walked| - 1;
    if i == n {
      k := |Candidates(walked)| - 1;
    } else {
      k := CandidateAt(walked[..n], i);
    }
  }

  lemma {:induction false} CandidateFrom(walked: seq<(Item, string)>, k: nat) returns (i: nat)
    requires k < |Candidates(walked)|
    ensures i < |walked| && (walked[i].1 == ".flac" || walked[i].1 == ".cue") && Candidates(walked)[k] == walked[i].0
  {
    var n := |walked| - 1;
    if k < |Candidates(walked[..n])| {
      i := CandidateFrom(walked[..n], k);
    } else {
      i := n;
    }
  }

  lemma AllInPlace(walked: seq<(Item, string)>, moved: seq<Path>, before: map<Path, Content>, after: map<Path, Content>)
    requires NoLoss(Candidates(walked), moved, before, after) && |moved| == |Candidates(walked)|
    ensures forall i :: 0 <= i < |walked| && (walked[i].1 == ".flac" || walked[i].1 == ".cue") ==>
              InPlace(walked[i].0, before, after)
  {
    forall i | 0 <= i < |walked| && (walked[i].1 == ".flac" || walked[i].1 == ".cue")
      ensures InPlace(walked[i].0, before, after)
    {
      var k := CandidateAt(walked, i);
      assert Candidates(walked)[k].dst == Some(moved[k]);
    }
  }

  lemma OthersStay(walked: seq<(Item, string)>, moved: seq<Path>, before: map<Path, Content>, after: map<Path, Content>)
    requires NoLoss(Candidates(walked), moved, before, after)
    requires forall i, j :: 0 <= i < j < |walked| ==> walked[i].0.src != walked[j].0.src
    requires forall i :: 0 <= i < |walked| ==> walked[i].0.src in before
    ensures forall i :: 0 <= i < |walked| && walked[i].1 != ".flac" && walked[i].1 != ".cue" ==>
              walked[i].0.src in after && after[walked[i].0.src] == before[walked[i].0.src]
  {
    forall i | 0 <= i < |walked| && walked[i].1 != ".flac" && walked[i].1 != ".cue"
      ensures !MovedAway(Candidates(walked), |moved|, walked[i].0.src)
    {
      forall k | 0 <= k < |moved|
        ensures Candidates(walked)[k].src != walked[i].0.src
      {
        OtherSource(walked, i, k);
      }
    }
  }

  lemma OtherSource(walked: seq<(Item, string)>, i: nat, k: nat)
    requires forall i, j :: 0 <= i < j < |walked| ==> walked[i].0.src != walked[j].0.src
    requires i < |walked| && walked[i].1 != ".flac" && walked[i].1 != ".cue" && k < |Candidates(walked)|
    ensures Candidates(walked)[k].src != walked[i].0.src
  {
    var j := CandidateFrom(walked, k);
    assert walked[j].1 != walked[i].1;
  }

  /** What a library move guarantees at every point, with `moved` the reported
      destinations: the reported names are the rendered ones of the first items,
      distinct, each holding its source's bytes; every file that was there
      before and is not one of the moved sources is untouched; so no byte of any
      source is lost. */
  ghost predicate NoLoss(items: seq<Item>, moved: seq<Path>, before: map<Path, Content>, after: map<Path, Content>) {
    && |moved| <= |items|
    && Reported(items, moved, before, after)
    && (forall i :: 0 <= i < |moved| && moved[i] in before ==> MovedAway(items, i, moved[i]))
    && (forall p :: p in before && !MovedAway(items, |moved|, p) ==> p in after && after[p] == before[p])
  }

  ghost predicate Reported(items: seq<Item>, moved: seq<Path>, before: map<Path, Content>, after: map<Path, Content>)
    requires |moved| <= |items|
  {
    && (forall i :: 0 <= i < |moved| ==> items[i].dst == Some(moved[i]))
    && (forall i :: 0 <= i < |moved| ==>
          items[i].src in before && moved[i] in after && after[moved[i]] == before[items[i].src])
    && (forall i, j :: 0 <= i < j < |moved| ==> moved[i] != moved[j])
  }

  /** p is the source of one of the first k items. */
  ghost predicate MovedAway(items: seq<Item>, k: nat, p: Path)
    requires k <= |items|
  {
    exists i :: 0 <= i < k && items[i].src == p
  }

  lemma OnlyAt(before: map<Path, Content>, after: map<Path, Content>, dst: Path)
    requires after - {dst} == before - {dst}
    ensures forall p :: p in after ==> p in before || p == dst
  {
    assert forall p :: p in after && p != dst ==> p in after - {dst};
  }

  lemma FailedMoveKeeps(items: seq<Item>, moved: seq<Path>, start: map<Path, Content>,
                        before: map<Path, Content>, after: map<Path, Content>, dst: Path)
    requires NoLoss(items, moved, start, before)
    requires dst in before ==> after == before
    requires after - {dst} == before - {dst}
    ensures NoLoss(items, moved, start, after)
  {
    forall p | p != dst
      ensures p in after <==> p in before
      ensures p in before ==> after[p] == before[p]
    {
      assert p in after - {dst} <==> p in before - {dst};
      assert p in before ==> (after - {dst})[p] == (before - {dst})[p];
    }
  }

  lemma MovedOneMore(items: seq<Item>, moved: seq<Path>, start: map<Path, Content>,
                     before: map<Path, Content>, after: map<Path, Content>, dst: Path)
    requires |moved| < |items|
    requires forall i, j :: 0 <= i < j < |items| ==> items[i].src != items[j].src
    requires NoLoss(items, moved, start, before)
    requires var src := items[|moved|].src;
             && src in start && src in before && dst !in before
             && after == (before - {src})[dst := before[src]]
    requires items[|moved|].dst == Some(dst)
    ensures NoLoss(items, moved + [dst], start, after)
  {
    var k := |moved|;
    var src := items[k].src;
    assert !MovedAway(items, k, src);
    assert dst in start ==> MovedAway(items, k, dst);
    forall i | 0 <= i < k
      ensures moved[i] != src
    {
      assert !MovedAway(items, i, src);
    }
    ReportOneMore(items, moved, start, before, after, dst);
    forall p | p in start && !MovedAway(items, k + 1, p)
      ensures p in after && after[p] == start[p]
    {
      assert p != src && !MovedAway(items, k, p);
    }
    forall i | 0 <= i < k + 1 && (moved + [dst])[i] in start
      ensures MovedAway(items, i, (moved + [dst])[i])
    {
    }
  }

  lemma ReportOneMore(items: seq<Item>, moved: seq<Path>, start: map<Path, Content>,
                      before: map<Path, Content>, after: map<Path, Content>, dst: Path)
    requires |moved| < |items|
    requires Reported(items, moved, start, before)
    requires var src := items[|moved|].src;
             && src in start && src in before && before[src] == start[src] && dst !in before
             && after == (before - {src})[dst := before[src]]
             && forall i :: 0 <= i < |moved| ==> moved[i] != src
    requires items[|moved|].dst == Some(dst)
    ensures Reported(items, moved + [dst], start, after)
  {
    forall i | 0 <= i < |moved|
      ensures moved[i] != dst && moved[i] in after && after[moved[i]] == before[moved[i]]
    {
    }
  }

  /** The promise in the words of a reader: nothing a move started with is gone. */
  lemma NothingIsLost(items: seq<Item>, moved: seq<Path>, before: map<Path, Content>, after: map<Path, Content>)
    requires NoLoss(items, moved, before, after)
    requires forall i :: 0 <= i < |items| ==> items[i].src in before
    requires forall i, j :: 0 <= i < j < |items| ==> items[i].src != items[j].src
    ensures forall p :: p in before && (forall i :: 0 <= i < |items| ==> items[i].src != p) ==>
              p in after && after[p] == before[p]
    ensures forall i :: 0 <= i < |items| ==>
              || (items[i].src in after && after[items[i].src] == before[items[i].src])
              || (i < |moved| && moved[i] in after && after[moved[i]] == before[items[i].src])
    ensures before.Values <= after.Values
  {
    forall i | |moved| <= i < |items|
      ensures items[i].src in after && after[items[i].src] == before[items[i].src]
    {
      assert !MovedAway(items, |moved|, items[i].src);
    }
    forall v | v in before.Values
      ensures v in after.Values
    {
      var p :| p in before && before[p] == v;
      if MovedAway(items, |moved|, p) {
        var i :| 0 <= i < |moved| && items[i].src == p;
        assert after[moved[i]] == v;
      } else {
        assert after[p] == v;
      }
    }
  }
}
