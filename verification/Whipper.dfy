/** Two parser goroutines read whipper's stdout and stderr and share one
    AccurateRip accumulator and one announce-once flag (daemon/tools/whipper.go);
    the audio handler then condenses the result (audiocd.go, buildAccurateRipNotes). */
module Whipper {
  import opened Wrappers

  /** One output line, already matched against the row patterns. */
  datatype Line =
    | Blank
    | Chatter                                    // no structured signal; includes dropped DEBUG lines
    | TrackOk(track: int, confidence: int)       // classic "Track N OK (AccurateRip: C/..)"
    | NotAccurate(track: int)
    | CrcsMatch(track: int)
    | AlreadyRipped(track: int)

  /** What a goroutine does to the shared state, one atomic section at a time. */
  datatype Act = Announce | Record(track: int, confidence: int)

  function LineActs(l: Line): seq<Act> {
    match l
    case Blank => []
    case Chatter => [Announce]
    case TrackOk(t, c) => [Announce, Record(t, c)]
    case NotAccurate(t) => [Announce, Record(t, 0)]
    case CrcsMatch(t) => [Announce, Record(t, 1)]
    case AlreadyRipped(t) => [Announce, Record(t, 1)]
  }

  function StreamActs(lines: seq<Line>): seq<Act> {
    if lines == [] then [] else LineActs(lines[0]) + StreamActs(lines[1..])
  }

  /** m is some interleaving of a and b: each keeps its own order. */
  ghost predicate Interleaving(a: seq<Act>, b: seq<Act>, m: seq<Act>)
    decreases |m|
  {
    if m == [] then a == [] && b == []
    else
      || (a != [] && a[0] == m[0] && Interleaving(a[1..], b, m[1..]))
      || (b != [] && b[0] == m[0] && Interleaving(a, b[1..], m[1..]))
  }

  class Accumulator {
    var accurateRip: map<int, int>
    var announced: bool
    var hints: nat   // "preparing drive" lines logged

    constructor ()
      ensures accurateRip == map[] && !announced && hints == 0
    {
      accurateRip, announced, hints := map[], false, 0;
    }

    /** Keeps the larger confidence per track. */
    method RecordAR(track: int, confidence: int)
      modifies this
      ensures accurateRip.Keys == old(accurateRip).Keys + {track}
      ensures forall t :: t in old(accurateRip) && t != track ==> accurateRip[t] == old(accurateRip)[t]
      ensures accurateRip[track] ==
                if track in old(accurateRip) && old(accurateRip)[track] > confidence
                then old(accurateRip)[track] else confidence
      ensures announced == old(announced) && hints == old(hints)
    {
      if track in accurateRip && accurateRip[track] >= confidence {
        return;
      }
      accurateRip := accurateRip[track := confidence];
    }

    /** CompareAndSwap(false, true), then the hint for whoever won. */
    method AnnounceOnce()
      modifies this
      ensures announced && accurateRip == old(accurateRip)
      ensures hints == old(hints) + if old(announced) then 0 else 1
    {
      if !announced {
        announced := true;
        hints := hints + 1;
      }
    }

    /** Both goroutines to completion, in the order the scheduler chose. */
    method Run(ghost out: seq<Act>, ghost err: seq<Act>, schedule: seq<Act>)
      requires Interleaving(out, err, schedule)
      requires accurateRip == map[] && !announced && hints == 0
      modifies this
      ensures IsTrackMax(accurateRip, out + err)
      ensures hints == if Announce in out + err then 1 else 0
    {
      for i := 0 to |schedule|
        invariant IsTrackMax(accurateRip, schedule[..i])
        invariant announced <==> Announce in schedule[..i]
        invariant hints == if announced then 1 else 0
      {
        ghost var before := accurateRip;
        assert schedule[..i + 1] == schedule[..i] + [schedule[i]];
        match schedule[i]
        case Announce =>
          AnnounceOnce();
          SameRecords(before, schedule[..i], schedule[..i + 1]);
        case Record(t, c) =>
          RecordAR(t, c);
          TrackMaxExtends(before, accurateRip, schedule[..i], t, c);
      }
      assert schedule[..|schedule|] == schedule;
      InterleavingElements(out, err, schedule);
      SameRecords(accurateRip, schedule, out + err);
    }
  }

  /** m holds exactly the recorded tracks, each with the largest confidence recorded for it. */
  ghost predicate IsTrackMax(m: map<int, int>, acts: seq<Act>) {
    && (forall t, c :: Record(t, c) in acts ==> t in m && c <= m[t])
    && (forall t :: t in m ==> Record(t, m[t]) in acts)
  }

  lemma SameRecords(m: map<int, int>, a: seq<Act>, b: seq<Act>)
    requires IsTrackMax(m, a)
    requires forall x: Act :: x.Record? ==> (x in a <==> x in b)
    ensures IsTrackMax(m, b)
  {
  }

  lemma TrackMaxExtends(m: map<int, int>, m': map<int, int>, acts: seq<Act>, t: int, c: int)
    requires IsTrackMax(m, acts)
    requires m'.Keys == m.Keys + {t}
    requires forall u :: u in m && u != t ==> m'[u] == m[u]
    requires m'[t] == if t in m && m[t] > c then m[t] else c
    ensures IsTrackMax(m', acts + [Record(t, c)])
  {
  }

  lemma {:induction false} InterleavingElements(a: seq<Act>, b: seq<Act>, m: seq<Act>)
    requires Interleaving(a, b, m)
    ensures forall x :: x in m <==> x in a + b
    decreases |m|
  {
    if m != [] {
      assert m == [m[0]] + m[1..];
      if a != [] && a[0] == m[0] && Interleaving(a[1..], b, m[1..]) {
        InterleavingElements(a[1..], b, m[1..]);
        assert a == [a[0]] + a[1..];
      } else {
        InterleavingElements(a, b[1..], m[1..]);
        assert b == [b[0]] + b[1..];
      }
    }
  }

  /** The specification has only one solution, so the scheduler cannot change the result. */
  lemma TrackMaxUnique(m: map<int, int>, m': map<int, int>, acts: seq<Act>)
    requires IsTrackMax(m, acts) && IsTrackMax(m', acts)
    ensures m == m'
  {
    forall t | t in m
      ensures t in m' && m[t] == m'[t]
    {
      assert Record(t, m[t]) in acts;
      assert Record(t, m'[t]) in acts;
    }
    forall t | t in m'
      ensures t in m
    {
      assert Record(t, m'[t]) in acts;
    }
  }

  /** A stream tries to announce exactly when it has a line that is not blank. */
  lemma {:induction false} AnnounceIff(lines: seq<Line>)
    ensures Announce in StreamActs(lines) <==> exists i :: 0 <= i < |lines| && lines[i] != Blank
  {
    if lines != [] {
      AnnounceIff(lines[1..]);
      if lines[0] != Blank {
        assert LineActs(lines[0])[0] == Announce;
      } else {
        assert StreamActs(lines) == StreamActs(lines[1..]);
        if i :| 0 <= i < |lines| && lines[i] != Blank {
          assert lines[1..][i - 1] != Blank;
        }
      }
    }
  }

  /** What one line tells of a track: the confidence of an AccurateRip match, 0
      if it did not match, 1 if its checksums match or it had been ripped already. */
  predicate Tells(l: Line, t: int, c: int) {
    l == TrackOk(t, c) || (l == NotAccurate(t) && c == 0) || ((l == CrcsMatch(t) || l == AlreadyRipped(t)) && c == 1)
  }

  lemma {:induction false} RecordedIff(lines: seq<Line>, t: int, c: int)
    ensures Record(t, c) in StreamActs(lines) <==> exists i :: 0 <= i < |lines| && Tells(lines[i], t, c)
  {
    if lines != [] {
      RecordedIff(lines[1..], t, c);
      assert Record(t, c) in LineActs(lines[0]) <==> Tells(lines[0], t, c) by {
        assert lines[0].TrackOk? ==> LineActs(lines[0])[1] == Record(lines[0].track, lines[0].confidence);
        assert lines[0].NotAccurate? ==> LineActs(lines[0])[1] == Record(lines[0].track, 0);
        assert lines[0].CrcsMatch? || lines[0].AlreadyRipped? ==> LineActs(lines[0])[1] == Record(lines[0].track, 1);
      }
      assert forall i :: 0 <= i < |lines| - 1 ==> lines[1..][i] == lines[i + 1];
      if i :| 0 <= i < |lines| && Tells(lines[i], t, c) && i > 0 {
        assert Tells(lines[1..][i - 1], t, c);
      }
    }
  }

  /** A track's confidence after both streams: the largest that any of their
      lines tells of it. */
  lemma TrackConfidence(out: seq<Line>, err: seq<Line>, m: map<int, int>, t: int)
    requires IsTrackMax(m, StreamActs(out) + StreamActs(err))
    ensures t in m ==> exists i :: 0 <= i < |out + err| && Tells((out + err)[i], t, m[t])
    ensures forall i, c :: 0 <= i < |out + err| && Tells((out + err)[i], t, c) ==> t in m && c <= m[t]
  {
    forall i, c | 0 <= i < |out + err| && Tells((out + err)[i], t, c)
      ensures t in m && c <= m[t]
    {
      RecordedIff(out, t, c);
      RecordedIff(err, t, c);
      if i < |out| {
        assert Tells(out[i], t, c);
      } else {
        assert Tells(err[i - |out|], t, c);
      }
      assert Record(t, c) in StreamActs(out) + StreamActs(err);
    }
    if t in m {
      RecordedIff(out, t, m[t]);
      RecordedIff(err, t, m[t]);
      assert Record(t, m[t]) in StreamActs(out) + StreamActs(err);
      if Record(t, m[t]) in StreamActs(out) {
        var i :| 0 <= i < |out| && Tells(out[i], t, m[t]);
        assert Tells((out + err)[i], t, m[t]);
      } else {
        var i :| 0 <= i < |err| && Tells(err[i], t, m[t]);
        assert Tells((out + err)[|out| + i], t, m[t]);
      }
    }
  }

  // ---- the rip step's notes ----

  datatype Status = Uncalibrated | Unverified | Verified

  datatype Notes = Notes(status: Status, verifiedTracks: int, totalTracks: int, confidence: Option<(int, int)>)

  /** buildAccurateRipNotes: the map is visited in an order nobody controls, yet
      every field of the result is pinned by the map alone. */
  method BuildAccurateRipNotes(calibrated: bool, ar: map<int, int>) returns (r: Option<Notes>)
    ensures r.None? <==> !calibrated && ar == map[]
    ensures r.Some? ==>
              && r.value.verifiedTracks == |set t | t in ar && ar[t] >= 1|
              && r.value.totalTracks == |ar|
              && (r.value.confidence.Some? <==> ar != map[])
              && (ar != map[] ==>
                    && IsLeastValue(ar, r.value.confidence.value.0)
                    && IsGreatestValue(ar, r.value.confidence.value.1))
              && (r.value.status == Uncalibrated <==> !calibrated)
              && (r.value.status == Verified <==> calibrated && ar != map[] && r.value.confidence.value.0 >= 1)
  {
    if !calibrated && |ar| == 0 {
      return None;
    }
    var verified, total := 0, |ar|;
    var minConf, maxConf := 0, 0;
    var first := true;
    var rest := ar.Keys;
    while rest != {}
      invariant rest <= ar.Keys
      invariant verified == |GoodTracks(ar, ar.Keys - rest)|
      invariant first <==> rest == ar.Keys
      invariant !first ==> exists t :: t in ar.Keys - rest && ar[t] == minConf
      invariant !first ==> exists t :: t in ar.Keys - rest && ar[t] == maxConf
      invariant forall t :: t in ar.Keys - rest ==> minConf <= ar[t] <= maxConf
    {
      var t := PickOne(rest);
      var conf := ar[t];
      GoodTracksGrow(ar, ar.Keys - rest, t);
      assert ar.Keys - (rest - {t}) == ar.Keys - rest + {t};
      rest := rest - {t};
      if conf >= 1 {
        verified := verified + 1;
      }
      if first {
        minConf, maxConf := conf, conf;
        first := false;
        continue;
      }
      if conf < minConf {
        minConf := conf;
      }
      if conf > maxConf {
        maxConf := conf;
      }
    }
    assert ar.Keys - rest == ar.Keys;
    assert GoodTracks(ar, ar.Keys) == set t | t in ar && ar[t] >= 1;
    AllGood(ar);
    var status := Unverified;
    if !calibrated {
      status := Uncalibrated;
    } else if total > 0 && verified == total {
      status := Verified;
    }
    r := Some(Notes(status, verified, total, if total > 0 then Some((minConf, maxConf)) else None));
  }

  ghost predicate IsLeastValue(m: map<int, int>, v: int) {
    (exists t :: t in m && m[t] == v) && forall t :: t in m ==> v <= m[t]
  }

  ghost predicate IsGreatestValue(m: map<int, int>, v: int) {
    (exists t :: t in m && m[t] == v) && forall t :: t in m ==> m[t] <= v
  }

  ghost function GoodTracks(m: map<int, int>, among: set<int>): set<int> {
    set t | t in among && t in m && m[t] >= 1
  }

  lemma GoodTracksGrow(m: map<int, int>, among: set<int>, t: int)
    requires t in m && t !in among
    ensures |GoodTracks(m, among + {t})| == |GoodTracks(m, among)| + if m[t] >= 1 then 1 else 0
  {
    if m[t] >= 1 {
      assert GoodTracks(m, among + {t}) == GoodTracks(m, among) + {t};
    } else {
      assert GoodTracks(m, among + {t}) == GoodTracks(m, among);
    }
  }

  /** Counting every track as good is the same as every track being good. */
  lemma AllGood(m: map<int, int>)
    ensures |GoodTracks(m, m.Keys)| == |m| <==> forall t :: t in m ==> m[t] >= 1
  {
    var good := GoodTracks(m, m.Keys);
    assert good <= m.Keys;
    if forall t :: t in m ==> m[t] >= 1 {
      assert good == m.Keys;
    } else {
      var t :| t in m && m[t] < 1;
      SubsetSize(good, m.Keys - {t});
    }
  }
}
