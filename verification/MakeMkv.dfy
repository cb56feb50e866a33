/** The makemkvcon scan parser: rows applied one by one to maps of titles and
    tracks, then listed in order (daemon/tools/makemkv.go, ParseMakeMKVInfo). */
module MakeMkv {
  import opened Wrappers
  import opened Text
  import opened Decimal
  import opened MakeMkvRows

  datatype TitleInfo = TitleInfo(chapters: int, duration: int, size: int, file: string)

  datatype TrackInfo = TrackInfo(kind: string, lang: string, codec: string, isDefault: bool, forced: bool)

  datatype Track = Track(index: int, info: TrackInfo)

  datatype Title = Title(id: int, info: TitleInfo, tracks: seq<Track>)

  datatype TrackId = TrackId(tid: int, sid: int)

  /** Tracks are keyed by title and stream, whether the title is known or not. */
  datatype Info = Info(titles: map<int, TitleInfo>, tracks: map<TrackId, TrackInfo>)

  const NO_TITLE := TitleInfo(0, 0, 0, "")
  const NO_TRACK := TrackInfo("", "", "", false, false)

  function WithTitleCode(t: TitleInfo, code: int, val: string): TitleInfo {
    if code == 8 then t.(chapters := Atoi(val))
    else if code == 9 then t.(duration := Duration(val))
    else if code == 11 then t.(size := Atoi(val))
    else if code == 27 then t.(file := val)
    else t
  }

  function WithTrackCode(t: TrackInfo, code: int, val: string): TrackInfo {
    if code == 1 then t.(kind := val)
    else if code == 3 then t.(lang := val)
    else if code == 6 then t.(codec := val)
    else if code == 28 then t.(isDefault := val != "")
    else if code == 30 then t.(forced := val != "")
    else t
  }

  /** parseTINFO and parseSINFO, on a row that has the right shape. */
  function ApplyRow(info: Info, r: Row): Info {
    match r.key
    case TitleKey(tid, code) =>
      var t := if tid in info.titles then info.titles[tid] else NO_TITLE;
      info.(titles := info.titles[tid := WithTitleCode(t, code, r.val)])
    case TrackKey(tid, sid, code) =>
      var t := if TrackId(tid, sid) in info.tracks then info.tracks[TrackId(tid, sid)] else NO_TRACK;
      info.(tracks := info.tracks[TrackId(tid, sid) := WithTrackCode(t, code, r.val)])
  }

  function ApplyRows(rows: seq<Row>, n: nat): Info
    requires n <= |rows|
  {
    if n == 0 then Info(map[], map[]) else ApplyRow(ApplyRows(rows, n - 1), rows[n - 1])
  }

  /** What all rows together say. */
  function Collected(rows: seq<Row>): Info {
    ApplyRows(rows, |rows|)
  }

  // ---- the order of rows ----

  /** The value of the last of the first n rows with this key. */
  function LastVal(rows: seq<Row>, n: nat, key: Key): Option<string>
    requires n <= |rows|
  {
    if n == 0 then None else if rows[n - 1].key == key then Some(rows[n - 1].val) else LastVal(rows, n - 1, key)
  }

  function Num(v: Option<string>): int {
    if v.Some? then Atoi(v.value) else 0
  }

  function Str(v: Option<string>): string {
    if v.Some? then v.value else ""
  }

  /** The title put together from the last value of each code. */
  function TitleOf(vals: Key -> Option<string>, tid: int): TitleInfo {
    TitleInfo(Num(vals(TitleKey(tid, 8))),
              (var d := vals(TitleKey(tid, 9)); if d.Some? then Duration(d.value) else 0),
              Num(vals(TitleKey(tid, 11))), Str(vals(TitleKey(tid, 27))))
  }

  function TrackOf(vals: Key -> Option<string>, tid: int, sid: int): TrackInfo {
    TrackInfo(Str(vals(TrackKey(tid, sid, 1))), Str(vals(TrackKey(tid, sid, 3))), Str(vals(TrackKey(tid, sid, 6))),
              Str(vals(TrackKey(tid, sid, 28))) != "", Str(vals(TrackKey(tid, sid, 30))) != "")
  }

  function Vals(rows: seq<Row>, n: nat): Key -> Option<string>
    requires n <= |rows|
  {
    (k: Key) => LastVal(rows, n, k)
  }

  ghost predicate HasTitle(rows: seq<Row>, n: nat, tid: int)
    requires n <= |rows|
  {
    exists i :: 0 <= i < n && rows[i].key.TitleKey? && rows[i].key.tid == tid
  }

  ghost predicate HasTrack(rows: seq<Row>, n: nat, tid: int, sid: int)
    requires n <= |rows|
  {
    exists i :: 0 <= i < n && rows[i].key.TrackKey? && rows[i].key.tid == tid && rows[i].key.sid == sid
  }

  lemma {:induction false} NoTitleNoVals(rows: seq<Row>, n: nat, tid: int, code: int)
    requires n <= |rows| && !HasTitle(rows, n, tid)
    ensures LastVal(rows, n, TitleKey(tid, code)) == None
  {
    if n > 0 {
      NoTitleNoVals(rows, n - 1, tid, code);
    }
  }

  lemma {:induction false} NoTrackNoVals(rows: seq<Row>, n: nat, tid: int, sid: int, code: int)
    requires n <= |rows| && !HasTrack(rows, n, tid, sid)
    ensures LastVal(rows, n, TrackKey(tid, sid, code)) == None
  {
    if n > 0 {
      NoTrackNoVals(rows, n - 1, tid, sid, code);
    }
  }

  lemma NoTitleNoInfo(rows: seq<Row>, n: nat, tid: int)
    requires n <= |rows| && !HasTitle(rows, n, tid)
    ensures TitleOf(Vals(rows, n), tid) == NO_TITLE
  {
    NoTitleNoVals(rows, n, tid, 8);
    NoTitleNoVals(rows, n, tid, 9);
    NoTitleNoVals(rows, n, tid, 11);
    NoTitleNoVals(rows, n, tid, 27);
  }

  lemma TitleRowCounts(rows: seq<Row>, n: nat, tid: int)
    requires 0 < n <= |rows|
    ensures var r, was, now := rows[n - 1], TitleOf(Vals(rows, n - 1), tid), TitleOf(Vals(rows, n), tid);
            now == if r.key.TitleKey? && r.key.tid == tid then WithTitleCode(was, r.key.code, r.val) else was
  {
  }

  lemma {:induction false} TitlesCollected(rows: seq<Row>, n: nat, tid: int)
    requires n <= |rows|
    ensures tid in ApplyRows(rows, n).titles <==> HasTitle(rows, n, tid)
  {
    if n > 0 {
      TitlesCollected(rows, n - 1, tid);
      var r := rows[n - 1];
      assert HasTitle(rows, n, tid)
        <==> HasTitle(rows, n - 1, tid) || (r.key.TitleKey? && r.key.tid == tid);
    }
  }

  /** Row by row, the maps hold exactly the titles mentioned, with the last
      value of each code. */
  lemma {:induction false} TitlesHoldLast(rows: seq<Row>, n: nat, tid: int)
    requires n <= |rows|
    ensures var titles := ApplyRows(rows, n).titles;
            && (tid in titles <==> HasTitle(rows, n, tid))
            && (tid in titles ==> titles[tid] == TitleOf(Vals(rows, n), tid))
  {
    TitlesCollected(rows, n, tid);
    if n > 0 {
      TitlesHoldLast(rows, n - 1, tid);
      TitleRowCounts(rows, n, tid);
      if !HasTitle(rows, n - 1, tid) {
        NoTitleNoInfo(rows, n - 1, tid);
      }
    }
  }

  lemma NoTrackNoInfo(rows: seq<Row>, n: nat, tid: int, sid: int)
    requires n <= |rows| && !HasTrack(rows, n, tid, sid)
    ensures TrackOf(Vals(rows, n), tid, sid) == NO_TRACK
  {
    NoTrackNoVals(rows, n, tid, sid, 1);
    NoTrackNoVals(rows, n, tid, sid, 3);
    NoTrackNoVals(rows, n, tid, sid, 6);
    NoTrackNoVals(rows, n, tid, sid, 28);
    NoTrackNoVals(rows, n, tid, sid, 30);
  }

  lemma TrackRowCounts(rows: seq<Row>, n: nat, tid: int, sid: int)
    requires 0 < n <= |rows|
    ensures var r, was, now := rows[n - 1], TrackOf(Vals(rows, n - 1), tid, sid), TrackOf(Vals(rows, n), tid, sid);
            now == if r.key.TrackKey? && r.key.tid == tid && r.key.sid == sid
                   then WithTrackCode(was, r.key.code, r.val) else was
  {
  }

  lemma {:induction false} TracksCollected(rows: seq<Row>, n: nat, tid: int, sid: int)
    requires n <= |rows|
    ensures TrackId(tid, sid) in ApplyRows(rows, n).tracks <==> HasTrack(rows, n, tid, sid)
  {
    if n > 0 {
      TracksCollected(rows, n - 1, tid, sid);
      var r := rows[n - 1];
      assert HasTrack(rows, n, tid, sid)
        <==> HasTrack(rows, n - 1, tid, sid) || (r.key.TrackKey? && r.key.tid == tid && r.key.sid == sid);
    }
  }

  lemma {:induction false} TracksHoldLast(rows: seq<Row>, n: nat, tid: int, sid: int)
    requires n <= |rows|
    ensures var tracks := ApplyRows(rows, n).tracks;
            && (TrackId(tid, sid) in tracks <==> HasTrack(rows, n, tid, sid))
            && (TrackId(tid, sid) in tracks ==> tracks[TrackId(tid, sid)] == TrackOf(Vals(rows, n), tid, sid))
  {
    TracksCollected(rows, n, tid, sid);
    if n > 0 {
      TracksHoldLast(rows, n - 1, tid, sid);
      TrackRowCounts(rows, n, tid, sid);
      if !HasTrack(rows, n - 1, tid, sid) {
        NoTrackNoInfo(rows, n - 1, tid, sid);
      }
    }
  }

  /** Rows with the same key agree; distinct keys are the simplest case. */
  ghost predicate Consistent(rows: seq<Row>) {
    forall i, j :: 0 <= i < |rows| && 0 <= j < |rows| && rows[i].key == rows[j].key ==> rows[i].val == rows[j].val
  }

  lemma {:induction false} LastValIsSome(rows: seq<Row>, n: nat, key: Key)
    requires n <= |rows|
    ensures var v := LastVal(rows, n, key);
            if v.Some? then exists i :: 0 <= i < n && rows[i] == Row(key, v.value)
            else forall i :: 0 <= i < n ==> rows[i].key != key
  {
    if n > 0 {
      LastValIsSome(rows, n - 1, key);
    }
  }

  lemma SameVals(a: seq<Row>, b: seq<Row>, key: Key)
    requires Consistent(a) && forall r :: r in a <==> r in b
    ensures LastVal(a, |a|, key) == LastVal(b, |b|, key)
  {
    LastValIsSome(a, |a|, key);
    LastValIsSome(b, |b|, key);
    var v, w := LastVal(a, |a|, key), LastVal(b, |b|, key);
    if v.Some? {
      assert Row(key, v.value) in b;
    }
    if w.Some? {
      assert Row(key, w.value) in a;
    }
  }

  lemma SameMentions(a: seq<Row>, b: seq<Row>, tid: int, sid: int)
    requires forall r :: r in a ==> r in b
    ensures HasTitle(a, |a|, tid) ==> HasTitle(b, |b|, tid)
    ensures HasTrack(a, |a|, tid, sid) ==> HasTrack(b, |b|, tid, sid)
  {
    if HasTitle(a, |a|, tid) {
      var i :| 0 <= i < |a| && a[i].key.TitleKey? && a[i].key.tid == tid;
      assert a[i] in b;
    }
    if HasTrack(a, |a|, tid, sid) {
      var i :| 0 <= i < |a| && a[i].key.TrackKey? && a[i].key.tid == tid && a[i].key.sid == sid;
      assert a[i] in b;
    }
  }

  lemma SameTitle(a: seq<Row>, b: seq<Row>, tid: int)
    requires Consistent(a) && forall r :: r in a <==> r in b
    ensures TitleOf(Vals(a, |a|), tid) == TitleOf(Vals(b, |b|), tid)
  {
    SameVals(a, b, TitleKey(tid, 8));
    SameVals(a, b, TitleKey(tid, 9));
    SameVals(a, b, TitleKey(tid, 11));
    SameVals(a, b, TitleKey(tid, 27));
  }

  lemma SameTrack(a: seq<Row>, b: seq<Row>, tid: int, sid: int)
    requires Consistent(a) && forall r :: r in a <==> r in b
    ensures TrackOf(Vals(a, |a|), tid, sid) == TrackOf(Vals(b, |b|), tid, sid)
  {
    SameVals(a, b, TrackKey(tid, sid, 1));
    SameVals(a, b, TrackKey(tid, sid, 3));
    SameVals(a, b, TrackKey(tid, sid, 6));
    SameVals(a, b, TrackKey(tid, sid, 28));
    SameVals(a, b, TrackKey(tid, sid, 30));
  }

  /** Reordering rows, or repeating some, changes nothing as long as no two rows
      give one key different values. */
  lemma OrderDoesNotMatter(a: seq<Row>, b: seq<Row>)
    requires Consistent(a) && forall r :: r in a <==> r in b
    ensures Collected(a) == Collected(b)
  {
    forall tid: int
      ensures tid in Collected(a).titles <==> tid in Collected(b).titles
      ensures tid in Collected(a).titles ==> Collected(a).titles[tid] == Collected(b).titles[tid]
    {
      TitlesHoldLast(a, |a|, tid);
      TitlesHoldLast(b, |b|, tid);
      SameMentions(a, b, tid, 0);
      SameMentions(b, a, tid, 0);
      SameTitle(a, b, tid);
    }
    assert Collected(a).titles == Collected(b).titles;
    forall k: TrackId
      ensures k in Collected(a).tracks <==> k in Collected(b).tracks
      ensures k in Collected(a).tracks ==> Collected(a).tracks[k] == Collected(b).tracks[k]
    {
      TracksHoldLast(a, |a|, k.tid, k.sid);
      TracksHoldLast(b, |b|, k.tid, k.sid);
      SameMentions(a, b, k.tid, k.sid);
      SameMentions(b, a, k.tid, k.sid);
      SameTrack(a, b, k.tid, k.sid);
    }
    assert Collected(a).tracks == Collected(b).tracks;
  }

  // ---- the listing ----

  predicate Increasing(xs: seq<int>) {
    forall i, j :: 0 <= i < j < |xs| ==> xs[i] < xs[j]
  }

  predicate Among(x: int, xs: seq<int>) {
    exists k :: 0 <= k < |xs| && xs[k] == x
  }

  lemma Where(x: int, xs: seq<int>) returns (k: nat)
    requires Among(x, xs)
    ensures k < |xs| && xs[k] == x
  {
    k :| 0 <= k < |xs| && xs[k] == x;
  }

  function Ids(titles: seq<Title>): seq<int> {
    seq(|titles|, (i: nat) requires i < |titles| => titles[i].id)
  }

  function Indexes(tracks: seq<Track>): seq<int> {
    seq(|tracks|, (i: nat) requires i < |tracks| => tracks[i].index)
  }

  ghost predicate ListsTracks(info: Info, tid: int, tracks: seq<Track>) {
    && Increasing(Indexes(tracks))
    && (forall sid :: Among(sid, Indexes(tracks)) <==> TrackId(tid, sid) in info.tracks)
    && (forall i :: 0 <= i < |tracks| ==> TrackId(tid, tracks[i].index) in info.tracks
                                          && tracks[i].info == info.tracks[TrackId(tid, tracks[i].index)])
  }

  /** Every title once, strictly by ID, each with its tracks strictly by index. */
  ghost predicate Lists(info: Info, titles: seq<Title>) {
    && Increasing(Ids(titles))
    && (forall tid :: Among(tid, Ids(titles)) <==> tid in info.titles)
    && (forall i :: 0 <= i < |titles| ==> titles[i].id in info.titles && titles[i].info == info.titles[titles[i].id]
                                          && ListsTracks(info, titles[i].id, titles[i].tracks))
  }

  /** In strictly increasing sequences with the same elements, an element never
      comes earlier in one than in the other. */
  lemma NotEarlier(xs: seq<int>, ys: seq<int>, n: nat) returns (k: nat)
    requires Increasing(xs) && (forall x :: Among(x, xs) ==> Among(x, ys)) && n < |xs|
    requires n <= |ys| && forall j :: 0 <= j < n ==> xs[j] == ys[j]
    ensures n <= k < |ys| && ys[k] == xs[n]
  {
    assert Among(xs[n], xs);
    k := Where(xs[n], ys);
  }

  lemma {:induction false} IncreasingIsUnique(xs: seq<int>, ys: seq<int>, n: nat)
    requires Increasing(xs) && Increasing(ys) && (forall x :: Among(x, xs) <==> Among(x, ys)) && n <= |xs|
    ensures n <= |ys| && forall j :: 0 <= j < n ==> xs[j] == ys[j]
  {
    if n > 0 {
      IncreasingIsUnique(xs, ys, n - 1);
      var k := NotEarlier(xs, ys, n - 1);
      var l := NotEarlier(ys, xs, n - 1);
    }
  }

  lemma SameIncreasing(xs: seq<int>, ys: seq<int>)
    requires Increasing(xs) && Increasing(ys) && forall x :: Among(x, xs) <==> Among(x, ys)
    ensures xs == ys
  {
    IncreasingIsUnique(xs, ys, |xs|);
    IncreasingIsUnique(ys, xs, |ys|);
  }

  lemma TracksListedOnce(info: Info, tid: int, a: seq<Track>, b: seq<Track>)
    requires ListsTracks(info, tid, a) && ListsTracks(info, tid, b)
    ensures a == b
  {
    SameIncreasing(Indexes(a), Indexes(b));
    assert |a| == |Indexes(a)| == |Indexes(b)| == |b|;
    forall i | 0 <= i < |a|
      ensures a[i] == b[i]
    {
      assert a[i].index == Indexes(a)[i] == Indexes(b)[i] == b[i].index;
    }
  }

  /** There is only one way to list what was collected. */
  lemma ListedOnce(info: Info, a: seq<Title>, b: seq<Title>)
    requires Lists(info, a) && Lists(info, b)
    ensures a == b
  {
    SameIncreasing(Ids(a), Ids(b));
    assert |a| == |Ids(a)| == |Ids(b)| == |b|;
    forall i | 0 <= i < |a|
      ensures a[i] == b[i]
    {
      assert a[i].id == Ids(a)[i] == Ids(b)[i] == b[i].id;
      TracksListedOnce(info, a[i].id, a[i].tracks, b[i].tracks);
    }
  }

  // ---- the parser ----

  lemma Inserted(xs: seq<int>, i: nat, x: int)
    requires i <= |xs|
    ensures forall y :: Among(y, xs[..i] + [x] + xs[i..]) <==> Among(y, xs) || y == x
  {
    var xs' := xs[..i] + [x] + xs[i..];
    assert xs'[i] == x;
    assert forall k :: 0 <= k < |xs| ==> xs'[if k < i then k else k + 1] == xs[k];
    assert forall k :: 0 <= k < |xs'| && k != i ==> xs'[k] == xs[if k < i then k else k - 1];
  }

  /** slices.Sort on distinct keys taken from a map in any order */
  method Sorted(keys: set<int>) returns (xs: seq<int>)
    ensures Increasing(xs) && forall x :: Among(x, xs) <==> x in keys
  {
    xs := [];
    var rest := keys;
    while rest != {}
      invariant rest <= keys && Increasing(xs) && forall x :: Among(x, xs) <==> x in keys - rest
      decreases |rest|
    {
      var x := PickOne(rest);
      var i := |xs|;
      while i > 0 && xs[i - 1] > x
        invariant 0 <= i <= |xs| && forall j :: i <= j < |xs| ==> x < xs[j]
      {
        i := i - 1;
      }
      assert forall j :: 0 <= j < i ==> xs[j] < x by {
        assert i > 0 ==> Among(xs[i - 1], xs);
      }
      var xs' := xs[..i] + [x] + xs[i..];
      Inserted(xs, i, x);
      xs := xs';
      rest := rest - {x};
    }
  }

  method MergeTracks(info: Info, tid: int) returns (tracks: seq<Track>)
    ensures ListsTracks(info, tid, tracks)
  {
    var idxs := Sorted(set k | k in info.tracks && k.tid == tid :: k.sid);
    tracks := [];
    for i := 0 to |idxs|
      invariant |tracks| == i
      invariant forall j :: 0 <= j < i ==> TrackId(tid, idxs[j]) in info.tracks
                                           && tracks[j] == Track(idxs[j], info.tracks[TrackId(tid, idxs[j])])
    {
      assert Among(idxs[i], idxs);
      tracks := tracks + [Track(idxs[i], info.tracks[TrackId(tid, idxs[i])])];
    }
    assert Indexes(tracks) == idxs;
    forall sid | TrackId(tid, sid) in info.tracks
      ensures Among(sid, idxs)
    {
      assert TrackId(tid, sid).tid == tid && TrackId(tid, sid).sid == sid;
    }
    forall j | 0 <= j < |tracks|
      ensures TrackId(tid, tracks[j].index) in info.tracks
    {
      assert Among(idxs[j], idxs);
    }
  }

  method List(info: Info) returns (titles: seq<Title>)
    ensures Lists(info, titles)
  {
    var tids := Sorted(info.titles.Keys);
    titles := [];
    for i := 0 to |tids|
      invariant |titles| == i
      invariant forall j :: 0 <= j < i ==> tids[j] in info.titles && titles[j].id == tids[j]
                                           && titles[j].info == info.titles[tids[j]]
                                            && ListsTracks(info, tids[j], titles[j].tracks)
    {
      assert Among(tids[i], tids);
      var tracks := MergeTracks(info, tids[i]);
      titles := titles + [Title(tids[i], info.titles[tids[i]], tracks)];
    }
    assert Ids(titles) == tids;
    forall j | 0 <= j < |titles|
      ensures titles[j].id in info.titles
    {
      assert Among(tids[j], tids);
    }
  }

  /** Fails only on blank input; otherwise lists what the rows say. */
  method ParseMakeMKVInfo(s: string) returns (r: Result<seq<Title>, string>)
    ensures r.Err? <==> TrimSpace(s) == ""
    ensures r.Ok? ==> Lists(Collected(Rows(s)), r.value)
  {
    if TrimSpace(s) == "" {
      return Err("ParseMakeMKVInfo: empty input");
    }
    var info := Collect(Lines(s));
    var titles := List(info);
    r := Ok(titles);
  }

  /** The scanning loop. */
  method Collect(lines: seq<string>) returns (info: Info)
    ensures info == Collected(Present(Parsed(lines), |lines|))
  {
    info := Info(map[], map[]);
    ghost var found := Parsed(lines);
    for i := 0 to |lines|
      invariant info == Collected(Present(found, i))
    {
      var row := ParseLine(lines[i]);
      CollectStep(found, i, row);
      if row.Some? {
        info := ApplyRow(info, row.value);
      }
    }
  }

  lemma CollectStep(found: seq<Option<Row>>, i: nat, row: Option<Row>)
    requires i < |found| && found[i] == row
    ensures Collected(Present(found, i + 1))
         == if row.Some? then ApplyRow(Collected(Present(found, i)), row.value) else Collected(Present(found, i))
  {
    if row.Some? {
      OneMoreRow(Present(found, i), row.value, |Present(found, i)|);
    }
  }

  lemma {:induction false} OneMoreRow(rows: seq<Row>, r: Row, n: nat)
    requires n <= |rows|
    ensures ApplyRows(rows + [r], n) == ApplyRows(rows, n)
  {
    if n > 0 {
      OneMoreRow(rows, r, n - 1);
    }
  }

  // ---- the round trip ----

  function Flag(b: bool): string {
    if b then "Default" else ""
  }

  function TrackRows(tid: int, t: Track): seq<Row> {
    [Row(TrackKey(tid, t.index, 1), t.info.kind), Row(TrackKey(tid, t.index, 3), t.info.lang),
     Row(TrackKey(tid, t.index, 6), t.info.codec), Row(TrackKey(tid, t.index, 28), Flag(t.info.isDefault)),
     Row(TrackKey(tid, t.index, 30), Flag(t.info.forced))]
  }

  function AllTrackRows(tid: int, tracks: seq<Track>): seq<Row> {
    if tracks == [] then [] else TrackRows(tid, tracks[0]) + AllTrackRows(tid, tracks[1..])
  }

  function TitleRows(t: Title): seq<Row>
    requires t.info.duration >= 0
  {
    [Row(TitleKey(t.id, 8), Itoa(t.info.chapters)), Row(TitleKey(t.id, 9), PrintDuration(t.info.duration)),
     Row(TitleKey(t.id, 11), Itoa(t.info.size)), Row(TitleKey(t.id, 27), t.info.file)]
  }

  /** The rows a scan of these titles consists of. */
  function AllRows(titles: seq<Title>): seq<Row>
    requires forall i :: 0 <= i < |titles| ==> titles[i].info.duration >= 0
  {
    if titles == [] then []
    else TitleRows(titles[0]) + AllTrackRows(titles[0].id, titles[0].tracks) + AllRows(titles[1..])
  }

  /** A row that belongs to some track, or title, of the list. */
  ghost predicate IsTrackRow(r: Row, tid: int, tracks: seq<Track>) {
    exists i :: 0 <= i < |tracks| && r in TrackRows(tid, tracks[i])
  }

  ghost predicate IsRow(r: Row, titles: seq<Title>)
    requires forall i :: 0 <= i < |titles| ==> titles[i].info.duration >= 0
  {
    exists i :: 0 <= i < |titles| && (r in TitleRows(titles[i]) || IsTrackRow(r, titles[i].id, titles[i].tracks))
  }

  lemma {:induction false} TrackRowsMembers(tid: int, tracks: seq<Track>, r: Row)
    ensures r in AllTrackRows(tid, tracks) <==> IsTrackRow(r, tid, tracks)
  {
    if tracks != [] {
      TrackRowsMembers(tid, tracks[1..], r);
      if IsTrackRow(r, tid, tracks[1..]) {
        var i :| 0 <= i < |tracks[1..]| && r in TrackRows(tid, tracks[1..][i]);
        assert r in TrackRows(tid, tracks[i + 1]);
      }
      if IsTrackRow(r, tid, tracks) && r !in TrackRows(tid, tracks[0]) {
        var i :| 0 <= i < |tracks| && r in TrackRows(tid, tracks[i]);
        assert r in TrackRows(tid, tracks[1..][i - 1]);
      }
    }
  }

  lemma {:induction false} RowsMembers(titles: seq<Title>, r: Row)
    requires forall i :: 0 <= i < |titles| ==> titles[i].info.duration >= 0
    ensures r in AllRows(titles) <==> IsRow(r, titles)
  {
    if titles != [] {
      var rest := titles[1..];
      RowsMembers(rest, r);
      TrackRowsMembers(titles[0].id, titles[0].tracks, r);
      if IsRow(r, rest) {
        var i :| 0 <= i < |rest| && (r in TitleRows(rest[i]) || IsTrackRow(r, rest[i].id, rest[i].tracks));
        assert titles[i + 1] == rest[i];
      }
      if IsRow(r, titles) && r !in TitleRows(titles[0]) && !IsTrackRow(r, titles[0].id, titles[0].tracks) {
        var i :| 0 <= i < |titles| && (r in TitleRows(titles[i]) || IsTrackRow(r, titles[i].id, titles[i].tracks));
        assert rest[i - 1] == titles[i];
      }
    }
  }

  predicate ValidTrack(t: Track) {
    InRange(t.index) && '\n' !in t.info.kind && '\n' !in t.info.lang && '\n' !in t.info.codec
  }

  /** What a scan can say: strictly increasing IDs and indexes, 64-bit numbers,
      no negative duration, no newline in a value, no row over the line limit. */
  ghost predicate Valid(titles: seq<Title>) {
    && Increasing(Ids(titles))
    && (forall i :: 0 <= i < |titles| ==> ValidTitle(titles[i]))
    && (forall r :: r in AllRows(titles) ==> |PrintRow(r)| < LIMIT)
  }

  ghost predicate ValidTitle(t: Title) {
    && InRange(t.id) && InRange(t.info.chapters) && InRange(t.info.size) && InRange(t.info.duration)
    && t.info.duration >= 0 && '\n' !in t.info.file
    && Increasing(Indexes(t.tracks)) && forall i :: 0 <= i < |t.tracks| ==> ValidTrack(t.tracks[i])
  }

  lemma TitleRowPrintable(t: Title, r: Row)
    requires ValidTitle(t) && r in TitleRows(t) && |PrintRow(r)| < LIMIT
    ensures Printable(r) && r.key.TitleKey? && r.key.tid == t.id
  {
  }

  lemma TrackRowPrintable(tid: int, t: Track, r: Row)
    requires InRange(tid) && ValidTrack(t) && r in TrackRows(tid, t) && |PrintRow(r)| < LIMIT
    ensures Printable(r) && r.key.TrackKey? && r.key.tid == tid && r.key.sid == t.index
  {
  }

  lemma RowsArePrintable(titles: seq<Title>, r: Row)
    requires Valid(titles) && r in AllRows(titles)
    ensures Printable(r)
  {
    RowsMembers(titles, r);
    var i :| 0 <= i < |titles| && (r in TitleRows(titles[i]) || IsTrackRow(r, titles[i].id, titles[i].tracks));
    if r in TitleRows(titles[i]) {
      TitleRowPrintable(titles[i], r);
    } else {
      var k :| 0 <= k < |titles[i].tracks| && r in TrackRows(titles[i].id, titles[i].tracks[k]);
      TrackRowPrintable(titles[i].id, titles[i].tracks[k], r);
    }
  }

  /** The title a row is about, and for a track row also the track. */
  lemma Origin(titles: seq<Title>, r: Row) returns (i: nat, k: nat)
    requires (forall i :: 0 <= i < |titles| ==> titles[i].info.duration >= 0) && IsRow(r, titles)
    ensures i < |titles| && Ids(titles)[i] == r.key.tid
    ensures r.key.TitleKey? ==> r in TitleRows(titles[i])
    ensures r.key.TrackKey? ==> k < |titles[i].tracks| && Indexes(titles[i].tracks)[k] == r.key.sid
                                && r in TrackRows(titles[i].id, titles[i].tracks[k])
  {
    i :| 0 <= i < |titles| && (r in TitleRows(titles[i]) || IsTrackRow(r, titles[i].id, titles[i].tracks));
    k := 0;
    if r !in TitleRows(titles[i]) {
      k :| 0 <= k < |titles[i].tracks| && r in TrackRows(titles[i].id, titles[i].tracks[k]);
      TrackRowKey(titles[i].id, titles[i].tracks[k], r);
    } else {
      TitleRowKey(titles[i], r);
    }
  }

  lemma TitleRowKey(t: Title, r: Row)
    requires t.info.duration >= 0 && r in TitleRows(t)
    ensures r.key.TitleKey? && r.key.tid == t.id
    ensures forall q :: q in TitleRows(t) && q.key == r.key ==> q.val == r.val
  {
  }

  lemma TrackRowKey(tid: int, t: Track, r: Row)
    requires r in TrackRows(tid, t)
    ensures r.key.TrackKey? && r.key.tid == tid && r.key.sid == t.index
    ensures forall q :: q in TrackRows(tid, t) && q.key == r.key ==> q.val == r.val
  {
  }

  /** Each key names one title, and one track of it, and so one value. */
  lemma SameKeySameRow(titles: seq<Title>, r: Row, q: Row)
    requires Valid(titles)
    ensures IsRow(r, titles) && IsRow(q, titles) && r.key == q.key ==> r.val == q.val
  {
    if IsRow(r, titles) && IsRow(q, titles) && r.key == q.key {
      var i, k := Origin(titles, r);
      var j, l := Origin(titles, q);
      assert i == j;
      if r.key.TitleKey? {
        TitleRowKey(titles[i], r);
      } else {
        assert ValidTitle(titles[i]);
        assert k == l;
        TrackRowKey(titles[i].id, titles[i].tracks[k], r);
      }
    }
  }

  lemma RowsAreConsistent(titles: seq<Title>)
    requires Valid(titles)
    ensures Consistent(AllRows(titles))
  {
    var rows := AllRows(titles);
    forall i, j | 0 <= i < |rows| && 0 <= j < |rows| && rows[i].key == rows[j].key
      ensures rows[i].val == rows[j].val
    {
      RowsMembers(titles, rows[i]);
      RowsMembers(titles, rows[j]);
      SameKeySameRow(titles, rows[i], rows[j]);
    }
  }

  lemma ValOfRow(rows: seq<Row>, r: Row)
    requires Consistent(rows) && r in rows
    ensures LastVal(rows, |rows|, r.key) == Some(r.val)
  {
    LastValIsSome(rows, |rows|, r.key);
  }

  /** A row of one of the titles has the last word on its key. */
  lemma TitleRowVal(titles: seq<Title>, i: nat, k: nat)
    requires Valid(titles) && i < |titles| && k < 4
    ensures var r, rows := TitleRows(titles[i])[k], AllRows(titles);
            LastVal(rows, |rows|, r.key) == Some(r.val) && HasTitle(rows, |rows|, titles[i].id)
  {
    var r, rows := TitleRows(titles[i])[k], AllRows(titles);
    RowsAreConsistent(titles);
    assert r in TitleRows(titles[i]);
    RowsMembers(titles, r);
    ValOfRow(rows, r);
    var n :| 0 <= n < |rows| && rows[n] == r;
  }

  lemma CollectedTitle(titles: seq<Title>, i: nat)
    requires Valid(titles) && i < |titles|
    ensures var info := Collected(AllRows(titles));
            titles[i].id in info.titles && info.titles[titles[i].id] == titles[i].info
  {
    var t, rows := titles[i], AllRows(titles);
    TitleRowVal(titles, i, 0);
    TitleRowVal(titles, i, 1);
    TitleRowVal(titles, i, 2);
    TitleRowVal(titles, i, 3);
    TitlesHoldLast(rows, |rows|, t.id);
    AtoiOfItoa(t.info.chapters);
    AtoiOfItoa(t.info.size);
    DurationOfPrinted(t.info.duration);
  }

  lemma CollectedTrack(titles: seq<Title>, i: nat, k: nat)
    requires Valid(titles) && i < |titles| && k < |titles[i].tracks|
    ensures var key := TrackId(titles[i].id, titles[i].tracks[k].index);
            var info := Collected(AllRows(titles)); key in info.tracks && info.tracks[key] == titles[i].tracks[k].info
  {
    var tid, t, rows := titles[i].id, titles[i].tracks[k], AllRows(titles);
    RowsAreConsistent(titles);
    forall r | r in TrackRows(tid, t)
      ensures r in rows && LastVal(rows, |rows|, r.key) == Some(r.val)
    {
      assert IsTrackRow(r, tid, titles[i].tracks);
      RowsMembers(titles, r);
      ValOfRow(rows, r);
    }
    var five := TrackRows(tid, t);
    assert five[0] in five && five[1] in five && five[2] in five && five[3] in five && five[4] in five;
    TracksHoldLast(rows, |rows|, tid, t.index);
    assert HasTrack(rows, |rows|, tid, t.index);
  }

  lemma TitleOrigin(titles: seq<Title>, tid: int)
    requires Valid(titles) && HasTitle(AllRows(titles), |AllRows(titles)|, tid)
    ensures Among(tid, Ids(titles))
  {
    var rows := AllRows(titles);
    var n :| 0 <= n < |rows| && rows[n].key.TitleKey? && rows[n].key.tid == tid;
    RowsMembers(titles, rows[n]);
    var i, _ := Origin(titles, rows[n]);
  }

  lemma TrackOrigin(titles: seq<Title>, tid: int, sid: int) returns (i: nat)
    requires Valid(titles) && HasTrack(AllRows(titles), |AllRows(titles)|, tid, sid)
    ensures i < |titles| && Ids(titles)[i] == tid && Among(sid, Indexes(titles[i].tracks))
  {
    var rows := AllRows(titles);
    var n :| 0 <= n < |rows| && rows[n].key.TrackKey? && rows[n].key.tid == tid && rows[n].key.sid == sid;
    RowsMembers(titles, rows[n]);
    var k;
    i, k := Origin(titles, rows[n]);
  }

  /** The rows mention exactly the titles of the list, and of each exactly its tracks. */
  lemma TitlesMentioned(titles: seq<Title>, tid: int)
    requires Valid(titles)
    ensures HasTitle(AllRows(titles), |AllRows(titles)|, tid) <==> Among(tid, Ids(titles))
  {
    if HasTitle(AllRows(titles), |AllRows(titles)|, tid) {
      TitleOrigin(titles, tid);
    }
    if Among(tid, Ids(titles)) {
      var i := Where(tid, Ids(titles));
      CollectedTitle(titles, i);
      TitlesHoldLast(AllRows(titles), |AllRows(titles)|, tid);
    }
  }

  lemma TracksMentioned(titles: seq<Title>, i: nat, sid: int)
    requires Valid(titles) && i < |titles|
    ensures HasTrack(AllRows(titles), |AllRows(titles)|, titles[i].id, sid) <==> Among(sid, Indexes(titles[i].tracks))
  {
    if HasTrack(AllRows(titles), |AllRows(titles)|, titles[i].id, sid) {
      var j := TrackOrigin(titles, titles[i].id, sid);
      assert Ids(titles)[i] == Ids(titles)[j];
    }
    if Among(sid, Indexes(titles[i].tracks)) {
      var k := Where(sid, Indexes(titles[i].tracks));
      CollectedTrack(titles, i, k);
      TracksHoldLast(AllRows(titles), |AllRows(titles)|, titles[i].id, sid);
    }
  }

  lemma CollectedTracks(titles: seq<Title>, i: nat)
    requires Valid(titles) && i < |titles|
    ensures ListsTracks(Collected(AllRows(titles)), titles[i].id, titles[i].tracks)
  {
    var rows, tid, tracks := AllRows(titles), titles[i].id, titles[i].tracks;
    assert ValidTitle(titles[i]);
    forall k | 0 <= k < |tracks|
      ensures TrackId(tid, tracks[k].index) in Collected(rows).tracks
              && tracks[k].info == Collected(rows).tracks[TrackId(tid, tracks[k].index)]
    {
      CollectedTrack(titles, i, k);
    }
    forall sid: int
      ensures Among(sid, Indexes(tracks)) <==> TrackId(tid, sid) in Collected(rows).tracks
    {
      TracksMentioned(titles, i, sid);
      TracksHoldLast(rows, |rows|, tid, sid);
    }
  }

  lemma CollectedLists(titles: seq<Title>)
    requires Valid(titles)
    ensures Lists(Collected(AllRows(titles)), titles)
  {
    var rows := AllRows(titles);
    forall tid: int
      ensures Among(tid, Ids(titles)) <==> tid in Collected(rows).titles
    {
      TitlesMentioned(titles, tid);
      TitlesHoldLast(rows, |rows|, tid);
    }
    forall i | 0 <= i < |titles|
      ensures titles[i].id in Collected(rows).titles && titles[i].info == Collected(rows).titles[titles[i].id]
      ensures ListsTracks(Collected(rows), titles[i].id, titles[i].tracks)
    {
      CollectedTitle(titles, i);
      CollectedTracks(titles, i);
    }
  }

  /** The same rows, in any order and with any repetition. */
  ghost predicate SameRows(a: seq<Row>, b: seq<Row>) {
    forall r :: r in a <==> r in b
  }

  /** For any valid list of titles, what its printed rows say, in any order, is
      listed by that list. */
  lemma RoundTrip(titles: seq<Title>, rows: seq<Row>)
    requires Valid(titles)
    ensures SameRows(AllRows(titles), rows) ==> Lists(Collected(Rows(Print(rows))), titles)
  {
    if SameRows(AllRows(titles), rows) {
      forall i | 0 <= i < |rows|
        ensures Printable(rows[i])
      {
        assert rows[i] in rows;
        RowsArePrintable(titles, rows[i]);
      }
      RowsOfPrint(rows);
      RowsAreConsistent(titles);
      OrderDoesNotMatter(AllRows(titles), rows);
      CollectedLists(titles);
    }
  }

  /** A print of at least one row is not blank. */
  lemma PrintIsNotBlank(rows: seq<Row>)
    requires rows != []
    ensures TrimSpace(Print(rows)) != ""
  {
    var lines := Printed(rows) + [[]];
    assert lines[0] == PrintRow(rows[0]) && |lines| > 1;
    var s := Print(rows);
    assert s[0] == 'T' || s[0] == 'S';
    assert TrimLeft(s) == s;
    TrimKeepsFirst(s);
  }

  lemma {:induction false} TrimKeepsFirst(s: string)
    requires s != [] && !IsSpace(s[0])
    ensures TrimRight(s) != []
  {
    if IsSpace(s[|s| - 1]) {
      TrimKeepsFirst(s[..|s| - 1]);
    }
  }

  /** The parser undoes the printer: it returns the very list whose rows were
      printed, whatever their order, and calls only the empty print blank. */
  method ParseOfPrint(titles: seq<Title>, rows: seq<Row>) returns (r: Result<seq<Title>, string>)
    requires Valid(titles)
    ensures SameRows(AllRows(titles), rows) && titles != [] ==> r == Ok(titles)
    ensures rows == [] ==> r.Err?
  {
    r := ParseMakeMKVInfo(Print(rows));
    RoundTrip(titles, rows);
    if rows == [] {
      assert Print(rows) == "" && TrimLeft("") == "";
    } else {
      PrintIsNotBlank(rows);
    }
    if SameRows(AllRows(titles), rows) && titles != [] {
      assert TitleRows(titles[0])[0] == AllRows(titles)[0];
      assert AllRows(titles)[0] in rows;
      ListedOnce(Collected(Rows(Print(rows))), r.value, titles);
    }
  }
}
