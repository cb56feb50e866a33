/** The robot-mode rows of makemkvcon: lines, fields and numbers
    (daemon/tools/makemkv.go). */
module MakeMkvRows {
  import opened Wrappers
  import opened Text
  import opened Decimal
  import opened Timestamps

  // ---- searching ----

  function IndexFrom(s: string, c: char, i: nat): (r: int)
    requires i <= |s|
    ensures r == -1 || i <= r < |s|
    ensures r >= 0 ==> s[r] == c
    ensures forall j :: i <= j < (if r < 0 then |s| else r) ==> s[j] != c
    decreases |s| - i
  {
    if i == |s| then -1 else if s[i] == c then i else IndexFrom(s, c, i + 1)
  }

  /** strings.Index for one character; -1 if there is none. */
  function IndexOf(s: string, c: char): int {
    IndexFrom(s, c, 0)
  }

  function LastIndexBefore(s: string, c: char, n: nat): (r: int)
    requires n <= |s|
    ensures -1 <= r < n
    ensures r >= 0 ==> s[r] == c
    ensures forall j :: r < j < n ==> s[j] != c
  {
    if n == 0 then -1 else if s[n - 1] == c then n - 1 else LastIndexBefore(s, c, n - 1)
  }

  /** strings.LastIndex for one character. */
  function LastIndexOf(s: string, c: char): int {
    LastIndexBefore(s, c, |s|)
  }

  // ---- fields ----

  /** The first k comma-terminated fields, and what follows. */
  datatype Cut = Cut(fields: seq<string>, rest: string)

  function Prepend(fields: seq<string>, c: Option<Cut>): Option<Cut> {
    if c.None? then None else Some(Cut(fields + c.value.fields, c.value.rest))
  }

  function CutFields(row: string, k: nat): Option<Cut>
    decreases |row|
  {
    if k == 0 then Some(Cut([], row))
    else
      var comma := IndexOf(row, ',');
      if comma < 0 then None else Prepend([row[..comma]], CutFields(row[comma + 1..], k - 1))
  }

  lemma PrependTwice(a: seq<string>, b: seq<string>, c: Option<Cut>)
    ensures Prepend(a, Prepend(b, c)) == Prepend(a + b, c) && Prepend([], c) == c
  {
    if c.Some? {
      assert a + (b + c.value.fields) == a + b + c.value.fields;
      assert [] + c.value.fields == c.value.fields;
    }
  }

  lemma CutStep(fields: seq<string>, row: string, k: nat)
    requires k > 0 && IndexOf(row, ',') >= 0
    ensures var comma := IndexOf(row, ',');
            Prepend(fields, CutFields(row, k)) == Prepend(fields + [row[..comma]], CutFields(row[comma + 1..], k - 1))
  {
    var comma := IndexOf(row, ',');
    PrependTwice(fields, [row[..comma]], CutFields(row[comma + 1..], k - 1));
  }

  function Glue(fields: seq<string>, rest: string): string {
    if fields == [] then rest else fields[0] + "," + Glue(fields[1..], rest)
  }

  predicate CommaFree(fields: seq<string>) {
    forall i :: 0 <= i < |fields| ==> ',' !in fields[i]
  }

  lemma FirstComma(a: string, tail: string)
    requires ',' !in a
    ensures IndexOf(a + "," + tail, ',') == |a|
  {
    var row := a + "," + tail;
    assert row[|a|] == ',';
    assert forall j :: 0 <= j < |a| ==> row[j] == a[j];
  }

  /** Cutting is the exact inverse of gluing comma-free fields. */
  lemma {:induction false} CutOfGlue(fields: seq<string>, rest: string)
    requires CommaFree(fields)
    ensures CutFields(Glue(fields, rest), |fields|) == Some(Cut(fields, rest))
  {
    if fields != [] {
      var first, others := fields[0], fields[1..];
      var tail := Glue(others, rest);
      var row := first + "," + tail;
      CutOfGlue(others, rest);
      FirstComma(first, tail);
      assert row[..|first|] == first && row[|first| + 1..] == tail;
      assert fields == [first] + others;
    }
  }

  /** Gluing what was cut gives the row back. */
  lemma {:induction false} GlueOfCut(row: string, k: nat)
    ensures CutFields(row, k).Some? ==> IsCut(CutFields(row, k).value, row, k)
    decreases k
  {
    if k > 0 && IndexOf(row, ',') >= 0 {
      var comma := IndexOf(row, ',');
      var first, others := row[..comma], row[comma + 1..];
      GlueOfCut(others, k - 1);
      if CutFields(others, k - 1).Some? {
        assert row == first + "," + others;
        GlueOne(first, CutFields(others, k - 1).value, others, k - 1);
      }
    }
  }

  predicate IsCut(c: Cut, row: string, k: nat) {
    |c.fields| == k && CommaFree(c.fields) && Glue(c.fields, c.rest) == row
  }

  lemma GlueOne(first: string, c: Cut, row: string, k: nat)
    requires IsCut(c, row, k) && ',' !in first
    ensures IsCut(Cut([first] + c.fields, c.rest), first + "," + row, k + 1)
  {
    assert ([first] + c.fields)[1..] == c.fields;
  }

  /** The trailing value, without the quotes around it. */
  function Unquote(s: string): string {
    if s != [] && s[0] == '"' then
      var end := LastIndexOf(s, '"');
      if end <= 0 then s else s[1..end]
    else s
  }

  /** Quoting needs no escapes: any value, with commas or quotes of its own, is recovered. */
  lemma UnquoteQuoted(v: string)
    ensures Unquote("\"" + v + "\"") == v
  {
    var s := "\"" + v + "\"";
    assert s[|s| - 1] == '"';
    assert LastIndexOf(s, '"') == |s| - 1;
  }

  /** splitMakeMKVRow: n - 1 comma-free fields and the unquoted rest, or None if
      the row has fewer commas. */
  method SplitRow(row: string, n: nat) returns (r: Option<seq<string>>)
    requires n > 0
    ensures r == FieldsOf(row, n)
  {
    var out: seq<string>, rest := [], row;
    PrependTwice([], [], CutFields(row, n - 1));
    for i := 0 to n - 1
      invariant CutFields(row, n - 1) == Prepend(out, CutFields(rest, n - 1 - i))
    {
      var comma := IndexOf(rest, ',');
      if comma < 0 {
        return None;
      }
      CutStep(out, rest, n - 1 - i);
      out := out + [rest[..comma]];
      rest := rest[comma + 1..];
    }
    assert CutFields(row, n - 1) == Some(Cut(out, rest)) by {
      assert out + [] == out;
    }
    var last := rest;
    if rest != [] && rest[0] == '"' {
      var end := LastIndexOf(rest, '"');
      if end > 0 {
        last := rest[1..end];
      }
    }
    r := Some(out + [last]);
  }

  function FieldsOf(row: string, n: nat): Option<seq<string>>
    requires n > 0
  {
    var c := CutFields(row, n - 1);
    if c.None? then None else Some(c.value.fields + [Unquote(c.value.rest)])
  }

  lemma FieldsOfGlue(fields: seq<string>, val: string)
    requires CommaFree(fields)
    ensures FieldsOf(Glue(fields, "\"" + val + "\""), |fields| + 1) == Some(fields + [val])
  {
    CutOfGlue(fields, "\"" + val + "\"");
    UnquoteQuoted(val);
  }

  // ---- durations ----

  function Seconds(h: int, m: int, s: int): int {
    Wrap(h * 3600 + m * 60 + s)
  }

  /** parseDurationHHMMSS */
  function Duration(s: string): int {
    var parts := Split(s, ':');
    if |parts| != 3 then 0 else Seconds(Atoi(parts[0]), Atoi(parts[1]), Atoi(parts[2]))
  }

  lemma DurationReads(h: string, m: string, s: string)
    requires ':' !in h && ':' !in m && ':' !in s
    ensures Duration(h + ":" + (m + ":" + s)) == Wrap(Atoi(h) * 3600 + Atoi(m) * 60 + Atoi(s))
  {
    SplitThree(h, m, s);
  }

  /** Anything but three parts is no duration. */
  lemma NoDuration(s: string)
    ensures Count(s, ':') != 2 ==> Duration(s) == 0
  {
    SplitCount(s, ':');
  }

  function PrintDuration(d: nat): string {
    Natural(d / 3600) + ":" + (Digits(d / 60 % 60, 2) + ":" + Digits(d % 60, 2))
  }

  lemma SplitThree(a: string, b: string, c: string)
    requires ':' !in a && ':' !in b && ':' !in c
    ensures Split(a + ":" + (b + ":" + c), ':') == [a, b, c]
  {
    SplitCons(a, b + [':'] + c, ':');
    SplitCons(b, c, ':');
    SplitNone(c, ':');
  }

  lemma DurationOfPrinted(d: nat)
    requires InRange(d)
    ensures Duration(PrintDuration(d)) == d
  {
    SplitThree(Natural(d / 3600), Digits(d / 60 % 60, 2), Digits(d % 60, 2));
    assert Natural(d / 3600) == Itoa(d / 3600);
    AtoiOfItoa(d / 3600);
    AtoiOfTwoDigits(d / 60 % 60);
    AtoiOfTwoDigits(d % 60);
    HoursMinutesSeconds(d);
  }

  lemma HoursMinutesSeconds(d: nat)
    ensures d / 3600 * 3600 + d / 60 % 60 * 60 + d % 60 == d
  {
    assert d / 3600 == d / 60 / 60;
  }

  // ---- rows ----

  datatype Key = TitleKey(tid: int, code: int) | TrackKey(tid: int, sid: int, code: int)

  datatype Row = Row(key: Key, val: string)

  function ParseTitleRow(payload: string): Option<Row> {
    var f := FieldsOf(payload, 4);
    if f.None? || |f.value| < 4 then None else Some(Row(TitleKey(Atoi(f.value[0]), Atoi(f.value[1])), f.value[3]))
  }

  function ParseTrackRow(payload: string): Option<Row> {
    var f := FieldsOf(payload, 5);
    if f.None? || |f.value| < 5 then None
    else Some(Row(TrackKey(Atoi(f.value[0]), Atoi(f.value[1]), Atoi(f.value[2])), f.value[4]))
  }

  const TINFO := "TINFO:"
  const SINFO := "SINFO:"

  /** Lines of any other shape are ignored. */
  function ParseLine(line: string): Option<Row> {
    if TINFO <= line then ParseTitleRow(line[|TINFO|..])
    else if SINFO <= line then ParseTrackRow(line[|SINFO|..])
    else None
  }

  function PrintRow(r: Row): string {
    match r.key
    case TitleKey(tid, code) => TINFO + Glue([Itoa(tid), Itoa(code), "0"], "\"" + r.val + "\"")
    case TrackKey(tid, sid, code) => SINFO + Glue([Itoa(tid), Itoa(sid), Itoa(code), "0"], "\"" + r.val + "\"")
  }

  predicate KeyInRange(k: Key) {
    InRange(k.tid) && InRange(k.code) && (k.TrackKey? ==> InRange(k.sid))
  }

  lemma ParseTitleFields(a: string, b: string, val: string)
    requires ',' !in a && ',' !in b
    ensures ParseTitleRow(Glue([a, b, "0"], "\"" + val + "\"")) == Some(Row(TitleKey(Atoi(a), Atoi(b)), val))
  {
    FieldsOfGlue([a, b, "0"], val);
  }

  lemma ParseTrackFields(a: string, b: string, c: string, val: string)
    requires ',' !in a && ',' !in b && ',' !in c
    ensures ParseTrackRow(Glue([a, b, c, "0"], "\"" + val + "\""))
         == Some(Row(TrackKey(Atoi(a), Atoi(b), Atoi(c)), val))
  {
    FieldsOfGlue([a, b, c, "0"], val);
  }

  lemma ParsePrefixed(payload: string)
    ensures ParseLine(TINFO + payload) == ParseTitleRow(payload)
    ensures ParseLine(SINFO + payload) == ParseTrackRow(payload)
  {
    assert (TINFO + payload)[|TINFO|..] == payload && (SINFO + payload)[|SINFO|..] == payload;
    assert (SINFO + payload)[0] == 'S' && TINFO[0] == 'T';
  }

  /** A printed row reads back as itself. */
  lemma ParsePrinted(r: Row)
    requires KeyInRange(r.key)
    ensures ParseLine(PrintRow(r)) == Some(r)
  {
    AtoiOfItoa(r.key.tid);
    AtoiOfItoa(r.key.code);
    match r.key {
      case TitleKey(tid, code) =>
        ParseTitleFields(Itoa(tid), Itoa(code), r.val);
        ParsePrefixed(Glue([Itoa(tid), Itoa(code), "0"], "\"" + r.val + "\""));
      case TrackKey(tid, sid, code) =>
        AtoiOfItoa(sid);
        ParseTrackFields(Itoa(tid), Itoa(sid), Itoa(code), r.val);
        ParsePrefixed(Glue([Itoa(tid), Itoa(sid), Itoa(code), "0"], "\"" + r.val + "\""));
    }
  }

  // ---- lines ----

  /** A line and its newline must fit the scanner's buffer of 1 MiB. */
  const LIMIT: nat := 1048576

  function DropCR(line: string): string {
    if line != [] && line[|line| - 1] == '\r' then line[..|line| - 1] else line
  }

  /** The scanner's tokens, given the pieces between newlines: it stops for good
      at a line that does not fit, and an empty last piece is no line. */
  function Tokens(pieces: seq<string>): seq<string> {
    if pieces == [] || pieces == [[]] || |pieces[0]| >= LIMIT then []
    else [DropCR(pieces[0])] + Tokens(pieces[1..])
  }

  function Lines(s: string): seq<string> {
    Tokens(Split(s, '\n'))
  }

  function Present(found: seq<Option<Row>>, n: nat): seq<Row>
    requires n <= |found|
  {
    if n == 0 then []
    else if found[n - 1].Some? then Present(found, n - 1) + [found[n - 1].value]
    else Present(found, n - 1)
  }

  function Parsed(lines: seq<string>): seq<Option<Row>> {
    seq(|lines|, (i: nat) requires i < |lines| => ParseLine(lines[i]))
  }

  /** The rows of a whole output. */
  function Rows(s: string): seq<Row> {
    Present(Parsed(Lines(s)), |Lines(s)|)
  }

  function Printed(rows: seq<Row>): seq<string> {
    seq(|rows|, (i: nat) requires i < |rows| => PrintRow(rows[i]))
  }

  /** One printed row per line. */
  function Print(rows: seq<Row>): string {
    Join(Printed(rows) + [[]], "\n")
  }

  predicate Printable(r: Row) {
    KeyInRange(r.key) && '\n' !in r.val && |PrintRow(r)| < LIMIT
  }

  lemma {:induction false} GlueChars(fields: seq<string>, rest: string)
    requires rest != [] && '\n' !in rest && forall i :: 0 <= i < |fields| ==> '\n' !in fields[i]
    ensures var g := Glue(fields, rest); '\n' !in g && g != [] && g[|g| - 1] == rest[|rest| - 1]
  {
    if fields != [] {
      GlueChars(fields[1..], rest);
    }
  }

  /** Numbers and a quoted value, glued: one line that ends in the closing quote. */
  lemma GlueIsOneLine(prefix: string, fields: seq<string>, val: string)
    requires '\n' !in prefix && '\n' !in val && forall i :: 0 <= i < |fields| ==> '\n' !in fields[i]
    ensures var line := prefix + Glue(fields, "\"" + val + "\"");
            '\n' !in line && line != [] && line[|line| - 1] == '"'
  {
    GlueChars(fields, "\"" + val + "\"");
  }

  lemma PrintedIsOneLine(r: Row)
    requires Printable(r)
    ensures '\n' !in PrintRow(r) && PrintRow(r) != [] && PrintRow(r)[|PrintRow(r)| - 1] == '"'
  {
    match r.key {
      case TitleKey(tid, code) => GlueIsOneLine(TINFO, [Itoa(tid), Itoa(code), "0"], r.val);
      case TrackKey(tid, sid, code) => GlueIsOneLine(SINFO, [Itoa(tid), Itoa(sid), Itoa(code), "0"], r.val);
    }
  }

  lemma {:induction false} TokensOfPrinted(lines: seq<string>)
    requires forall i :: 0 <= i < |lines| ==> lines[i] != [] && lines[i][|lines[i]| - 1] == '"' && |lines[i]| < LIMIT
    ensures Tokens(lines + [[]]) == lines
  {
    if lines == [] {
      assert lines + [[]] == [[]];
    } else {
      TokensOfPrinted(lines[1..]);
      assert (lines + [[]])[1..] == lines[1..] + [[]];
      assert lines == [lines[0]] + lines[1..];
    }
  }

  lemma {:induction false} AllPresent(rows: seq<Row>, found: seq<Option<Row>>, n: nat)
    requires |found| == |rows| && n <= |rows| && forall i :: 0 <= i < |rows| ==> found[i] == Some(rows[i])
    ensures Present(found, n) == rows[..n]
  {
    if n > 0 {
      AllPresent(rows, found, n - 1);
      assert rows[..n] == rows[..n - 1] + [rows[n - 1]];
    }
  }

  /** Printing rows and scanning them again gives the rows back. */
  lemma RowsOfPrint(rows: seq<Row>)
    requires forall i :: 0 <= i < |rows| ==> Printable(rows[i])
    ensures Rows(Print(rows)) == rows
  {
    var lines := Printed(rows);
    forall i | 0 <= i < |rows|
      ensures '\n' !in lines[i] && lines[i] != [] && lines[i][|lines[i]| - 1] == '"' && |lines[i]| < LIMIT
    {
      PrintedIsOneLine(rows[i]);
    }
    SplitJoin(lines + [[]], '\n');
    TokensOfPrinted(lines);
    forall i | 0 <= i < |rows|
      ensures Parsed(lines)[i] == Some(rows[i])
    {
      ParsePrinted(rows[i]);
    }
    AllPresent(rows, Parsed(lines), |rows|);
    assert rows[..|rows|] == rows;
  }
}
