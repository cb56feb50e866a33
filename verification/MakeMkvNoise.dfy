/** Which lines of a MakeMKV scan count, and that no other line makes any
    difference (daemon/tools/makemkv.go). */
module MakeMkvNoise {
  import opened Wrappers
  import opened Text
  import opened Decimal
  import opened MakeMkvRows
  import opened MakeMkv

  /** A line the parser has no case for. */
  predicate Noise(line: string) {
    !("TINFO:" <= line) && !("SINFO:" <= line)
  }

  // ---- which lines are rows ----

  lemma CountAfter(first: string, others: string)
    requires ',' !in first
    ensures Count(first + "," + others, ',') == 1 + Count(others, ',')
  {
    CountConcat(first + ",", others, ',');
    CountConcat(first, ",", ',');
    CountNone(first, ',');
  }

  lemma {:induction false} CutExactly(row: string, k: nat)
    ensures CutFields(row, k).Some? <==> Count(row, ',') >= k
    decreases k
  {
    if k > 0 {
      var comma := IndexOf(row, ',');
      if comma < 0 {
        CountNone(row, ',');
      } else {
        CutExactly(row[comma + 1..], k - 1);
        CountAfter(row[..comma], row[comma + 1..]);
        assert row == row[..comma] + "," + row[comma + 1..];
      }
    }
  }

  lemma FieldsExactly(row: string, n: nat)
    requires n > 0
    ensures FieldsOf(row, n).Some? <==> Count(row, ',') >= n - 1
    ensures FieldsOf(row, n).Some? ==> |FieldsOf(row, n).value| == n
  {
    CutExactly(row, n - 1);
    GlueOfCut(row, n - 1);
  }

  lemma PrefixHasNoComma(prefix: string, payload: string)
    requires ',' !in prefix
    ensures Count(prefix + payload, ',') == Count(payload, ',')
  {
    CountConcat(prefix, payload, ',');
    CountNone(prefix, ',');
  }

  /** A line is a row exactly if it has one of the two prefixes and enough
      commas: three for a title, four for a track. Anything else is ignored. */
  lemma RowExactly(line: string)
    ensures ParseLine(line).Some? <==> || ("TINFO:" <= line && Count(line, ',') >= 3)
                                       || ("SINFO:" <= line && Count(line, ',') >= 4)
  {
    if TINFO <= line || SINFO <= line {
      var payload := line[6..];
      FieldsExactly(payload, 4);
      FieldsExactly(payload, 5);
      PrefixHasNoComma(line[..6], payload);
      assert line == line[..6] + payload;
    }
  }

  lemma FieldsRead(fields: seq<string>, rest: string)
    requires CommaFree(fields)
    ensures FieldsOf(Glue(fields, rest), |fields| + 1) == Some(fields + [Unquote(rest)])
  {
    CutOfGlue(fields, rest);
  }

  /** And what a title row says: its third field does not matter. */
  lemma TitleRowReads(a: string, b: string, c: string, rest: string)
    requires ',' !in a && ',' !in b && ',' !in c
    ensures ParseLine("TINFO:" + Glue([a, b, c], rest)) == Some(Row(TitleKey(Atoi(a), Atoi(b)), Unquote(rest)))
  {
    FieldsRead([a, b, c], rest);
    ParsePrefixed(Glue([a, b, c], rest));
  }

  lemma TrackRowReads(a: string, b: string, c: string, d: string, rest: string)
    requires ',' !in a && ',' !in b && ',' !in c && ',' !in d
    ensures ParseLine("SINFO:" + Glue([a, b, c, d], rest))
         == Some(Row(TrackKey(Atoi(a), Atoi(b), Atoi(c)), Unquote(rest)))
  {
    var fields := [a, b, c, d];
    FieldsRead(fields, rest);
    ParsePrefixed(Glue(fields, rest));
  }

  /** A value in quotes ends at the last quote; one that opens no quote, or
      never closes it, is taken as it stands. */
  lemma UnquoteReads(v: string, w: string)
    ensures '\"' !in w ==> Unquote("\"" + v + "\"" + w) == v
    ensures '\"' !in w ==> Unquote("\"" + w) == "\"" + w
    ensures w == "" || w[0] != '\"' ==> Unquote(w) == w
  {
    if '\"' !in w {
      var s, t := "\"" + v + "\"" + w, "\"" + w;
      assert s[|v| + 1] == '\"' && forall j :: |v| + 1 < j < |s| ==> s[j] == w[j - |v| - 2];
      assert LastIndexOf(s, '\"') == |v| + 1 && s[1..|v| + 1] == v;
      assert t[0] == '\"' && forall j :: 0 < j < |t| ==> t[j] == w[j - 1];
      assert LastIndexOf(t, '\"') == 0;
    }
  }

  // ---- reading line by line ----

  function Read(lines: seq<string>): seq<Row> {
    if lines == [] then []
    else
      var before, row := Read(lines[..|lines| - 1]), ParseLine(lines[|lines| - 1]);
      if row.Some? then before + [row.value] else before
  }

  lemma ReadSnoc(lines: seq<string>, line: string)
    ensures Read(lines + [line])
         == if ParseLine(line).Some? then Read(lines) + [ParseLine(line).value] else Read(lines)
  {
    assert (lines + [line])[..|lines|] == lines;
  }

  lemma {:induction false} PresentIsRead(lines: seq<string>, n: nat)
    requires n <= |lines|
    ensures Present(Parsed(lines), n) == Read(lines[..n])
  {
    if n > 0 {
      PresentIsRead(lines, n - 1);
      assert lines[..n][..n - 1] == lines[..n - 1];
    }
  }

  lemma RowsAreRead(s: string)
    ensures Rows(s) == Read(Lines(s))
  {
    PresentIsRead(Lines(s), |Lines(s)|);
    assert Lines(s)[..|Lines(s)|] == Lines(s);
  }

  /** The lines that are not noise, in order. */
  function Relevant(lines: seq<string>): seq<string> {
    if lines == [] then []
    else
      var before, line := Relevant(lines[..|lines| - 1]), lines[|lines| - 1];
      if Noise(line) then before else before + [line]
  }

  lemma {:induction false} RelevantConcat(a: seq<string>, b: seq<string>)
    ensures Relevant(a + b) == Relevant(a) + Relevant(b)
    decreases |b|
  {
    if b == [] {
      assert a + b == a;
    } else {
      RelevantConcat(a, b[..|b| - 1]);
      assert (a + b)[..|a + b| - 1] == a + b[..|b| - 1];
    }
  }

  lemma RelevantCons(line: string, rest: seq<string>)
    ensures Relevant([line] + rest) == (if Noise(line) then [] else [line]) + Relevant(rest)
  {
    RelevantConcat([line], rest);
    assert Relevant([line][..0]) == [];
  }

  lemma {:induction false} ReadRelevant(lines: seq<string>)
    ensures Read(Relevant(lines)) == Read(lines)
  {
    if lines != [] {
      var before, last := lines[..|lines| - 1], lines[|lines| - 1];
      ReadRelevant(before);
      assert lines == before + [last];
      RowExactly(last);
      ReadSnoc(before, last);
      ReadSnoc(Relevant(before), last);
    }
  }

  /** Only the relevant lines of an output count. */
  lemma RelevantLinesDecide(s: string, t: string)
    requires Relevant(Lines(s)) == Relevant(Lines(t))
    ensures Rows(s) == Rows(t)
  {
    RowsAreRead(s);
    RowsAreRead(t);
    ReadRelevant(Lines(s));
    ReadRelevant(Lines(t));
  }

  // ---- lines of an output ----

  predicate NewlineFree(lines: seq<string>) {
    forall i :: 0 <= i < |lines| ==> '\n' !in lines[i]
  }

  /** The lines without the carriage returns they may end in. */
  function Texts(lines: seq<string>): (texts: seq<string>)
    ensures |texts| == |lines| && forall i :: 0 <= i < |lines| ==> texts[i] == DropCR(lines[i])
  {
    seq(|lines|, (i: nat) requires i < |lines| => DropCR(lines[i]))
  }

  lemma DropCRKeepsKind(line: string)
    ensures Noise(DropCR(line)) == Noise(line)
  {
    assert "TINFO:"[5] == ':' && "SINFO:"[5] == ':';
  }

  lemma LinesOfJoin(lines: seq<string>)
    requires NewlineFree(lines)
    ensures Lines(Join(lines, "\n")) == Tokens(lines)
  {
    if lines == [] {
      assert Split("", '\n') == [[]];
    } else {
      SplitJoin(lines, '\n');
    }
  }

  lemma TextsCons(lines: seq<string>)
    requires lines != []
    ensures Relevant(Texts(lines)) == (if Noise(DropCR(lines[0])) then [] else [DropCR(lines[0])])
                                      + Relevant(Texts(lines[1..]))
  {
    assert Texts(lines) == [DropCR(lines[0])] + Texts(lines[1..]);
    RelevantCons(DropCR(lines[0]), Texts(lines[1..]));
  }

  lemma TokensCons(lines: seq<string>)
    requires lines != [] && |lines[0]| < 1048576
    ensures Relevant(Tokens(lines)) == (if Noise(DropCR(lines[0])) then [] else [DropCR(lines[0])])
                                       + Relevant(Tokens(lines[1..]))
  {
    if lines == [[]] {
      assert lines[1..] == [];
    } else {
      RelevantCons(DropCR(lines[0]), Tokens(lines[1..]));
    }
  }

  lemma {:induction false} RelevantTokens(lines: seq<string>)
    requires forall i :: 0 <= i < |lines| ==> |lines[i]| < 1048576
    ensures Relevant(Tokens(lines)) == Relevant(Texts(lines))
  {
    if lines != [] {
      TextsCons(lines);
      RelevantTokens(lines[1..]);
      TokensCons(lines);
    }
  }

  lemma {:induction false} NoiseAmongTokens(a: seq<string>, x: string, b: seq<string>)
    requires Noise(x) && |x| < 1048576
    ensures Relevant(Tokens(a + [x] + b)) == Relevant(Tokens(a + b))
  {
    var with, without := a + [x] + b, a + b;
    if a == [] {
      assert with == [x] + b && without == b && with[1..] == b;
      DropCRKeepsKind(x);
      TokensCons(with);
    } else {
      assert with[1..] == a[1..] + [x] + b && without[1..] == a[1..] + b;
      NoiseAmongTokens(a[1..], x, b);
      if |a[0]| < LIMIT {
        TokensCons(with);
        TokensCons(without);
      }
    }
  }

  /** A noise line that fits the scanner's buffer can stand anywhere, or be
      taken out, in any output: the rows are the same. */
  lemma NoiseIsIgnored(a: seq<string>, x: string, b: seq<string>)
    requires NewlineFree(a) && NewlineFree(b) && '\n' !in x
    requires Noise(x) && |x| < 1048576
    ensures Rows(Join(a + [x] + b, "\n")) == Rows(Join(a + b, "\n"))
  {
    NoiseAmongTokens(a, x, b);
    LinesOfJoin(a + [x] + b);
    LinesOfJoin(a + b);
    RelevantLinesDecide(Join(a + [x] + b, "\n"), Join(a + b, "\n"));
  }

  lemma {:induction false} TokensUpTo(a: seq<string>, x: string, b: seq<string>)
    requires forall i :: 0 <= i < |a| ==> |a[i]| < 1048576
    requires |x| >= 1048576
    ensures Tokens(a + [x] + b) == Texts(a)
  {
    if a == [] {
      assert a + [x] + b == [x] + b;
    } else {
      assert (a + [x] + b)[1..] == a[1..] + [x] + b;
      TokensUpTo(a[1..], x, b);
      assert Texts(a) == [DropCR(a[0])] + Texts(a[1..]);
    }
  }

  /** A line that does not fit ends the scan: whatever follows is not read. */
  lemma LongLineEndsTheScan(a: seq<string>, x: string, b: seq<string>)
    requires NewlineFree(a) && NewlineFree(b) && '\n' !in x
    requires forall i :: 0 <= i < |a| ==> |a[i]| < 1048576
    requires |x| >= 1048576
    ensures Rows(Join(a + [x] + b, "\n")) == Rows(Join(a, "\n"))
  {
    TokensUpTo(a, x, b);
    LinesOfJoin(a + [x] + b);
    LinesOfJoin(a);
    RelevantTokens(a);
    RelevantLinesDecide(Join(a + [x] + b, "\n"), Join(a, "\n"));
  }

  // ---- blank outputs ----

  lemma LineCharIsIn(lines: seq<string>, i: nat, c: char)
    requires NewlineFree(lines) && i < |lines| && c in lines[i]
    ensures c in Join(lines, "\n")
  {
    SplitJoin(lines, '\n');
    SplitPieces(Join(lines, "\n"), '\n');
    assert c in Split(Join(lines, "\n"), '\n')[i];
  }

  lemma BlankExactly(s: string)
    ensures TrimSpace(s) == "" <==> Blank(s)
  {
    if Blank(s) {
      BlankLeft(s);
    } else {
      var i :| 0 <= i < |s| && !IsSpace(s[i]);
      TrimKeeps(s, s[i]);
    }
  }

  lemma BlankWithout(a: seq<string>, x: string, b: seq<string>)
    requires NewlineFree(a) && NewlineFree(b) && '\n' !in x
    ensures TrimSpace(Join(a + [x] + b, "\n")) == "" ==> TrimSpace(Join(a + b, "\n")) == ""
  {
    var s, t := Join(a + [x] + b, "\n"), Join(a + b, "\n");
    BlankExactly(s);
    BlankExactly(t);
    if Blank(s) && !Blank(t) {
      var k :| 0 <= k < |t| && !IsSpace(t[k]);
      JoinChars(a + b, "\n", t[k]);
      var i :| 0 <= i < |a + b| && t[k] in (a + b)[i];
      LineCharIsIn(a + [x] + b, if i < |a| then i else i + 1, t[k]);
    }
  }

  lemma {:induction false} RelevantOne(lines: seq<string>) returns (i: nat)
    requires Relevant(lines) != []
    ensures i < |lines| && !Noise(lines[i])
  {
    i := |lines| - 1;
    if Noise(lines[i]) {
      i := RelevantOne(lines[..i]);
    }
  }

  lemma {:induction false} TokensArePieces(pieces: seq<string>, i: nat)
    requires i < |Tokens(pieces)|
    ensures i < |pieces| && Tokens(pieces)[i] == DropCR(pieces[i])
  {
    if i > 0 {
      TokensArePieces(pieces[1..], i - 1);
    }
  }

  /** An output with a relevant line is not blank. */
  lemma RelevantIsNotBlank(s: string)
    requires Relevant(Lines(s)) != []
    ensures TrimSpace(s) != ""
  {
    var i := RelevantOne(Lines(s));
    var pieces := Split(s, '\n');
    TokensArePieces(pieces, i);
    DropCRKeepsKind(pieces[i]);
    SplitPieces(s, '\n');
    var c := pieces[i][0];
    assert c in pieces[i] && (c == 'T' || c == 'S');
    TrimKeeps(s, c);
  }

  // ---- the parser ----

  /** The parser does not see noise: with it or without it, the same titles.
      Only where nothing but white space is left does it now call the output blank. */
  method ParseBoth(a: seq<string>, x: string, b: seq<string>)
    returns (r: Result<seq<Title>, string>, q: Result<seq<Title>, string>)
    requires NewlineFree(a) && NewlineFree(b) && '\n' !in x
    requires Noise(x) && |x| < 1048576
    ensures q.Ok? ==> r == q
    ensures q.Err? ==> r.Err? || r.value == []
  {
    var s, t := Join(a + [x] + b, "\n"), Join(a + b, "\n");
    r := ParseMakeMKVInfo(s);
    q := ParseMakeMKVInfo(t);
    NoiseIsIgnored(a, x, b);
    BlankWithout(a, x, b);
    if q.Ok? {
      ListedOnce(Collected(Rows(t)), r.value, q.value);
    } else if r.Ok? {
      NothingListed(t);
      ListedOnce(Collected(Rows(t)), r.value, []);
    }
  }

  lemma NothingListed(s: string)
    requires TrimSpace(s) == ""
    ensures Lists(Collected(Rows(s)), [])
  {
    RowsAreRead(s);
    ReadRelevant(Lines(s));
    if Relevant(Lines(s)) != [] {
      RelevantIsNotBlank(s);
    }
  }

  lemma PrintedSnoc(rows: seq<Row>, r: Row)
    ensures Printed(rows + [r]) == Printed(rows) + [PrintRow(r)]
  {
  }

  lemma ReadPrinted(lines: seq<string>, r: Row)
    requires KeyInRange(r.key)
    ensures Read(lines + [PrintRow(r)]) == Read(lines) + [r]
  {
    ReadSnoc(lines, PrintRow(r));
    ParsePrinted(r);
  }

  predicate KeysInRange(rows: seq<Row>) {
    forall i :: 0 <= i < |rows| ==> KeyInRange(rows[i].key)
  }

  lemma {:induction false} PrintedAreRead(rows: seq<Row>)
    requires KeysInRange(rows)
    ensures Read(Printed(rows)) == rows
  {
    if rows != [] {
      var before, last := rows[..|rows| - 1], rows[|rows| - 1];
      assert rows == before + [last];
      PrintedAreRead(before);
      PrintedSnoc(before, last);
      ReadPrinted(Printed(before), last);
    }
  }

  /** The round trip survives any noise: an output whose relevant lines are the
      printed rows of a list of titles, in any order, with or without carriage
      returns and with anything else between them, is parsed to that list. */
  method ParseOfNoisyPrint(titles: seq<Title>, rows: seq<Row>, lines: seq<string>)
    returns (r: Result<seq<Title>, string>)
    requires Valid(titles) && titles != [] && SameRows(AllRows(titles), rows)
    requires NewlineFree(lines) && forall i :: 0 <= i < |lines| ==> |lines[i]| < 1048576
    requires Relevant(Texts(lines)) == Printed(rows)
    ensures r == Ok(titles)
  {
    var s := Join(lines, "\n");
    r := ParseMakeMKVInfo(s);
    NoisyRows(titles, rows, lines);
    assert AllRows(titles)[0] == TitleRows(titles[0])[0];
    assert AllRows(titles)[0] in rows;
    LinesOfJoin(lines);
    RelevantTokens(lines);
    RelevantIsNotBlank(s);
    ListedOnce(Collected(Rows(s)), r.value, titles);
  }

  lemma NoisyRows(titles: seq<Title>, rows: seq<Row>, lines: seq<string>)
    requires Valid(titles) && SameRows(AllRows(titles), rows)
    requires NewlineFree(lines) && forall i :: 0 <= i < |lines| ==> |lines[i]| < 1048576
    requires Relevant(Texts(lines)) == Printed(rows)
    ensures Lists(Collected(Rows(Join(lines, "\n"))), titles)
  {
    var s := Join(lines, "\n");
    forall i | 0 <= i < |rows|
      ensures KeyInRange(rows[i].key)
    {
      assert rows[i] in rows;
      RowsArePrintable(titles, rows[i]);
    }
    LinesOfJoin(lines);
    RelevantTokens(lines);
    RowsAreRead(s);
    ReadRelevant(Lines(s));
    PrintedAreRead(rows);
    RowsAreConsistent(titles);
    OrderDoesNotMatter(AllRows(titles), rows);
    CollectedLists(titles);
  }
}
