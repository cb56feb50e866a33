/** Watching cd-info's output for the disc-mode line, and reading the disc type
    from output that was cut short once the line had landed
    (daemon/identify/classify.go). */
module CdInfo {
  import opened Wrappers
  import opened Text

  const PREFIX: string := "Disc mode is listed as:"

  function LowerChar(c: char): char {
    if 'A' <= c <= 'Z' then c - 'A' + 'a' else c
  }

  function Lower(s: string): (r: string)
    ensures |r| == |s|
    ensures forall i :: 0 <= i < |s| ==> r[i] == LowerChar(s[i])
  {
    seq(|s|, i requires 0 <= i < |s| => LowerChar(s[i]))
  }

  /** strings.Contains */
  predicate Contains(s: string, sub: string) {
    sub <= s || (s != [] && Contains(s[1..], sub))
  }

  /** cd-info's way of saying that it could not read the disc yet. */
  predicate LooksLikeError(value: string) {
    Contains(Lower(value), "error in getting information") || Contains(Lower(value), "unknown")
  }

  /** A complete line that settles the disc mode. */
  predicate Settles(line: string) {
    && PREFIX <= line
    && var value := TrimSpace(line[|PREFIX|..]);
       value != [] && !LooksLikeError(value)
  }

  function Lines(s: string): (lines: seq<string>)
    ensures lines != []
  {
    Split(s, '\n')
  }

  /** Some newline-terminated line of s settles the disc mode. */
  ghost predicate HasSettled(s: string) {
    exists i :: 0 <= i < |Lines(s)| - 1 && Settles(Lines(s)[i])
  }

  // ---- the watcher ----

  class Watcher {
    var buf: string
    var line: string
    var fired: bool
    var closes: nat   // times the `found` channel has been closed

    /** The watcher's state is a function of the bytes seen, not of how they were cut. */
    ghost predicate Valid()
      reads this
    {
      && line == Lines(buf)[|Lines(buf)| - 1]
      && (fired <==> HasSettled(buf))
      && closes == (if fired then 1 else 0)
    }

    constructor ()
      ensures Valid() && buf == ""
    {
      buf, line, fired, closes := "", "", false, 0;
      new;
      assert Lines("") == [""];
    }

    /** One byte of the loop in Write; `seen` is what came before it. */
    method Byte(ghost seen: string, c: char)
      requires line == Lines(seen)[|Lines(seen)| - 1] && (fired <==> HasSettled(seen))
      requires closes == if fired then 1 else 0
      modifies this`line, this`fired, this`closes
      ensures line == Lines(seen + [c])[|Lines(seen + [c])| - 1] && (fired <==> HasSettled(seen + [c]))
      ensures closes == if fired then 1 else 0
    {
      NextByte(seen, c);
      if c == '\n' {
        if PREFIX <= line {
          var value := TrimSpace(line[|PREFIX|..]);
          if |value| > 0 && !LooksLikeError(value) {
            if !fired {
              fired := true;
              closes := closes + 1;
            }
          }
        }
        line := "";
      } else {
        line := line + [c];
      }
    }

    method Write(p: string) returns (n: nat)
      requires Valid()
      modifies this
      ensures Valid() && buf == old(buf) + p && n == |p|
    {
      ghost var start := buf;
      buf := buf + p;
      assert start + p[..0] == start;
      for i := 0 to |p|
        invariant buf == start + p
        invariant line == Lines(start + p[..i])[|Lines(start + p[..i])| - 1]
        invariant fired <==> HasSettled(start + p[..i])
        invariant closes == if fired then 1 else 0
      {
        assert start + p[..i + 1] == start + p[..i] + [p[i]];
        Byte(start + p[..i], p[i]);
      }
      assert start + p[..|p|] == start + p;
      n := |p|;
    }

    /** Any sequence of writes: the bytes add up, and the watcher has fired,
        once, exactly when they hold a settling line. */
    method WriteAll(chunks: seq<string>)
      requires Valid()
      modifies this
      ensures Valid() && buf == old(buf) + Join(chunks, "")
      ensures fired <==> HasSettled(old(buf) + Join(chunks, ""))
      ensures closes == if fired then 1 else 0
    {
      for i := 0 to |chunks|
        invariant Valid() && buf + Join(chunks[i..], "") == old(buf) + Join(chunks, "")
      {
        assert chunks[i..][1..] == chunks[i + 1..];
        ghost var before := buf;
        var _ := Write(chunks[i]);
        assert Join(chunks[i..], "") == chunks[i] + Join(chunks[i + 1..], "");
        assert before + (chunks[i] + Join(chunks[i + 1..], "")) == before + chunks[i] + Join(chunks[i + 1..], "");
      }
      assert chunks[|chunks|..] == [];
      assert buf + "" == buf;
    }
  }

  lemma {:induction false} LinesSnoc(s: string, c: char)
    ensures var was := Lines(s); var last := |was| - 1;
            Lines(s + [c]) == if c == '\n' then was + [""] else was[..last] + [was[last] + [c]]
  {
    if s == [] {
      assert s + [c] == [c] && [c][1..] == [];
      assert Lines("") == [""] && [""][1..] == [];
      assert [c] + "" == "" + [c];
    } else {
      LinesSnoc(s[1..], c);
      assert (s + [c])[1..] == s[1..] + [c];
      if s[0] != '\n' {
        var rest := Lines(s[1..]);
        assert Lines(s) == [[s[0]] + rest[0]] + rest[1..];
        if c != '\n' && |rest| == 1 {
          assert [s[0]] + (rest[0] + [c]) == [s[0]] + rest[0] + [c];
        }
      }
    }
  }

  lemma NextByte(s: string, c: char)
    ensures var last := Lines(s)[|Lines(s)| - 1];
            && (HasSettled(s + [c]) <==> HasSettled(s) || (c == '\n' && Settles(last)))
            && Lines(s + [c])[|Lines(s + [c])| - 1] == if c == '\n' then "" else last + [c]
  {
    LinesSnoc(s, c);
    var was, now := Lines(s), Lines(s + [c]);
    assert forall i :: 0 <= i < |was| - 1 ==> now[i] == was[i];
    if c == '\n' {
      assert now[|was| - 1] == was[|was| - 1];
    }
  }

  // ---- the type read from the output ----

  datatype Base = AudioCD | Data

  predicate IsWord(c: char) {
    '0' <= c <= '9' || 'a' <= c <= 'z' || 'A' <= c <= 'Z' || c == '_'
  }

  /** The pattern \bcd-da\b at position i. */
  predicate CddaAt(s: string, i: nat) {
    && i + 5 <= |s| && s[i..i + 5] == "cd-da"
    && (i == 0 || !IsWord(s[i - 1]))
    && (i + 5 == |s| || !IsWord(s[i + 5]))
  }

  predicate IsDiscMode(line: string) {
    Contains(Lower(line), "disc mode")
  }

  predicate SaysAudio(line: string) {
    IsDiscMode(line) && exists i :: 0 <= i <= |line| && CddaAt(Lower(line), i)
  }

  predicate AnySaysAudio(lines: seq<string>) {
    exists i :: 0 <= i < |lines| && SaysAudio(lines[i])
  }

  function ClassifyFromCDInfo(s: string): Result<Base, string> {
    if TrimSpace(s) == "" then Err("empty input")
    else Ok(if AnySaysAudio(Lines(s)) then AudioCD else Data)
  }

  /** No line of `lines` can be cut so that the remaining piece says audio. */
  ghost predicate NeverSaysAudio(lines: seq<string>) {
    forall i, q :: 0 <= i < |lines| && q <= lines[i] ==> !SaysAudio(q)
  }

  /** The first line that makes the watcher fire. */
  ghost predicate FirstSettling(lines: seq<string>, g: nat) {
    && g < |lines| - 1 && Settles(lines[g])
    && forall i :: 0 <= i < g ==> !Settles(lines[i])
  }

  /** Exactly when stopping cd-info early cannot change the verdict, wherever the
      kill cuts the output: audio is already decided by the lines up to the one
      that fired, or nothing after it can be read as audio, even cut short. */
  lemma CutIsSound(full: string, g: nat)
    requires FirstSettling(Lines(full), g)
    ensures (forall t :: t <= full && HasSettled(t) ==> ClassifyFromCDInfo(t) == ClassifyFromCDInfo(full))
       <==> (AnySaysAudio(Lines(full)[..g + 1]) || NeverSaysAudio(Lines(full)[g + 1..]))
  {
    var early, late := Lines(full)[..g + 1], Lines(full)[g + 1..];
    assert full <= full && HasSettled(full);
    if AnySaysAudio(early) {
      forall t | t <= full && HasSettled(t)
        ensures ClassifyFromCDInfo(t) == ClassifyFromCDInfo(full)
      {
        CutSaysAudio(t, full, g);
        CutSaysAudio(full, full, g);
      }
    } else if NeverSaysAudio(late) {
      forall t | t <= full && HasSettled(t)
        ensures ClassifyFromCDInfo(t) == ClassifyFromCDInfo(full)
      {
        CutSaysData(t, full, g);
        CutSaysData(full, full, g);
      }
    } else {
      var t1, t2 := DifferentCuts(full, g);
    }
  }

  /** Otherwise two cuts of the same output are read differently. */
  lemma DifferentCuts(full: string, g: nat) returns (t1: string, t2: string)
    requires FirstSettling(Lines(full), g)
    requires !AnySaysAudio(Lines(full)[..g + 1]) && !NeverSaysAudio(Lines(full)[g + 1..])
    ensures t1 <= full && HasSettled(t1) && ClassifyFromCDInfo(t1) == Ok(Data)
    ensures t2 <= full && HasSettled(t2) && ClassifyFromCDInfo(t2) == Ok(AudioCD)
  {
    t1 := DataCut(full, g);
    t2 := AudioCut(full, g);
  }

  lemma DataCut(full: string, g: nat) returns (t: string)
    requires FirstSettling(Lines(full), g) && !AnySaysAudio(Lines(full)[..g + 1])
    ensures t <= full && HasSettled(t) && ClassifyFromCDInfo(t) == Ok(Data)
  {
    t := CutAfter(full, g, g + 1, "");
    EmptyIsSilent();
    SilentEnd(Lines(full)[..g + 1], "");
  }

  lemma AudioCut(full: string, g: nat) returns (t: string)
    requires FirstSettling(Lines(full), g) && !NeverSaysAudio(Lines(full)[g + 1..])
    ensures t <= full && HasSettled(t) && ClassifyFromCDInfo(t) == Ok(AudioCD)
  {
    var late := Lines(full)[g + 1..];
    var k, q :| 0 <= k < |late| && q <= late[k] && SaysAudio(q);
    t := CutAfter(full, g, g + 1 + k, q);
    assert SaysAudio(Lines(t)[g + 1 + k]);
  }

  lemma SilentEnd(lines: seq<string>, q: string)
    requires !AnySaysAudio(lines) && !SaysAudio(q)
    ensures !AnySaysAudio(lines + [q])
  {
    forall i | 0 <= i < |lines + [q]|
      ensures !SaysAudio((lines + [q])[i])
    {
      if i < |lines| {
        assert (lines + [q])[i] == lines[i];
      }
    }
  }

  /** A cut inside line k, after the line that fired. */
  lemma CutAfter(full: string, g: nat, k: nat, q: string) returns (t: string)
    requires FirstSettling(Lines(full), g)
    requires g < k < |Lines(full)| && q <= Lines(full)[k]
    ensures t <= full && HasSettled(t) && TrimSpace(t) != ""
    ensures Lines(t) == Lines(full)[..k] + [q]
  {
    t := Join(Lines(full)[..k] + [q], "\n");
    CutAt(full, k, q);
    assert Settles(Lines(t)[g]);
    Nonblank(t);
  }

  /** The case the source relies on: cd-info prints a single disc-mode line. */
  lemma SingleDiscModeLineIsSound(full: string, t: string)
    requires forall i, j :: 0 <= i < j < |Lines(full)| ==> !(IsDiscMode(Lines(full)[i]) && IsDiscMode(Lines(full)[j]))
    requires t <= full && HasSettled(t)
    ensures ClassifyFromCDInfo(t) == ClassifyFromCDInfo(full)
  {
    var g := FirstSettlingOf(t, full);
    var lines := Lines(full);
    SettlingIsDiscMode(lines[g]);
    var late := lines[g + 1..];
    forall i, q | 0 <= i < |late| && q <= late[i]
      ensures !SaysAudio(q)
    {
      assert late[i] == lines[g + 1 + i];
      DiscModeExtends(q, late[i]);
    }
    CutIsSound(full, g);
  }

  /** With a second disc-mode line the verdict depends on where the kill lands. */
  lemma SecondLineFlips(a: string, b: string) returns (t1: string, t2: string)
    requires '\n' !in a && '\n' !in b
    requires Settles(a) && !SaysAudio(a) && SaysAudio(b)
    ensures t1 <= a + "\n" + b && HasSettled(t1) && ClassifyFromCDInfo(t1) == Ok(Data)
    ensures t2 <= a + "\n" + b && HasSettled(t2) && ClassifyFromCDInfo(t2) == Ok(AudioCD)
  {
    var full := a + "\n" + b;
    SplitNone(b, '\n');
    SplitCons(a, b, '\n');
    assert Lines(full) == [a, b];
    assert Lines(full)[..1] == [a] && Lines(full)[1..] == [b];
    assert b <= [b][0];
    t1, t2 := DifferentCuts(full, 0);
  }

  /** Such output exists: one data-mode line, then one that mentions CD-DA. */
  lemma TwoDiscModeLinesAreNotSound() returns (full: string, t1: string, t2: string)
    ensures t1 <= full && HasSettled(t1) && ClassifyFromCDInfo(t1) == Ok(Data)
    ensures t2 <= full && HasSettled(t2) && ClassifyFromCDInfo(t2) == Ok(AudioCD)
  {
    var a, b := PREFIX + " DVD", "disc mode cd-da";
    assert '\n' !in PREFIX && '\n' !in b;
    DvdSettles();
    DvdIsSilent();
    BareCddaSaysAudio();
    full := a + "\n" + b;
    t1, t2 := SecondLineFlips(a, b);
  }

  lemma DvdSettles()
    ensures Settles(PREFIX + " DVD")
  {
    assert (PREFIX + " DVD")[|PREFIX|..] == " DVD";
    assert " DVD"[1..] == "DVD";
    assert TrimSpace(" DVD") == TrimRight("DVD") == "DVD";
    TooShort(Lower("DVD"), "unknown");
    TooShort(Lower("DVD"), "error in getting information");
  }

  lemma DvdIsSilent()
    ensures !SaysAudio(PREFIX + " DVD")
  {
    assert '-' !in PREFIX && '-' !in " DVD";
    if SaysAudio(PREFIX + " DVD") {
      AudioHasHyphen(PREFIX + " DVD");
    }
  }

  lemma AudioHasHyphen(a: string)
    requires SaysAudio(a)
    ensures '-' in a
  {
    var i: nat :| i <= |a| && CddaAt(Lower(a), i);
    assert Lower(a)[i..i + 5][2] == Lower(a)[i + 2] == LowerChar(a[i + 2]);
    assert a[i + 2] in a;
  }

  lemma BareCddaSaysAudio()
    ensures SaysAudio("disc mode cd-da")
  {
    var b := "disc mode cd-da";
    assert Lower(b) == b;
    assert b[..9] == "disc mode";
    assert b[10..15] == "cd-da" && CddaAt(Lower(b), 10);
  }

  // ---- what the two tests look for ----

  predicate StandsAt(s: string, sub: string, i: int) {
    0 <= i <= |s| - |sub| && s[i..i + |sub|] == sub
  }

  lemma {:induction false} ContainsExactly(s: string, sub: string)
    ensures Contains(s, sub) <==> exists i :: StandsAt(s, sub, i)
  {
    if sub <= s {
      assert StandsAt(s, sub, 0);
    } else if s != [] {
      ContainsExactly(s[1..], sub);
      forall i: int
        ensures StandsAt(s[1..], sub, i) <==> i >= 0 && StandsAt(s, sub, i + 1)
      {
        if 0 <= i <= |s| - |sub| - 1 {
          assert s[1..][i..i + |sub|] == s[i + 1..i + 1 + |sub|];
        }
      }
      forall i | StandsAt(s, sub, i)
        ensures StandsAt(s[1..], sub, i - 1)
      {
        assert i != 0;
      }
    }
  }

  /** The disc-mode line settles the type exactly if its value, whatever white
      space surrounds it, is there and is not one of cd-info's two ways of
      saying that it could not read the disc, in any mix of cases. */
  lemma SettlesExactly(l: string, value: string, r: string)
    requires Blank(l) && Blank(r) && Trimmed(value)
    ensures Settles("Disc mode is listed as:" + (l + value + r)) <==>
              && value != ""
              && (forall i :: !StandsAt(Lower(value), "unknown", i))
              && (forall i :: !StandsAt(Lower(value), "error in getting information", i))
  {
    ValueOfLine(l + value + r);
    TrimOfPadded(l, value, r);
    ContainsExactly(Lower(value), "unknown");
    ContainsExactly(Lower(value), "error in getting information");
  }

  lemma ValueOfLine(text: string)
    ensures Settles("Disc mode is listed as:" + text) <==> TrimSpace(text) != "" && !LooksLikeError(TrimSpace(text))
  {
    assert (PREFIX + text)[|PREFIX|..] == text;
  }

  /** A line says audio exactly if it names the disc mode and holds the word
      cd-da, standing alone, in any mix of cases. */
  lemma SaysAudioExactly(line: string)
    ensures SaysAudio(line) <==> && (exists i :: StandsAt(Lower(line), "disc mode", i))
                                 && exists i :: WordAt(Lower(line), "cd-da", i)
  {
    ContainsExactly(Lower(line), "disc mode");
    forall i: int
      ensures WordAt(Lower(line), "cd-da", i) <==> 0 <= i <= |line| && CddaAt(Lower(line), i)
    {
    }
  }

  predicate WordAt(s: string, word: string, i: int) {
    && StandsAt(s, word, i)
    && (i > 0 ==> !IsWord(s[i - 1]))
    && (i < |s| - |word| ==> !IsWord(s[i + |word|]))
  }

  // ---- how lines and prefixes fit together ----

  lemma {:induction false} ContainsExtends(s: string, tail: string, sub: string)
    requires Contains(s, sub)
    ensures Contains(s + tail, sub)
  {
    if sub <= s {
      assert sub <= s + tail;
    } else {
      ContainsExtends(s[1..], tail, sub);
      assert (s + tail)[1..] == s[1..] + tail;
    }
  }

  lemma DiscModeExtends(q: string, line: string)
    requires q <= line
    ensures IsDiscMode(q) ==> IsDiscMode(line)
  {
    assert Lower(line) == Lower(q) + Lower(line)[|q|..];
    if IsDiscMode(q) {
      ContainsExtends(Lower(q), Lower(line)[|q|..], "disc mode");
    }
  }

  lemma {:induction false} TooShort(s: string, sub: string)
    requires |s| < |sub|
    ensures !Contains(s, sub)
  {
    if s != [] {
      TooShort(s[1..], sub);
    }
  }

  lemma EmptyIsSilent()
    ensures !SaysAudio("")
  {
    TooShort(Lower(""), "disc mode");
  }

  lemma SettlingIsDiscMode(line: string)
    requires Settles(line)
    ensures IsDiscMode(line)
  {
    PrefixSaysMode();
    LowerPrefix(PREFIX, line);
  }

  lemma PrefixSaysMode()
    ensures "disc mode" <= Lower(PREFIX)
  {
    assert Lower(PREFIX)[..9] == "disc mode";
  }

  lemma LowerPrefix(p: string, s: string)
    requires p <= s
    ensures Lower(p) <= Lower(s)
  {
    assert forall i :: 0 <= i < |p| ==> Lower(s)[i] == Lower(p)[i];
  }

  /** A string with a settling line is not blank. */
  lemma Nonblank(t: string)
    requires exists i :: 0 <= i < |Lines(t)| && Settles(Lines(t)[i])
    ensures TrimSpace(t) != ""
  {
    var i :| 0 <= i < |Lines(t)| && Settles(Lines(t)[i]);
    assert Lines(t)[i][0] == 'D';
    SplitPieces(t, '\n');
    assert 'D' in t;
    TrimKeeps(t, 'D');
  }

  /** The lines of a prefix are the lines of the whole, except that the last may be cut. */
  lemma {:induction false} LinesOfPrefix(t: string, full: string)
    requires t <= full
    ensures var a, b := Lines(t), Lines(full);
            && |a| <= |b|
            && (forall i :: 0 <= i < |a| - 1 ==> a[i] == b[i])
            && a[|a| - 1] <= b[|a| - 1]
  {
    if t != [] {
      LinesOfPrefix(t[1..], full[1..]);
      assert full[0] == t[0];
    }
  }

  lemma {:induction false} JoinPrefix(lines: seq<string>, k: nat, q: string)
    requires k < |lines| && q <= lines[k]
    ensures Join(lines[..k] + [q], "\n") <= Join(lines, "\n")
  {
    var cut := lines[..k] + [q];
    if k > 0 {
      JoinPrefix(lines[1..], k - 1, q);
      assert cut[1..] == lines[1..][..k - 1] + [q];
    }
  }

  /** Cutting after q inside line k gives a prefix whose lines are as expected. */
  lemma CutAt(full: string, k: nat, q: string)
    requires k < |Lines(full)| && q <= Lines(full)[k]
    ensures var t := Join(Lines(full)[..k] + [q], "\n");
            t <= full && Lines(t) == Lines(full)[..k] + [q]
  {
    JoinSplit(full, '\n');
    SplitPieces(full, '\n');
    JoinPrefix(Lines(full), k, q);
    SplitJoin(Lines(full)[..k] + [q], '\n');
  }

  /** The first settling line of a cut output is the first of the whole output. */
  lemma FirstSettlingOf(t: string, full: string) returns (g: nat)
    requires t <= full && HasSettled(t)
    ensures FirstSettling(Lines(full), g)
  {
    LinesOfPrefix(t, full);
    var i :| 0 <= i < |Lines(t)| - 1 && Settles(Lines(t)[i]);
    g := FirstSettlingUpTo(Lines(full), i);
  }

  lemma FirstSettlingUpTo(lines: seq<string>, i: nat) returns (g: nat)
    requires i < |lines| - 1 && Settles(lines[i])
    ensures FirstSettling(lines, g)
  {
    g := 0;
    while !Settles(lines[g])
      invariant g <= i
      invariant forall j :: 0 <= j < g ==> !Settles(lines[j])
      decreases i - g
    {
      g := g + 1;
    }
  }

  /** A cut that still holds a settling line holds every line up to the first one. */
  lemma CutKeepsEarly(t: string, full: string, g: nat)
    requires FirstSettling(Lines(full), g)
    requires t <= full && HasSettled(t)
    ensures |Lines(t)| > g + 1
    ensures forall i :: 0 <= i <= g ==> Lines(t)[i] == Lines(full)[i]
    ensures TrimSpace(t) != ""
  {
    LinesOfPrefix(t, full);
    var s :| 0 <= s < |Lines(t)| - 1 && Settles(Lines(t)[s]);
    assert Settles(Lines(full)[s]);
    Nonblank(t);
  }

  lemma CutSaysAudio(t: string, full: string, g: nat)
    requires FirstSettling(Lines(full), g)
    requires t <= full && HasSettled(t)
    requires AnySaysAudio(Lines(full)[..g + 1])
    ensures ClassifyFromCDInfo(t) == Ok(AudioCD)
  {
    CutKeepsEarly(t, full, g);
    var i :| 0 <= i < g + 1 && SaysAudio(Lines(full)[..g + 1][i]);
    assert SaysAudio(Lines(t)[i]);
  }

  lemma CutSaysData(t: string, full: string, g: nat)
    requires FirstSettling(Lines(full), g)
    requires t <= full && HasSettled(t)
    requires !AnySaysAudio(Lines(full)[..g + 1]) && NeverSaysAudio(Lines(full)[g + 1..])
    ensures ClassifyFromCDInfo(t) == Ok(Data)
  {
    CutKeepsEarly(t, full, g);
    LinesOfPrefix(t, full);
    SilentLines(Lines(t), Lines(full), g);
  }

  lemma SilentLines(a: seq<string>, b: seq<string>, g: nat)
    requires g < |b| && |a| <= |b| && !AnySaysAudio(b[..g + 1]) && NeverSaysAudio(b[g + 1..])
    requires (forall i :: 0 <= i < |a| && i <= g ==> a[i] == b[i]) && forall i :: g < i < |a| ==> a[i] <= b[i]
    ensures !AnySaysAudio(a)
  {
    forall i | 0 <= i < |a|
      ensures !SaysAudio(a[i])
    {
      if i > g {
        assert a[i] <= b[g + 1..][i - g - 1];
      } else {
        assert a[i] == b[..g + 1][i];
      }
    }
  }
}
