/** Output paths: field values and rendered templates are scrubbed so that a
    rip can never land outside the library root (daemon/pipelines/output.go). */
module Paths {
  import opened Text

  /** A rune stripControlChars keeps. */
  predicate Kept(c: char) {
    c >= ' ' || c == '\t'
  }

  function StripSpec(s: string): string {
    if s == [] then []
    else (if Kept(s[0]) then [s[0]] else []) + StripSpec(s[1..])
  }

  /** What the sanitisers throw away after trimming. */
  predicate Dropped(seg: string) {
    seg == "" || seg == "." || seg == ".."
  }

  function Survivor(part: string): seq<string> {
    var seg := TrimSpace(part);
    if Dropped(seg) then [] else [seg]
  }

  /** The trimmed pieces that survive, in order. */
  function Survivors(parts: seq<string>): seq<string> {
    if parts == [] then [] else Survivor(parts[0]) + Survivors(parts[1..])
  }

  function FieldSpec(s: string): string {
    Join(Survivors(Split(s, '/')), "_")
  }

  function RelSegments(p: string): seq<string> {
    Survivors(Split(StripSpec(p), '/'))
  }

  function RelSpec(p: string): string {
    Join(RelSegments(p), "/")
  }

  // ---- the loops of the source, proved against the functions above ----

  method StripControlChars(s: string) returns (r: string)
    ensures r == StripSpec(s)
    ensures forall c :: c in r <==> c in s && (c >= ' ' || c == '\t')
  {
    r := [];
    for i := 0 to |s|
      invariant r + StripSpec(s[i..]) == StripSpec(s)
    {
      assert s[i..][1..] == s[i + 1..];
      if Kept(s[i]) {
        r := r + [s[i]];
      }
    }
    StripChars(s);
  }

  lemma SurvivorsStep(out: seq<string>, parts: seq<string>, i: nat)
    requires i < |parts|
    ensures var seg := TrimSpace(parts[i]);
            out + Survivors(parts[i..])
            == (if Dropped(seg) then out else out + [seg]) + Survivors(parts[i + 1..])
  {
    assert parts[i..][1..] == parts[i + 1..];
  }

  method SanitizeFieldValue(s: string) returns (r: string)
    ensures r == FieldSpec(s)
    ensures '/' !in r
    ensures CleanField(s) ==> r == Flat(s)
  {
    var parts := Split(s, '/');
    var out: seq<string> := [];
    for i := 0 to |parts|
      invariant out + Survivors(parts[i..]) == Survivors(parts)
    {
      var p := TrimSpace(parts[i]);
      SurvivorsStep(out, parts, i);
      if p == "" || p == "." || p == ".." {
        continue;
      }
      out := out + [p];
    }
    assert parts[|parts|..] == [] && out == Survivors(parts);
    r := Join(out, "_");
    FieldHasNoSlash(s);
    if CleanField(s) {
      CleanFieldIsFlat(s);
    }
  }

  method SanitizeRelPath(p: string) returns (r: string)
    ensures r == RelSpec(p)
    ensures SafePath(p) ==> r == p
  {
    var stripped := StripControlChars(p);
    var parts := Split(stripped, '/');
    var out: seq<string> := [];
    for i := 0 to |parts|
      invariant out + Survivors(parts[i..]) == Survivors(parts)
    {
      var seg := TrimSpace(parts[i]);
      SurvivorsStep(out, parts, i);
      if seg == "" || seg == "." || seg == ".." {
        continue;
      }
      NoNulLeft(p, i);
      seg := WithoutNul(seg);
      out := out + [seg];
    }
    assert parts[|parts|..] == [] && out == Survivors(parts);
    r := Join(out, "/");
    if SafePath(p) {
      SafePathIsKept(p);
    }
  }

  /** strings.ReplaceAll(seg, "\x00", "") */
  function WithoutNul(s: string): string {
    if s == [] then []
    else (if s[0] == '\0' then [] else [s[0]]) + WithoutNul(s[1..])
  }

  lemma {:induction false} WithoutNulIdentity(s: string)
    requires '\0' !in s
    ensures WithoutNul(s) == s
  {
    if s != [] {
      WithoutNulIdentity(s[1..]);
      assert [s[0]] + s[1..] == s;
    }
  }

  lemma NoNulLeft(p: string, i: nat)
    requires i < |Split(StripSpec(p), '/')|
    ensures var seg := TrimSpace(Split(StripSpec(p), '/')[i]); WithoutNul(seg) == seg
  {
    var part := Split(StripSpec(p), '/')[i];
    StripChars(p);
    SplitPieces(StripSpec(p), '/');
    TrimSpaceResult(part);
    assert '\0' in TrimSpace(part) ==> '\0' in part && Kept('\0');
    WithoutNulIdentity(TrimSpace(part));
  }

  // ---- properties ----

  lemma {:induction false} StripChars(s: string)
    ensures forall c :: c in StripSpec(s) <==> c in s && Kept(c)
    ensures (forall c :: c in s ==> Kept(c)) ==> StripSpec(s) == s
  {
    if s != [] {
      StripChars(s[1..]);
      assert [s[0]] + s[1..] == s;
      forall c
        ensures c in StripSpec(s) <==> c in s && Kept(c)
      {
        assert c in s <==> c == s[0] || c in s[1..];
      }
      if forall c :: c in s ==> Kept(c) {
        assert forall c :: c in s[1..] ==> c in s;
      }
    }
  }

  /** A segment that may appear in a sanitised relative path. */
  predicate SafeSegment(seg: string) {
    && seg != "" && seg != "." && seg != ".."
    && Trimmed(seg)
    && '/' !in seg
    && forall c :: c in seg ==> c >= ' ' || c == '\t'
  }

  lemma {:induction false} SurvivorsAreSafe(parts: seq<string>)
    requires forall i :: 0 <= i < |parts| ==> '/' !in parts[i] && forall c :: c in parts[i] ==> Kept(c)
    ensures forall i :: 0 <= i < |Survivors(parts)| ==> SafeSegment(Survivors(parts)[i])
    ensures |Survivors(parts)| <= |parts|
  {
    if parts != [] {
      TrimSpaceResult(parts[0]);
      SurvivorsAreSafe(parts[1..]);
    }
  }

  lemma {:induction false} SafeSurvive(parts: seq<string>)
    requires forall i :: 0 <= i < |parts| ==> SafeSegment(parts[i])
    ensures Survivors(parts) == parts
  {
    if parts != [] {
      TrimSpaceResult(parts[0]);
      SafeSurvive(parts[1..]);
    }
  }

  lemma RelSegmentsAreSafe(p: string)
    ensures forall i :: 0 <= i < |RelSegments(p)| ==> SafeSegment(RelSegments(p)[i])
    ensures |RelSegments(p)| <= |Split(StripSpec(p), '/')|
  {
    StripChars(p);
    SplitPieces(StripSpec(p), '/');
    SurvivorsAreSafe(Split(StripSpec(p), '/'));
  }

  lemma NotLedBySlash(q: string)
    requires Split(q, '/')[0] != ""
    ensures q != "" && q[0] != '/'
  {
  }

  /** Splitting a sanitised path at its slashes gives back exactly the safe
      segments it was joined from: no empty, "." or ".." segment and no leading slash. */
  lemma SanitizedPathSegments(p: string)
    ensures RelSegments(p) == [] <==> RelSpec(p) == ""
    ensures RelSegments(p) != [] ==> Split(RelSpec(p), '/') == RelSegments(p)
    ensures RelSpec(p) != "" ==> RelSpec(p)[0] != '/'
    ensures forall c :: c in RelSpec(p) ==> Kept(c)
  {
    RelSegmentsAreSafe(p);
    var segs := RelSegments(p);
    if segs != [] {
      SplitJoin(segs, '/');
      assert SafeSegment(segs[0]);
      NotLedBySlash(RelSpec(p));
    }
    forall c | c in RelSpec(p)
      ensures Kept(c)
    {
      JoinChars(segs, "/", c);
    }
  }

  /** Sanitising twice is sanitising once. */
  lemma SanitizeIdempotent(p: string)
    ensures RelSpec(RelSpec(p)) == RelSpec(p)
  {
    var q := RelSpec(p);
    SanitizedPathSegments(p);
    RelSegmentsAreSafe(p);
    StripChars(q);
    if q == "" {
      assert Split(q, '/') == [""];
      assert Survivors([""]) == [] by {
        assert Dropped(TrimSpace(""));
        assert [""][1..] == [];
      }
    } else {
      SafeSurvive(RelSegments(p));
    }
  }

  lemma {:induction false} SurvivorsHaveNoSlash(parts: seq<string>)
    requires forall i :: 0 <= i < |parts| ==> '/' !in parts[i]
    ensures forall i :: 0 <= i < |Survivors(parts)| ==> '/' !in Survivors(parts)[i]
  {
    if parts != [] {
      TrimSpaceResult(parts[0]);
      SurvivorsHaveNoSlash(parts[1..]);
    }
  }

  /** A field value can never open a new directory level. */
  lemma FieldHasNoSlash(s: string)
    ensures '/' !in FieldSpec(s)
  {
    SplitPieces(s, '/');
    SurvivorsHaveNoSlash(Split(s, '/'));
    if '/' in FieldSpec(s) {
      JoinChars(Survivors(Split(s, '/')), "_", '/');
    }
  }

  // ---- what is kept ----

  lemma {:induction false} SurvivorsConcat(a: seq<string>, b: seq<string>)
    ensures Survivors(a + b) == Survivors(a) + Survivors(b)
  {
    if a == [] {
      assert a + b == b;
    } else {
      SurvivorsConcat(a[1..], b);
      assert (a + b)[1..] == a[1..] + b && (a + b)[0] == a[0];
    }
  }

  lemma StripCons(c: char, s: string)
    ensures StripSpec([c] + s) == (if Kept(c) then [c] else []) + StripSpec(s)
  {
    assert ([c] + s)[1..] == s;
  }

  lemma {:induction false} StripConcat(a: string, b: string)
    ensures StripSpec(a + b) == StripSpec(a) + StripSpec(b)
  {
    if a == [] {
      assert a + b == b;
    } else {
      var rest := a[1..];
      StripConcat(rest, b);
      StripCons(a[0], rest);
      StripCons(a[0], rest + b);
      assert a == [a[0]] + rest && a + b == [a[0]] + (rest + b);
    }
  }

  lemma SegmentsConcat(a: string, b: string)
    ensures RelSegments(a + "/" + b) == RelSegments(a) + RelSegments(b)
  {
    StripConcat(a + "/", b);
    StripConcat(a, "/");
    assert StripSpec("/") == "/" by {
      StripChars("/");
    }
    SplitConcat(StripSpec(a), StripSpec(b), '/');
    SurvivorsConcat(Split(StripSpec(a), '/'), Split(StripSpec(b), '/'));
  }

  /** Sanitising goes slash by slash: what is on one side of a slash does not
      touch what is on the other, and nothing is lost between them. */
  lemma SanitizeConcat(a: string, b: string)
    ensures RelSpec(a + "/" + b)
         == if RelSpec(a) == "" then RelSpec(b)
            else if RelSpec(b) == "" then RelSpec(a)
            else RelSpec(a) + "/" + RelSpec(b)
  {
    SegmentsConcat(a, b);
    JoinConcat(RelSegments(a), RelSegments(b), "/");
    SanitizedPathSegments(a);
    SanitizedPathSegments(b);
  }

  /** A text without a slash loses its control characters and the white space at
      its ends, and nothing else, unless nothing or only dots are left. */
  lemma SanitizeOneSegment(x: string)
    requires '/' !in x
    ensures var seg := TrimSpace(StripSpec(x));
            RelSpec(x) == if seg == "" || seg == "." || seg == ".." then "" else seg
  {
    StripChars(x);
    SplitNone(StripSpec(x), '/');
    OneSurvivor(StripSpec(x));
  }

  lemma OneSurvivor(part: string)
    ensures Survivors([part]) == Survivor(part)
  {
    assert [part][1..] == [];
  }

  /** A path of safe segments. */
  predicate SafePath(p: string) {
    forall i :: 0 <= i < |Split(p, '/')| ==> SafeSegment(Split(p, '/')[i])
  }

  lemma JoinIsSafe(segs: seq<string>)
    requires segs != [] && forall i :: 0 <= i < |segs| ==> SafeSegment(segs[i])
    ensures Split(Join(segs, "/"), '/') == segs && SafePath(Join(segs, "/"))
  {
    SplitJoin(segs, '/');
  }

  /** A path of safe segments is left exactly as it is. */
  lemma SafePathIsKept(p: string)
    requires SafePath(p)
    ensures RelSpec(p) == p
  {
    JoinSplit(p, '/');
    forall c | c in p
      ensures Kept(c)
    {
      JoinChars(Split(p, '/'), "/", c);
    }
    StripChars(p);
    SafeSurvive(Split(p, '/'));
  }

  /** So is one made by joining safe segments. */
  lemma SafeSegmentsAreKept(segs: seq<string>)
    requires segs != [] && forall i :: 0 <= i < |segs| ==> SafeSegment(segs[i])
    ensures RelSpec(Join(segs, "/")) == Join(segs, "/")
    ensures Split(RelSpec(Join(segs, "/")), '/') == segs
  {
    JoinIsSafe(segs);
    SafePathIsKept(Join(segs, "/"));
  }

  /** How many segments a sanitised path has. */
  function Depth(p: string): nat {
    if RelSpec(p) == "" then 0 else |Split(RelSpec(p), '/')|
  }

  lemma DepthIsSegments(p: string)
    ensures Depth(p) == |RelSegments(p)|
  {
    SanitizedPathSegments(p);
  }

  /** A safe segment survives in its place, whatever stands before and after it. */
  lemma SafeSegmentSurvives(a: string, seg: string, b: string)
    requires SafeSegment(seg)
    ensures var p := a + "/" + seg + "/" + b;
            Depth(p) == Depth(a) + 1 + Depth(b) && Split(RelSpec(p), '/')[Depth(a)] == seg
    ensures Depth(seg + "/" + b) == 1 + Depth(b) && Split(RelSpec(seg + "/" + b), '/')[0] == seg
    ensures Depth(a + "/" + seg) == Depth(a) + 1 && Split(RelSpec(a + "/" + seg), '/')[Depth(a)] == seg
  {
    assert RelSegments(seg) == [seg] by {
      StripChars(seg);
      SplitNone(seg, '/');
      SafeSurvive([seg]);
    }
    SegmentsConcat(a, seg);
    SegmentsConcat(seg, b);
    SegmentsConcat(a + "/" + seg, b);
    DepthIsSegments(a);
    DepthIsSegments(b);
    SurvivesAt(a + "/" + seg + "/" + b, RelSegments(a) + [seg] + RelSegments(b), |RelSegments(a)|);
    SurvivesAt(seg + "/" + b, [seg] + RelSegments(b), 0);
    SurvivesAt(a + "/" + seg, RelSegments(a) + [seg], |RelSegments(a)|);
  }

  lemma SurvivesAt(p: string, segs: seq<string>, k: nat)
    requires RelSegments(p) == segs && k < |segs|
    ensures Depth(p) == |segs| && Split(RelSpec(p), '/')[k] == segs[k]
  {
    SanitizedPathSegments(p);
  }

  // ---- field values ----

  /** A piece of a field value that sanitising keeps as it is. */
  predicate CleanPart(part: string) {
    part != "" && part != "." && part != ".." && Trimmed(part) && '/' !in part
  }

  predicate CleanField(s: string) {
    forall i :: 0 <= i < |Split(s, '/')| ==> CleanPart(Split(s, '/')[i])
  }

  lemma {:induction false} CleanSurvive(parts: seq<string>)
    requires forall i :: 0 <= i < |parts| ==> CleanPart(parts[i])
    ensures Survivors(parts) == parts
  {
    if parts != [] {
      TrimSpaceResult(parts[0]);
      CleanSurvive(parts[1..]);
    }
  }

  /** A field with an underscore for each slash. */
  function Flat(s: string): (t: string)
    ensures |t| == |s| && forall i :: 0 <= i < |s| ==> t[i] == if s[i] == '/' then '_' else s[i]
  {
    seq(|s|, (i: nat) requires i < |s| => if s[i] == '/' then '_' else s[i])
  }

  lemma {:induction false} JoinFlat(parts: seq<string>)
    requires forall i :: 0 <= i < |parts| ==> '/' !in parts[i]
    ensures Join(parts, "_") == Flat(Join(parts, "/"))
  {
    if |parts| > 1 {
      JoinFlat(parts[1..]);
    }
  }

  /** A field whose pieces are clean keeps every character, but for an
      underscore in place of each slash. */
  lemma CleanFieldIsFlat(s: string)
    requires CleanField(s)
    ensures FieldSpec(s) == Flat(s)
  {
    JoinSplit(s, '/');
    CleanSurvive(Split(s, '/'));
    JoinFlat(Split(s, '/'));
  }

  lemma NoFieldLeft(s: string)
    ensures FieldSpec(s) == "" <==> Survivors(Split(s, '/')) == []
  {
    SurvivorsAreNotEmpty(Split(s, '/'));
  }

  lemma {:induction false} SurvivorsAreNotEmpty(parts: seq<string>)
    ensures forall i :: 0 <= i < |Survivors(parts)| ==> Survivors(parts)[i] != ""
  {
    if parts != [] {
      SurvivorsAreNotEmpty(parts[1..]);
    }
  }

  /** Field values go slash by slash too. */
  lemma FieldConcat(a: string, b: string)
    ensures FieldSpec(a + "/" + b)
         == if FieldSpec(a) == "" then FieldSpec(b)
            else if FieldSpec(b) == "" then FieldSpec(a)
            else FieldSpec(a) + "_" + FieldSpec(b)
  {
    SplitConcat(a, b, '/');
    SurvivorsConcat(Split(a, '/'), Split(b, '/'));
    JoinConcat(Survivors(Split(a, '/')), Survivors(Split(b, '/')), "_");
    NoFieldLeft(a);
    NoFieldLeft(b);
  }

  /** Without a slash a field loses the white space at its ends, and nothing
      else, unless nothing or only dots are left. */
  lemma FieldOfOnePiece(x: string)
    requires '/' !in x
    ensures var v := TrimSpace(x); FieldSpec(x) == if v == "" || v == "." || v == ".." then "" else v
  {
    SplitNone(x, '/');
    OneSurvivor(x);
  }

  lemma SlashBetween(a: string, b: string)
    requires CleanPart(a) && CleanPart(b)
    ensures FieldSpec(a + "/" + b) == a + "_" + b
  {
    FieldConcat(a, b);
    FieldOfOnePiece(a);
    FieldOfOnePiece(b);
    TrimSpaceResult(a);
    TrimSpaceResult(b);
  }

  lemma SlashInABandName()
    ensures FieldSpec("AC/DC") == "AC_DC"
  {
    SlashBetween("AC", "DC");
    assert "AC" + "/" + "DC" == "AC/DC" && "AC" + "_" + "DC" == "AC_DC";
  }

  // ---- rendering ----

  /** A parsed template: literal text, a string field (sanitised before it is
      inserted) or a number (printed as slash-free text). */
  datatype Piece = Literal(text: string) | Field(raw: string) | Number(digits: string)

  predicate WellFormed(tmpl: seq<Piece>) {
    forall i :: 0 <= i < |tmpl| && tmpl[i].Number? ==> '/' !in tmpl[i].digits
  }

  function PieceText(p: Piece): string {
    match p
    case Literal(text) => text
    case Field(raw) => FieldSpec(raw)
    case Number(digits) => digits
  }

  function Rendered(tmpl: seq<Piece>): string {
    if tmpl == [] then [] else PieceText(tmpl[0]) + Rendered(tmpl[1..])
  }

  function LiteralSlashes(tmpl: seq<Piece>): nat {
    if tmpl == [] then 0
    else (if tmpl[0].Literal? then Count(tmpl[0].text, '/') else 0) + LiteralSlashes(tmpl[1..])
  }

  method RenderOutputPath(tmpl: seq<Piece>) returns (rel: string)
    requires WellFormed(tmpl)
    ensures rel == RelSpec(Rendered(tmpl))
    ensures rel != "" ==> |Split(rel, '/')| <= LiteralSlashes(tmpl) + 1
    ensures CleanFields(tmpl) && SafePath(Verbatim(tmpl)) ==> rel == Verbatim(tmpl)
  {
    var buf := "";
    for i := 0 to |tmpl|
      invariant buf + Rendered(tmpl[i..]) == Rendered(tmpl)
    {
      RenderedStep(buf, tmpl, i);
      match tmpl[i]
      case Literal(text) => buf := buf + text;
      case Field(raw) =>
        var v := SanitizeFieldValue(raw);
        buf := buf + v;
      case Number(digits) => buf := buf + digits;
    }
    assert tmpl[|tmpl|..] == [] && buf == Rendered(tmpl);
    rel := SanitizeRelPath(buf);
    RenderedDepth(tmpl);
    if CleanFields(tmpl) {
      CleanRendering(tmpl);
    }
  }

  /** The text the template author and the metadata spell out, but for slashes in fields. */
  function Verbatim(tmpl: seq<Piece>): string {
    if tmpl == [] then []
    else
      var p := tmpl[0];
      (if p.Literal? then p.text else if p.Field? then Flat(p.raw) else p.digits) + Verbatim(tmpl[1..])
  }

  /** Fields that lose nothing but their slashes: empty ones, and clean ones. */
  predicate CleanFields(tmpl: seq<Piece>) {
    forall i :: 0 <= i < |tmpl| && tmpl[i].Field? ==> tmpl[i].raw == "" || CleanField(tmpl[i].raw)
  }

  lemma {:induction false} CleanRendering(tmpl: seq<Piece>)
    requires CleanFields(tmpl)
    ensures Rendered(tmpl) == Verbatim(tmpl)
  {
    if tmpl != [] {
      assert forall i :: 0 <= i < |tmpl| - 1 ==> tmpl[1..][i] == tmpl[i + 1];
      CleanRendering(tmpl[1..]);
      if tmpl[0].Field? {
        CleanFieldText(tmpl[0].raw);
      }
    }
  }

  lemma CleanFieldText(raw: string)
    requires raw == "" || CleanField(raw)
    ensures FieldSpec(raw) == Flat(raw)
  {
    if raw == "" {
      FieldOfOnePiece(raw);
    } else {
      CleanFieldIsFlat(raw);
    }
  }

  lemma RenderedStep(buf: string, tmpl: seq<Piece>, i: nat)
    requires i < |tmpl|
    ensures buf + Rendered(tmpl[i..]) == buf + PieceText(tmpl[i]) + Rendered(tmpl[i + 1..])
  {
    assert tmpl[i..][1..] == tmpl[i + 1..];
  }

  lemma {:induction false} StripKeepsSlashes(s: string)
    ensures Count(StripSpec(s), '/') == Count(s, '/')
  {
    if s != [] {
      StripKeepsSlashes(s[1..]);
      CountConcat(if Kept(s[0]) then [s[0]] else [], StripSpec(s[1..]), '/');
    }
  }

  lemma {:induction false} RenderedSlashes(tmpl: seq<Piece>)
    requires WellFormed(tmpl)
    ensures Count(Rendered(tmpl), '/') == LiteralSlashes(tmpl)
  {
    if tmpl != [] {
      CountConcat(PieceText(tmpl[0]), Rendered(tmpl[1..]), '/');
      RenderedSlashes(tmpl[1..]);
      if tmpl[0].Field? {
        FieldHasNoSlash(tmpl[0].raw);
      }
      if !tmpl[0].Literal? {
        CountNone(PieceText(tmpl[0]), '/');
      }
    }
  }

  /** Whatever the fields hold, a rendered path is no deeper than the slashes
      the template author wrote. */
  lemma RenderedDepth(tmpl: seq<Piece>)
    requires WellFormed(tmpl)
    ensures |RelSegments(Rendered(tmpl))| <= LiteralSlashes(tmpl) + 1
    ensures RelSpec(Rendered(tmpl)) != "" ==>
              |Split(RelSpec(Rendered(tmpl)), '/')| <= LiteralSlashes(tmpl) + 1
  {
    var p := Rendered(tmpl);
    RelSegmentsAreSafe(p);
    SplitCount(StripSpec(p), '/');
    StripKeepsSlashes(p);
    RenderedSlashes(tmpl);
    SanitizedPathSegments(p);
  }

  /** Lexical path resolution (path/filepath.Clean): "" and "." stay put, ".." climbs. */
  function Resolve(dir: seq<string>, segs: seq<string>): seq<string>
    decreases segs
  {
    if segs == [] then dir
    else if segs[0] == "" || segs[0] == "." then Resolve(dir, segs[1..])
    else if segs[0] == ".." then Resolve(if dir == [] then [] else dir[..|dir| - 1], segs[1..])
    else Resolve(dir + [segs[0]], segs[1..])
  }

  lemma {:induction false} ResolveSafe(dir: seq<string>, segs: seq<string>)
    requires forall i :: 0 <= i < |segs| ==> SafeSegment(segs[i])
    ensures Resolve(dir, segs) == dir + segs
    decreases segs
  {
    if segs != [] {
      ResolveSafe(dir + [segs[0]], segs[1..]);
      assert dir + [segs[0]] + segs[1..] == dir + segs;
    }
  }

  /** Joining any raw path, once sanitised, to any library root stays under
      that root: the root is a prefix of where the path resolves, whatever dots
      or control characters the raw path held. */
  lemma StaysUnderRoot(root: seq<string>, raw: string)
    ensures root <= Resolve(root, Split(RelSpec(raw), '/'))
    ensures Resolve(root, Split(RelSpec(raw), '/')) == root + RelSegments(raw)
  {
    SanitizedPathSegments(raw);
    RelSegmentsAreSafe(raw);
    if RelSpec(raw) == "" {
      assert Split("", '/') == [""];
      assert Resolve(root, [""]) == Resolve(root, [""][1..]) == root;
    } else {
      ResolveSafe(root, RelSegments(raw));
    }
  }
}
