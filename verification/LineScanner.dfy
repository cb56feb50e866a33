/** Splitting tool output at CR or LF while it arrives in arbitrary chunks
    (daemon/tools/streamparse.go): the split function, the refilling scanner
    around it, and the drain that keeps the subprocess from blocking.
    Bytes are modelled as characters. */
module LineScanner {
  import opened Wrappers

  predicate IsEol(c: char) {
    c == '\n' || c == '\r'
  }

  /** Index of the first terminator, or |s|. */
  ghost function FirstEol(s: string, from: nat := 0): (i: nat)
    requires from <= |s|
    ensures from <= i <= |s|
    ensures forall k :: from <= k < i ==> !IsEol(s[k])
    ensures i < |s| ==> IsEol(s[i])
    decreases |s| - from
  {
    if from == |s| || IsEol(s[from]) then from else FirstEol(s, from + 1)
  }

  lemma FirstEolIs(s: string, i: nat)
    requires i <= |s| && (i < |s| ==> IsEol(s[i]))
    requires forall k :: 0 <= k < i ==> !IsEol(s[k])
    ensures FirstEol(s) == i
  {
    var j := FirstEol(s);
    assert !(i < j) && !(j < i);
  }

  /** A piece of the stream: text without terminators, and the terminator after it ("" at the end). */
  datatype Piece = Piece(text: string, end: string)

  /** The whole-stream split the incremental scanner must reproduce. */
  ghost function Pieces(s: string): seq<Piece>
    decreases |s|
  {
    if s == [] then []
    else
      var i := FirstEol(s);
      if i == |s| then [Piece(s, "")]
      else [HeadPiece(s)] + Pieces(Tail(s))
  }

  ghost function HeadPiece(s: string): Piece
    requires FirstEol(s) < |s|
  {
    Piece(s[..FirstEol(s)], [s[FirstEol(s)]])
  }

  /** What follows the first terminator. */
  ghost function Tail(s: string): string {
    if FirstEol(s) == |s| then [] else s[FirstEol(s) + 1..]
  }

  ghost function Texts(ps: seq<Piece>): seq<string> {
    if ps == [] then [] else [ps[0].text] + Texts(ps[1..])
  }

  ghost function Tokens(s: string): seq<string> {
    Texts(Pieces(s))
  }

  ghost function Glue(ps: seq<Piece>): string {
    if ps == [] then [] else ps[0].text + ps[0].end + Glue(ps[1..])
  }

  predicate NoEol(text: string) {
    forall c :: c in text ==> !IsEol(c)
  }

  /** A split at every terminator and nowhere else. */
  ghost predicate IsSplit(ps: seq<Piece>) {
    forall i :: 0 <= i < |ps| ==>
      && NoEol(ps[i].text)
      && (if ps[i].end == "" then i == |ps| - 1 && ps[i].text != "" else |ps[i].end| == 1 && IsEol(ps[i].end[0]))
  }

  /** Tokens and terminators rebuild the stream. */
  lemma {:induction false} PiecesRebuild(s: string)
    ensures Glue(Pieces(s)) == s
    ensures IsSplit(Pieces(s))
    decreases |s|
  {
    if s != [] {
      var i := FirstEol(s);
      if i < |s| {
        PiecesRebuild(Tail(s));
        HeadSplitsOff(s);
        SplitCons(HeadPiece(s), Pieces(Tail(s)));
      } else {
        assert s + "" + "" == s;
      }
    }
  }

  lemma HeadSplitsOff(s: string)
    requires FirstEol(s) < |s|
    ensures s == HeadPiece(s).text + HeadPiece(s).end + Tail(s)
    ensures NoEol(HeadPiece(s).text)
  {
    CutOut(s, FirstEol(s));
  }

  lemma CutOut(s: string, i: nat)
    requires i < |s|
    ensures s == s[..i] + [s[i]] + s[i + 1..]
  {
  }

  lemma SplitCons(head: Piece, rest: seq<Piece>)
    requires |head.end| == 1 && IsEol(head.end[0])
    requires NoEol(head.text)
    requires IsSplit(rest)
    ensures IsSplit([head] + rest)
    ensures Glue([head] + rest) == head.text + head.end + Glue(rest)
  {
    var ps := [head] + rest;
    assert ps[1..] == rest;
    forall i | 0 < i < |ps|
      ensures ps[i] == rest[i - 1]
    {
    }
  }

  /** The split is the only one there is. */
  lemma {:induction false} SplitUnique(ps: seq<Piece>)
    requires IsSplit(ps)
    ensures Pieces(Glue(ps)) == ps
  {
    if ps == [] {
    } else if ps[0].end == "" {
      UnendedIsLast(ps);
    } else {
      RestSplits(ps);
      SplitUnique(ps[1..]);
      HeadIsFirst(ps[0], Glue(ps[1..]));
      assert Glue(ps) == ps[0].text + ps[0].end + Glue(ps[1..]);
      assert ps == [ps[0]] + ps[1..];
    }
  }

  lemma RestSplits(ps: seq<Piece>)
    requires IsSplit(ps) && ps != []
    ensures IsSplit(ps[1..])
  {
    forall i | 0 <= i < |ps| - 1
      ensures ps[1..][i] == ps[i + 1]
    {
    }
  }

  lemma UnendedIsLast(ps: seq<Piece>)
    requires IsSplit(ps) && ps != [] && ps[0].end == ""
    ensures Pieces(Glue(ps)) == ps
  {
    var text := ps[0].text;
    assert ps == [ps[0]] && ps[1..] == [];
    assert Glue(ps) == text + "" + Glue([]) == text;
    FirstEolIs(text, |text|);
  }

  lemma HeadIsFirst(p: Piece, rest: string)
    requires NoEol(p.text) && |p.end| == 1 && IsEol(p.end[0])
    ensures Pieces(p.text + p.end + rest) == [p] + Pieces(rest)
  {
    var s := p.text + p.end + rest;
    FirstEolIs(s, |p.text|);
    assert s[..|p.text|] == p.text && s[|p.text| + 1..] == rest && p.end == [p.end[0]];
    assert s != [] && HeadPiece(s) == p && Tail(s) == rest;
  }

  lemma TokensUnfold(s: string)
    requires s != []
    ensures Tokens(s) == [s[..FirstEol(s)]] + Tokens(Tail(s))
  {
    var i := FirstEol(s);
    if i == |s| {
      assert s[..i] == s && [Piece(s, "")] + [] == [Piece(s, "")];
      TextsCons(Piece(s, ""), []);
    } else {
      TextsCons(HeadPiece(s), Pieces(Tail(s)));
    }
  }

  lemma TextsCons(head: Piece, rest: seq<Piece>)
    ensures Texts([head] + rest) == [head.text] + Texts(rest)
  {
    assert ([head] + rest)[1..] == rest;
  }

  /** bufio.SplitFunc over both terminators. */
  method SplitCROrLF(data: string, atEOF: bool) returns (advance: nat, token: Option<string>)
    ensures FirstEol(data) < |data| ==> advance == FirstEol(data) + 1 && token == Some(data[..FirstEol(data)])
    ensures FirstEol(data) == |data| ==>
              && advance == (if atEOF then |data| else 0)
              && token == (if atEOF && data != [] then Some(data) else None)
  {
    if atEOF && |data| == 0 {
      return 0, None;
    }
    for i := 0 to |data|
      invariant forall k :: 0 <= k < i ==> !IsEol(data[k])
    {
      if data[i] == '\n' || data[i] == '\r' {
        FirstEolIs(data, i);
        return i + 1, Some(data[..i]);
      }
    }
    FirstEolIs(data, |data|);
    if atEOF {
      return |data|, Some(data);
    }
    return 0, None;
  }

  /** A pipe: `rest` is what it will still deliver before end of file (or a read error). */
  class Reader {
    var rest: string

    constructor (rest: string)
      ensures this.rest == rest
    {
      this.rest := rest;
    }

    /** Delivers some bytes, as many as the pipe feels like; none only at the end. */
    method Read(space: nat) returns (chunk: string)
      requires space > 0
      modifies this
      ensures old(rest) == chunk + rest
      ensures |chunk| <= space
      ensures chunk == [] <==> old(rest) == []
    {
      if rest == [] {
        return [];
      }
      var n: nat :| 1 <= n <= space && n <= |rest|;
      chunk, rest := rest[..n], rest[n..];
    }
  }

  /** bufio.Scanner reduced to what decides the tokens: the unread part of the
      buffer, the end-of-input flag and the size limit. */
  class Scanner {
    const reader: Reader
    const max: nat
    var buf: string
    var eof: bool
    var tooLong: bool

    ghost predicate Valid()
      reads this, reader
    {
      && max > 0
      && |buf| <= max
      && (eof ==> reader.rest == [] && |buf| < max)
    }

    ghost function Unread(): string
      reads this, reader
    {
      buf + reader.rest
    }

    constructor (reader: Reader, max: nat)
      requires max > 0
      ensures this.reader == reader && this.max == max
      ensures Valid() && Unread() == reader.rest && !tooLong && !eof
    {
      this.reader, this.max := reader, max;
      buf, eof, tooLong := [], false, false;
    }

    /** One token, refilling as needed. It fails at the end of the stream, and
        when the next token does not fit the buffer. */
    method Scan() returns (ok: bool, token: string)
      requires Valid() && !tooLong
      modifies this, reader
      ensures Valid()
      ensures ok <==> old(Unread()) != [] && FirstEol(old(Unread())) < max
      ensures ok ==> !tooLong && token == old(Unread())[..FirstEol(old(Unread()))]
      ensures ok ==> Unread() == Tail(old(Unread()))
      ensures !ok ==> Unread() == old(Unread())
      ensures tooLong <==> old(Unread()) != [] && FirstEol(old(Unread())) >= max
    {
      ghost var all := Unread();
      while true
        invariant Valid() && !tooLong
        invariant Unread() == all
        decreases |reader.rest|, if eof then 0 else 1
      {
        if buf != [] || eof {
          var advance, tok := SplitCROrLF(buf, eof);
          if tok.Some? {
            BufferHoldsToken(buf, reader.rest);
            buf := buf[advance..];
            return true, tok.value;
          }
        }
        if eof {
          assert all == [];
          return false, "";
        }
        if |buf| == max {
          BufferTooSmall(buf, reader.rest);
          tooLong := true;
          return false, "";
        }
        var chunk := reader.Read(max - |buf|);
        assert buf + (chunk + reader.rest) == buf + chunk + reader.rest;
        if chunk == [] {
          eof := true;
        }
        buf := buf + chunk;
      }
    }
  }

  /** A terminator in the buffer is the first one of the whole unread stream;
      without one, at the end of input, the buffer is the last token. */
  lemma BufferHoldsToken(buf: string, rest: string)
    requires FirstEol(buf) < |buf| || rest == []
    ensures FirstEol(buf + rest) == FirstEol(buf)
    ensures (buf + rest)[..FirstEol(buf)] == buf[..FirstEol(buf)]
    ensures Tail(buf + rest) == if FirstEol(buf) == |buf| then [] else buf[FirstEol(buf) + 1..] + rest
  {
    if rest == [] {
      assert buf + rest == buf;
    } else {
      FirstEolIs(buf + rest, FirstEol(buf));
    }
  }

  lemma BufferTooSmall(buf: string, rest: string)
    requires FirstEol(buf) == |buf|
    ensures FirstEol(buf + rest) >= |buf|
  {
    assert forall k :: 0 <= k < |buf| ==> !IsEol((buf + rest)[k]);
  }

  /** How many leading tokens fit a buffer of `max` bytes. */
  ghost function Fitting(ts: seq<string>, max: nat): (k: nat)
    ensures k <= |ts|
    ensures forall i :: 0 <= i < k ==> |ts[i]| < max
    ensures k < |ts| ==> |ts[k]| >= max
  {
    if ts == [] || |ts[0]| >= max then 0 else 1 + Fitting(ts[1..], max)
  }

  /** io.Copy to nowhere. */
  method Drain(reader: Reader)
    modifies reader
    ensures reader.rest == []
  {
    while reader.rest != []
      decreases |reader.rest|
    {
      var _ := reader.Read(32 * 1024);
    }
  }

  /** A parser that reads at most `limit` tokens and stops at the first that
      does not fit. */
  method ScanSome(reader: Reader, max: nat, limit: nat) returns (tokens: seq<string>)
    requires max > 0
    modifies reader
    ensures tokens <= Tokens(old(reader.rest))
    ensures |tokens| == (if limit < Fitting(Tokens(old(reader.rest)), max) then limit
                         else Fitting(Tokens(old(reader.rest)), max))
  {
    ghost var all := Tokens(reader.rest);
    var scanner := new Scanner(reader, max);
    tokens := [];
    while |tokens| < limit
      invariant scanner.Valid() && !scanner.tooLong && scanner.reader == reader && scanner.max == max
      invariant fresh(scanner)
      invariant |tokens| <= limit && ReadSoFar(all, tokens, scanner.Unread(), max)
      decreases limit - |tokens|
    {
      ghost var unread := scanner.Unread();
      var ok, token := scanner.Scan();
      if !ok {
        StopsThere(all, tokens, unread, max);
        return;
      }
      ReadsOneMore(all, tokens, unread, max);
      tokens := tokens + [token];
    }
    FittingIs(all, max, |tokens|);
  }

  /** Runs the parser, then reads the pipe to its end whatever happened. For
      every chunking the parser sees exactly the whole-stream tokens while they
      fit, and the pipe is always emptied. */
  method DrainAfterScan(reader: Reader, max: nat, limit: nat) returns (tokens: seq<string>)
    requires max > 0
    modifies reader
    ensures reader.rest == []
    ensures tokens <= Tokens(old(reader.rest))
    ensures |tokens| == (if limit < Fitting(Tokens(old(reader.rest)), max) then limit
                         else Fitting(Tokens(old(reader.rest)), max))
    ensures (forall t :: t in Tokens(old(reader.rest)) ==> |t| < max) && limit >= |Tokens(old(reader.rest))| ==>
              tokens == Tokens(old(reader.rest))
  {
    tokens := ScanSome(reader, max, limit);
    Drain(reader);
  }

  ghost predicate ReadSoFar(all: seq<string>, tokens: seq<string>, unread: string, max: nat) {
    tokens + Tokens(unread) == all && forall i :: 0 <= i < |tokens| ==> |tokens[i]| < max
  }

  lemma ReadsOneMore(all: seq<string>, tokens: seq<string>, unread: string, max: nat)
    requires ReadSoFar(all, tokens, unread, max) && unread != [] && FirstEol(unread) < max
    ensures ReadSoFar(all, tokens + [unread[..FirstEol(unread)]], Tail(unread), max)
  {
    TokensUnfold(unread);
    Shift(tokens, unread[..FirstEol(unread)], Tokens(Tail(unread)));
  }

  lemma Shift(tokens: seq<string>, t: string, rest: seq<string>)
    ensures tokens + ([t] + rest) == (tokens + [t]) + rest
  {
  }

  lemma StopsThere(all: seq<string>, tokens: seq<string>, unread: string, max: nat)
    requires ReadSoFar(all, tokens, unread, max) && (unread == [] || FirstEol(unread) >= max)
    ensures tokens <= all && |tokens| == Fitting(all, max)
  {
    if unread == [] {
      assert Tokens(unread) == [];
    } else {
      TokensUnfold(unread);
      assert all[|tokens|] == unread[..FirstEol(unread)];
    }
    FittingIs(all, max, |tokens|);
  }

  lemma FittingIs(ts: seq<string>, max: nat, k: nat)
    requires k <= |ts|
    requires forall i :: 0 <= i < k ==> |ts[i]| < max
    ensures k <= Fitting(ts, max)
    ensures k == |ts| || |ts[k]| >= max ==> Fitting(ts, max) == k
  {
    var f := Fitting(ts, max);
    assert !(f < k);
  }
}
