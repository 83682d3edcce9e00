/** How the wire is cut into chunks does not matter: Feed is a fold over bytes, and over lines. */
module TraceChunks {
  import opened Utf8
  import opened ByteText
  import opened TraceEvents
  import opened TraceMachine

  /** One byte of the wire. */
  function ByteStep(g: Grammar, s: State, b: byte): (State, seq<Event>) {
    if b == NEWLINE then EndLine(g, s) else Piece(s, [b])
  }

  function Bytewise(g: Grammar, s: State, wire: Bytes): (State, seq<Event>)
    decreases |wire|
  {
    if wire == [] then (s, []) else
    var (t, first) := ByteStep(g, s, wire[0]);
    var (v, rest) := Bytewise(g, t, wire[1..]);
    (v, first + rest)
  }

  ghost predicate LineFits(s: State) { |s.line| <= MAX_RECORD }

  lemma StepKeepsLine(g: Grammar, s: State, b: byte)
    requires LineFits(s)
    ensures LineFits(ByteStep(g, s, b).0)
  {
    hide Consume;
  }

  lemma {:induction false} BytewiseAppend(g: Grammar, s: State, a: Bytes, b: Bytes)
    ensures var (t, first) := Bytewise(g, s, a); var (v, rest) := Bytewise(g, t, b);
      Bytewise(g, s, a + b) == (v, first + rest)
    decreases |a|
  {
    hide ByteStep;
    if a == [] {
      assert a + b == b;
      assert [] + Bytewise(g, s, b).1 == Bytewise(g, s, b).1;
    } else {
      assert (a + b)[0] == a[0] && (a + b)[1..] == a[1..] + b;
      var (t, first) := ByteStep(g, s, a[0]);
      BytewiseAppend(g, t, a[1..], b);
      var middle := Bytewise(g, t, a[1..]);
      var last := Bytewise(g, middle.0, b).1;
      assert first + (middle.1 + last) == first + middle.1 + last;
    }
  }

  lemma PieceSplit(s: State, b: byte, piece: Bytes)
    requires LineFits(s)
    ensures var (t, first) := Piece(s, [b]); var (v, rest) := Piece(t, piece);
      LineFits(t) && (Piece(s, [b] + piece) == (v, first + rest))
  {
    assert s.line + ([b] + piece) == s.line + [b] + piece;
    assert [GAP] + [] == [GAP] && [] + [GAP] == [GAP];
    var none: seq<Event> := [];
    assert none + none == none;
  }

  lemma PieceEmpty(s: State)
    requires LineFits(s)
    ensures Piece(s, []) == (s, [])
  {
    assert s.line + [] == s.line;
  }

  lemma {:induction false} PieceBytewise(g: Grammar, s: State, piece: Bytes)
    requires LineFits(s) && NEWLINE !in piece
    ensures Bytewise(g, s, piece) == Piece(s, piece)
    ensures LineFits(Piece(s, piece).0)
    decreases |piece|
  {
    if piece == [] {
      PieceEmpty(s);
    } else {
      PieceSplit(s, piece[0], piece[1..]);
      assert [piece[0]] + piece[1..] == piece;
      hide Piece;
      PieceBytewise(g, Piece(s, [piece[0]]).0, piece[1..]);
    }
  }

  lemma FeedLine(g: Grammar, s: State, chunk: Bytes)
    requires chunk != [] && LineLength(chunk) < |chunk|
    ensures var n := LineLength(chunk);
      var (t, first) := Piece(s, chunk[..n]); var (v, second) := EndLine(g, t);
      var (w, rest) := Feed(g, v, chunk[n + 1..]);
      Feed(g, s, chunk) == (w, first + second + rest)
  {
    hide Piece, EndLine;
  }

  lemma BytewiseLine(g: Grammar, s: State, piece: Bytes, rest: Bytes)
    requires LineFits(s) && NEWLINE !in piece
    ensures var (t, first) := Piece(s, piece); var (v, second) := EndLine(g, t); var (w, last) := Bytewise(g, v, rest);
      Bytewise(g, s, piece + ([NEWLINE] + rest)) == (w, first + second + last)
  {
    PieceBytewise(g, s, piece);
    BytewiseAppend(g, s, piece, [NEWLINE] + rest);
    hide Piece, EndLine;
    var (t, first) := Piece(s, piece);
    var ended := EndLine(g, t);
    assert ([NEWLINE] + rest)[1..] == rest;
    var last := Bytewise(g, ended.0, rest).1;
    assert first + (ended.1 + last) == first + ended.1 + last;
  }

  lemma FeedPiece(g: Grammar, s: State, piece: Bytes)
    requires LineFits(s) && LineLength(piece) == |piece|
    ensures Feed(g, s, piece) == Piece(s, piece)
  {
    if piece == [] {
      PieceEmpty(s);
    } else {
      assert piece[..|piece|] == piece;
      hide Piece;
    }
  }

  /** Feed handles a chunk as if it came byte by byte. */
  lemma {:induction false} FeedIsBytewise(g: Grammar, s: State, chunk: Bytes)
    requires LineFits(s)
    ensures Feed(g, s, chunk) == Bytewise(g, s, chunk)
    decreases |chunk|
  {
    hide Piece, EndLine, Bytewise, Feed, LineLength;
    var n := LineLength(chunk);
    var piece := chunk[..n];
    if n == |chunk| {
      assert piece == chunk;
      PieceBytewise(g, s, chunk);
      FeedPiece(g, s, chunk);
    } else {
      var t := Piece(s, piece).0;
      EndLineFits(g, t);
      FeedLine(g, s, chunk);
      FeedIsBytewise(g, EndLine(g, t).0, chunk[n + 1..]);
      BytewiseLine(g, s, piece, chunk[n + 1..]);
      assert piece + ([NEWLINE] + chunk[n + 1..]) == chunk;
    }
  }

  lemma EndLineFits(g: Grammar, s: State)
    ensures LineFits(EndLine(g, s).0)
  {
    hide Consume;
  }

  lemma {:induction false} BytewiseFits(g: Grammar, s: State, wire: Bytes)
    requires LineFits(s)
    ensures LineFits(Bytewise(g, s, wire).0)
    decreases |wire|
  {
    hide ByteStep;
    if wire != [] {
      StepKeepsLine(g, s, wire[0]);
      BytewiseFits(g, ByteStep(g, s, wire[0]).0, wire[1..]);
    }
  }

  /** Two chunks are handled as their concatenation. */
  lemma FeedInChunks(g: Grammar, s: State, a: Bytes, b: Bytes)
    requires LineFits(s)
    ensures var (t, first) := Feed(g, s, a); var (v, rest) := Feed(g, t, b);
      Feed(g, s, a + b) == (v, first + rest)
  {
    hide Feed, Bytewise;
    FeedIsBytewise(g, s, a);
    BytewiseFits(g, s, a);
    FeedIsBytewise(g, Feed(g, s, a).0, b);
    FeedIsBytewise(g, s, a + b);
    BytewiseAppend(g, s, a, b);
  }

  // ---- lines

  function Join(lines: seq<Bytes>): Bytes {
    if lines == [] then [] else lines[0] + [NEWLINE] + Join(lines[1..])
  }

  /** One line of the wire: too long a line is one gap, any other is consumed. */
  function LineStep(g: Grammar, r: Reader, line: Bytes): (Reader, seq<Event>) {
    if |line| > MAX_RECORD then (Lost(r), [GAP]) else Consume(g, r, TrimReturn(line))
  }

  function Linewise(g: Grammar, r: Reader, lines: seq<Bytes>): (Reader, seq<Event>)
    decreases |lines|
  {
    if lines == [] then (r, []) else
    var (t, first) := LineStep(g, r, lines[0]);
    var (v, rest) := Linewise(g, t, lines[1..]);
    (v, first + rest)
  }

  /** A parser that is between two lines. */
  function AtLineStart(r: Reader): State { State([], false, r) }

  lemma {:induction false} LineEnds(line: Bytes, more: Bytes)
    requires NEWLINE !in line
    ensures LineLength(line + [NEWLINE] + more) == |line|
  {
    var chunk := line + [NEWLINE] + more;
    if line != [] {
      assert chunk[0] == line[0] && chunk[1..] == line[1..] + [NEWLINE] + more;
      LineEnds(line[1..], more);
    }
  }

  /** A whole line on the wire is one step of the line machine. */
  lemma WholeLine(g: Grammar, r: Reader, line: Bytes)
    ensures var (t, first) := Piece(AtLineStart(r), line); var (v, second) := EndLine(g, t);
      v == AtLineStart(LineStep(g, r, line).0) && first + second == LineStep(g, r, line).1
  {
    hide Consume;
    if |line| <= MAX_RECORD {
      assert [] + line == line;
    } else {
      assert [GAP] + [] == [GAP];
    }
  }

  lemma FeedOneLine(g: Grammar, r: Reader, line: Bytes, more: Bytes)
    requires NEWLINE !in line
    ensures var (t, first) := LineStep(g, r, line); var (v, rest) := Feed(g, AtLineStart(t), more);
      Feed(g, AtLineStart(r), line + [NEWLINE] + more) == (v, first + rest)
  {
    var chunk := line + [NEWLINE] + more;
    LineEnds(line, more);
    assert chunk[..|line|] == line && chunk[|line| + 1..] == more;
    FeedLine(g, AtLineStart(r), chunk);
    hide Feed, Piece, EndLine, LineStep;
    WholeLine(g, r, line);
  }

  /** Feed is the line machine run over the lines of the wire, with one gap for each line that is too long. */
  lemma {:induction false} FeedIsLinewise(g: Grammar, r: Reader, lines: seq<Bytes>)
    requires forall i :: 0 <= i < |lines| ==> NEWLINE !in lines[i]
    ensures Feed(g, AtLineStart(r), Join(lines)) == (AtLineStart(Linewise(g, r, lines).0), Linewise(g, r, lines).1)
    decreases |lines|
  {
    hide Feed, LineStep;
    if lines == [] {
      FeedEmpty(g, AtLineStart(r));
    } else {
      FeedOneLine(g, r, lines[0], Join(lines[1..]));
      FeedIsLinewise(g, LineStep(g, r, lines[0]).0, lines[1..]);
    }
  }

  lemma FeedEmpty(g: Grammar, s: State)
    ensures Feed(g, s, []) == (s, [])
  {
  }
}
