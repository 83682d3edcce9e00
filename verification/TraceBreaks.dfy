/**
 * What makes a record incomplete (internal/traceparse/parser.go, finish): over every run the parser's own flag says
 * neither more nor less than that some record or gap broke the nesting before.
 */
module TraceBreaks {
  import opened Utf8
  import opened ByteText
  import Describe = SqlDescribe
  import opened TraceEvents
  import opened TracePairing
  import opened TraceMachine
  import opened TraceRuns

  /** Something broke: a gap, or an execution that could not be matched. */
  ghost predicate Broken(h: seq<Event>) {
    exists i :: 0 <= i < |h| && Breaks(h[i])
  }

  lemma BrokenAppend(h: seq<Event>, more: seq<Event>)
    ensures Broken(h + more) <==> Broken(h) || Broken(more)
  {
    hide Breaks;
    var g := h + more;
    if i :| 0 <= i < |h| && Breaks(h[i]) {
      assert Breaks(g[i]);
    }
    if i :| 0 <= i < |more| && Breaks(more[i]) {
      assert Breaks(g[|h| + i]);
    }
    if i :| 0 <= i < |g| && Breaks(g[i]) {
      assert Breaks(if i < |h| then h[i] else more[i - |h|]);
    }
  }

  lemma BrokenOne(e: Event)
    ensures Broken([e]) <==> Breaks(e)
    ensures !Broken([])
  {
    assert [e][0] == e;
  }

  /** The flag remembers exactly the breaks. */
  ghost predicate Recalls(p: Pairing, h: seq<Event>) {
    p.incomplete <==> Broken(h)
  }

  // ---- one record

  /** The statement was cut short, its text cannot be read, or nothing of it can be shown. */
  predicate Unreadable(g: Grammar, sql: Bytes) {
    sql != [] && (
      || Describe.HasTerminalEllipsis(g.u, sql)
      || !Describe.Analyze(g.u, sql, 0, 0, false).valid
      || (TrimSpace(sql) != [] && Describe.Analyze(g.u, sql, 0, 0, false).text == ""))
  }

  lemma TextMarks(g: Grammar, e: Event, sql: Bytes)
    ensures var f := WithSql(g, e, sql);
      && (f.incomplete <==> e.incomplete || Unreadable(g, sql))
      && f.kind == e.kind && f.phase == e.phase && f.sequence == e.sequence && f.parent == e.parent
      && f.correlation == e.correlation && f.Scope() == e.Scope()
  {
    hide Describe.Analyze, Describe.HasTerminalEllipsis, ByteText.TrimSpace, EncodeAll;
  }

  /** Pairing marks a record that something broke before, that cannot be matched, or that starts too deep. */
  lemma PairMarks(p: Pairing, e: Event, h: seq<Event>)
    requires Unpaired(p, e) && Recalls(p, h) && !p.overflow
    ensures var (q, f) := Pair(p, e);
      && (f.incomplete <==>
            e.incomplete || (f.IsExecution() && (Broken(h) || f.correlation == Unmatched || q.overflow)))
      && (q.overflow <==> e.IsExecution() && Identified(e) && e.phase == Phase.Start && TooDeep(p, e.Scope()))
      && (q.incomplete <==> Broken(h) || Breaks(f) || q.overflow)
      && f.kind == e.kind
  {
    hide Broken, TooDeep;
  }

  /**
   * A record leaves the parser incomplete exactly when one of its own lines made it so, its text was cut short or
   * cannot be read or shown, or when it is an execution and something broke before it, its end has no matching start,
   * or its start does not fit the stacks.
   */
  lemma IncompleteExactlyWhen(g: Grammar, s: Reader, h: seq<Event>)
    requires Ok(s, h) && Recalls(s.pairing, h) && s.current.Some?
    ensures var (t, e) := Finished(g, s);
      e.value.incomplete <==>
        || s.current.value.incomplete || Unreadable(g, s.sql)
        || (e.value.IsExecution() && (Broken(h) || e.value.correlation == Unmatched || t.pairing.overflow))
  {
    hide Safe, PlanOk, WithSql, Pair, PlansOk, Unreadable, Broken;
    TextMarks(g, s.current.value, s.sql);
    PairMarks(s.pairing, WithSql(g, s.current.value, s.sql), h);
  }

  /** finish recalls, once the overflow that it may leave is reported. */
  lemma FinishedRecalls(g: Grammar, s: Reader, h: seq<Event>, f: Event)
    requires Ok(s, h) && Recalls(s.pairing, h) && s.current.Some? && Dimmed(Finished(g, s).1.value, f)
    ensures var q := Finished(g, s).0.pairing; q.incomplete <==> Broken(h + [f]) || q.overflow
  {
    hide Safe, PlanOk, WithSql, Pair, PlansOk, Broken;
    TextMarks(g, s.current.value, s.sql);
    PairMarks(s.pairing, WithSql(g, s.current.value, s.sql), h);
    BrokenAppend(h, [f]);
    BrokenOne(f);
  }

  lemma LostRecalls(s: Reader, h: seq<Event>, more: seq<Event>, e: Event)
    requires e.kind == Gap
    ensures Recalls(Lost(s).pairing, h + (more + [e])) && Recalls(Lost(s).pairing, h + [e])
  {
    assert h + (more + [e]) == h + more + [e];
    hide Broken;
    BrokenOne(e);
    BrokenAppend(h + more, [e]);
    BrokenAppend(h, [e]);
  }

  lemma ClosedRecalls(g: Grammar, s: Reader, h: seq<Event>)
    requires Ok(s, h) && Recalls(s.pairing, h)
    ensures Recalls(Closed(g, s).0.pairing, h + Closed(g, s).1)
  {
    hide Safe, PlanOk, WithSql, Pair, PlansOk, Broken, Lost;
    assert h + [] == h;
    if s.current.Some? {
      var (t, e) := Finished(g, s);
      FinishedRecalls(g, s, h, e.value);
      LostRecalls(t.(pairing := t.pairing.(overflow := false)), h, [e.value], GAP);
    }
  }

  lemma HeaderRecalls(g: Grammar, s: Reader, h: seq<Event>, header: Header)
    requires Ok(s, h) && Recalls(s.pairing, h)
    ensures Recalls(HeaderLine(g, s, header).0.pairing, h + HeaderLine(g, s, header).1)
  {
    hide Ok, Closed, KindOf, ByteText.TrimSpace, Recalls, Lost, UNSUPPORTED_EVENT, INVALID_TIMESTAMP;
    ClosedRecalls(g, s, h);
    var (t, out) := Closed(g, s);
    LostRecalls(t, h, out, GAP.(name := UNSUPPORTED_EVENT));
    LostRecalls(t, h, out, GAP.(name := INVALID_TIMESTAMP));
  }

  /** A record that begins is incomplete exactly when something broke before. */
  lemma NewRecordRecalls(g: Grammar, s: Reader, h: seq<Event>, header: Header)
    requires Ok(s, h) && Recalls(s.pairing, h) && HeaderLine(g, s, header).0.current.Some?
    ensures var (t, out) := HeaderLine(g, s, header); t.current.value.incomplete <==> Broken(h + out)
  {
    hide Ok, Closed, KindOf, ByteText.TrimSpace, Broken, UNSUPPORTED_EVENT, INVALID_TIMESTAMP;
    ClosedRecalls(g, s, h);
  }

  lemma RecordLineRecalls(g: Grammar, s: Reader, h: seq<Event>, line: Bytes)
    requires Ok(s, h) && Recalls(s.pairing, h)
    ensures Recalls(RecordLine(g, s, line).0.pairing, h + RecordLine(g, s, line).1)
  {
    hide Safe, PlanOk, PlansOk, BodyLine, HeaderLine, Recalls, Lost, Broken;
    assert h + [] == h;
    if g.header(line).Some? {
      HeaderRecalls(g, s, h, g.header(line).value);
    } else if s.current.Some? {
      var t := s.(recordBytes := s.recordBytes + |line| + 1);
      LostRecalls(t, h, [], GAP);
      BodyKeeps(g, t, s.current.value, line);
    }
  }

  lemma LineRecalls(g: Grammar, s: Reader, h: seq<Event>, line: Bytes)
    requires Ok(s, h) && Recalls(s.pairing, h)
    ensures Recalls(Consume(g, s, line).0.pairing, h + Consume(g, s, line).1)
  {
    hide Safe, PlanOk, PlansOk, RecordLine, EndsSql, Recalls, Lost, Broken;
    assert h + [] == h;
    if s.collectSQL && !EndsSql(g, s, line) {
      LostRecalls(s.(recordBytes := s.recordBytes + |line| + 1), h, [], GAP);
    } else {
      RecordLineRecalls(g, if s.collectSQL then s.(collectSQL := false, sqlSeparated := false) else s, h, line);
    }
  }

  // ---- whole operations

  ghost predicate Remembers(s: State, h: seq<Event>) {
    ParserOk(s, h) && Recalls(s.reader.pairing, h)
  }

  lemma PieceRemembers(s: State, h: seq<Event>, piece: Bytes)
    requires Remembers(s, h)
    ensures Remembers(Piece(s, piece).0, h + Piece(s, piece).1)
  {
    hide ParserOk, Recalls, Lost;
    assert h + [] == h;
    PieceKeepsOk(s, h, piece);
    LostRecalls(s.reader, h, [], GAP);
  }

  lemma EndLineRemembers(g: Grammar, s: State, h: seq<Event>)
    requires Remembers(s, h)
    ensures Remembers(EndLine(g, s).0, h + EndLine(g, s).1)
  {
    hide Ok, Recalls, Consume;
    assert h + [] == h;
    EndLineKeepsOk(g, s, h);
    LineRecalls(g, s.reader, h, TrimReturn(s.line));
  }

  /** Whatever is fed, the parser remembers exactly whether something broke. */
  lemma {:induction false} FeedRemembers(g: Grammar, s: State, h: seq<Event>, chunk: Bytes)
    requires Remembers(s, h)
    ensures Remembers(Feed(g, s, chunk).0, h + Feed(g, s, chunk).1)
    decreases |chunk|
  {
    hide Remembers, Piece, EndLine;
    Append3(h, [], []);
    if chunk != [] {
      var n := LineLength(chunk);
      var (t, first) := Piece(s, chunk[..n]);
      PieceRemembers(s, h, chunk[..n]);
      if n < |chunk| {
        var (v, second) := EndLine(g, t);
        EndLineRemembers(g, t, h + first);
        FeedRemembers(g, v, h + first + second, chunk[n + 1..]);
        Append3(h, first, second);
        Append3(h, first + second, Feed(g, v, chunk[n + 1..]).1);
      }
    }
  }

  lemma ReleaseRemembers(g: Grammar, s: State, h: seq<Event>)
    requires Remembers(s, h)
    ensures Remembers(FlushFinished(g, s).0, h + FlushFinished(g, s).1)
  {
    hide Ok, Recalls, ReleaseFinished;
    assert h + [] == h;
    FlushFinishedKeepsOk(g, s, h);
    ReleasedRecalls(g, s.reader, h);
  }

  lemma ReleasedRecalls(g: Grammar, s: Reader, h: seq<Event>)
    requires Ok(s, h) && Recalls(s.pairing, h)
    ensures Recalls(ReleaseFinished(g, s).0.pairing, h + ReleaseFinished(g, s).1)
  {
    hide Safe, PlanOk, PlansOk, Broken, Lost, WithSql, Pair;
    assert h + [] == h;
    if s.current.Some? {
      var (t, e) := Finished(g, s);
      var f := e.value.(incomplete := true);
      FinishedRecalls(g, s, h, e.value);
      FinishedRecalls(g, s, h, f);
      InitFits(g, s);
      LostRecalls(t.(pairing := t.pairing.(overflow := false)), h, [f], GAP);
    }
  }

  /** The record of a session needs no stack. */
  lemma InitFits(g: Grammar, s: Reader)
    requires s.current.Some? && !s.pairing.overflow
    ensures s.current.value.kind == Lifecycle ==> !Finished(g, s).0.pairing.overflow
  {
    hide WithSql;
    TextMarks(g, s.current.value, s.sql);
  }

  lemma FlushRecalls(g: Grammar, s: Reader, h: seq<Event>)
    requires Ok(s, h) && Recalls(s.pairing, h)
    ensures Recalls(FlushRecord(g, s).0.pairing, h + FlushRecord(g, s).1)
  {
    hide Safe, PlanOk, PlansOk, Broken, Lost, WithSql, Pair;
    assert h + [] == h && [] + [GAP] == [GAP];
    if s.current.None? {
      LostRecalls(s, h, [], GAP);
    } else {
      var (v, e) := Finished(g, s);
      var f :=
        if e.value.kind == Lifecycle && e.value.phase == TraceFini then e.value else e.value.(incomplete := true);
      FinishedRecalls(g, s, h, f);
      var clean := v.(pairing := v.pairing.(overflow := false));
      LostRecalls(clean, h, [f], GAP);
      LostRecalls(Lost(clean), h, [f] + [GAP], GAP);
      LostRecalls(v, h, [f], GAP);
    }
  }

  lemma FlushRemembers(g: Grammar, s: State, h: seq<Event>)
    requires Remembers(s, h)
    ensures Remembers(Flush(g, s).0, h + Flush(g, s).1)
  {
    hide Ok, Recalls, Consume, FlushRecord;
    assert h + [] == h;
    FlushKeepsOk(g, s, h);
    var (r, first) := if s.line != [] && !s.skipLine then Consume(g, s.reader, s.line) else (s.reader, []);
    LineRecalls(g, s.reader, h, s.line);
    ConsumeKeepsOk(g, s.reader, h, s.line);
    FlushRecalls(g, r, h + first);
    Append3(h, first, FlushRecord(g, r).1);
  }

  lemma StartRemembers()
    ensures Remembers(START, [])
  {
    StartOk();
    BrokenOne(GAP);
  }
}
