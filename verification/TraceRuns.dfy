/** What every run of the parser keeps, whatever bytes it is fed. */
module TraceRuns {
  import opened Options
  import opened Utf8
  import opened ByteText
  import Describe = SqlDescribe
  import opened TraceEvents
  import opened TracePairing
  import opened TraceMachine

  ghost predicate PlanOk(plan: Bytes) {
    Valid(plan) && |plan| <= Describe.MAX_OUTPUT
  }

  /** A record being read: not paired yet, and never less incomplete than what came before it. */
  ghost predicate RecordOk(p: Pairing, e: Event) {
    Unpaired(p, e) && PlanOk(e.plan)
  }

  ghost predicate ReaderOk(s: Reader) {
    && |s.sql| <= MAX_RECORD && !s.pairing.overflow
    && (s.sql != [] || s.collectSQL ==> s.current.Some?)
    && (s.current.Some? ==> RecordOk(s.pairing, s.current.value))
  }

  /** The reader and everything emitted so far. */
  ghost predicate Ok(s: Reader, h: seq<Event>) {
    ReaderOk(s) && Safe(s.pairing, h) && PlansOk(h)
  }

  /** The record goes on: its identity for pairing stays open and it can only become incomplete. */
  ghost predicate Evolves(e: Event, f: Event) {
    && f.kind == e.kind && f.phase == e.phase && f.sequence == e.sequence && f.parent == e.parent
    && f.correlation == e.correlation && (e.incomplete ==> f.incomplete) && PlanOk(f.plan)
  }

  /** The state is still reading that record, with the same stacks and the same staged SQL. */
  ghost predicate Keeps(s: Reader, e: Event, t: Reader) {
    && t.current.Some? && Evolves(e, t.current.value)
    && t.pairing == s.pairing && t.sql == s.sql
  }

  // ---- plans

  lemma TextIsValid(g: Grammar, sql: Bytes, inputLimit: int, outputLimit: int, dialect3: bool)
    ensures var d := Describe.Analyze(g.u, sql, inputLimit, outputLimit, dialect3);
      Valid(EncodeAll(d.text)) && |EncodeAll(d.text)| <= Describe.MAX_OUTPUT
  {
    hide Describe.Target, Describe.ObjectName, Describe.StartOf, Describe.IsUpsert, Describe.OperationName;
    hide Describe.Print;
    var d := Describe.Analyze(g.u, sql, inputLimit, outputLimit, dialect3);
    DecodeOfEncode(d.text);
  }

  lemma NewlineIsValid()
    ensures Valid([NEWLINE])
  {
  }

  lemma JoinPlan(plan: Bytes, more: Bytes)
    requires Valid(plan) && Valid(more)
    ensures Valid(plan + [NEWLINE] + more)
  {
    hide Valid;
    NewlineIsValid();
    ValidAppend(plan, [NEWLINE]);
    ValidAppend(plan + [NEWLINE], more);
  }

  lemma {:induction false} AsciiIsValid(s: Bytes)
    requires forall i :: 0 <= i < |s| ==> s[i] < 0x80
    ensures Valid(s)
  {
    if s != [] {
      AsciiIsValid(s[1..]);
    }
  }

  lemma SafeLineIsValid(g: Grammar, line: Bytes, root: bool)
    requires SafePlanLine(g, line, root)
    ensures Valid(line)
  {
    hide Valid, Describe.Analyze, KnownExplainedNode, ForbiddenInPlan;
    if root {
      AsciiIsValid(line);
    } else {
      var n := Indent(line) + 3;
      AnalyzedIsValid(g, line[n..]);
      var arrow := line[Indent(line)..][..3];
      assert forall i :: 0 <= i < n ==> line[..n][i] == line[i];
      assert forall i :: Indent(line) <= i < n ==> line[i] == arrow[i - Indent(line)];
      AsciiIsValid(line[..n]);
      ValidAppend(line[..n], line[n..]);
      assert line[..n] + line[n..] == line;
    }
  }

  lemma AnalyzedIsValid(g: Grammar, sql: Bytes)
    requires Describe.Analyze(g.u, sql, 512, 512, true).valid
    ensures Valid(sql)
  {
  }

  // ---- one line

  lemma ClassicEvolves(g: Grammar, e: Event, trim: Bytes)
    requires PlanOk(e.plan)
    ensures Evolves(e, ClassicPlanLine(g, e, trim))
  {
    hide Describe.Analyze, Valid;
    var d := Describe.Analyze(g.u, trim, 0, 0, false);
    TextIsValid(g, trim, 0, 0, false);
    JoinPlan(e.plan, EncodeAll(d.text));
  }

  lemma NoPlanIsValid()
    ensures Valid([])
  {
  }

  lemma ExplainedEvolves(g: Grammar, s: Reader, e: Event, line: Bytes)
    requires PlanOk(e.plan)
    ensures Keeps(s, e, ExplainedPlanLine(g, s, e, line))
  {
    hide SafePlanLine, Valid;
    NoPlanIsValid();
    if SafePlanLine(g, line, e.plan == []) {
      SafeLineIsValid(g, line, e.plan == []);
      JoinPlan(e.plan, line);
    }
  }

  lemma {:induction false} CountersEvolve(e: Event, values: seq<(Counter, nat)>)
    requires PlanOk(e.plan)
    ensures Evolves(e, SetCounters(e, values))
  {
    hide PlanOk;
    if values != [] {
      CountersEvolve(e, values[..|values| - 1]);
    }
  }

  function CounterOf(e: Event, c: Counter): nat {
    match c
    case Milliseconds => e.durationMS
    case PagesRead => e.pageReads
    case PagesWritten => e.pageWrites
    case PagesFetched => e.pageFetches
    case PagesMarked => e.pageMarks
  }

  /** The last value a performance line gives for a counter. */
  function LastValue(values: seq<(Counter, nat)>, c: Counter, otherwise: nat): nat {
    if values == [] then otherwise
    else if values[|values| - 1].0 == c then values[|values| - 1].1
    else LastValue(values[..|values| - 1], c, otherwise)
  }

  /** Each counter is what the line says last about it, and stays what it was when the line says nothing. */
  lemma {:induction false} CountersAreRead(e: Event, values: seq<(Counter, nat)>, c: Counter)
    ensures CounterOf(SetCounters(e, values), c) == LastValue(values, c, CounterOf(e, c))
  {
    if values != [] {
      CountersAreRead(e, values[..|values| - 1], c);
    }
  }

  lemma MetadataKeeps(g: Grammar, s: Reader, e: Event, line: Bytes)
    requires PlanOk(e.plan) && MetadataLine(g, s, e, line).Some?
    ensures Keeps(s, e, MetadataLine(g, s, e, line).value)
  {
    hide PlanOk, Ascii, ByteText.TrimSpace, Describe.Identifier, HasPrefix, Label, TrimColon;
  }

  lemma SectionKeeps(g: Grammar, s: Reader, e: Event, line: Bytes)
    requires PlanOk(e.plan) && s.current == Some(e)
    ensures Keeps(s, e, SectionLine(g, s, e, line))
  {
    hide PlanOk, Ascii, ByteText.TrimSpace, HasPrefix, SetCounters;
    CountersEvolve(e, g.counters(TrimSpace(line)));
  }

  /** A line of a record changes neither the stacks nor the staged SQL, and the record evolves. */
  lemma BodyKeeps(g: Grammar, s: Reader, e: Event, line: Bytes)
    requires PlanOk(e.plan) && s.current == Some(e)
    ensures Keeps(s, e, BodyLine(g, s, e, line))
  {
    hide PlanOk, Ascii, ByteText.TrimSpace, HasPrefix, MetadataLine, SectionLine, ExplainedPlanLine, ClassicPlanLine;
    if MetadataLine(g, s, e, line).Some? {
      MetadataKeeps(g, s, e, line);
    } else {
      ClassicEvolves(g, e, TrimSpace(line));
      ExplainedEvolves(g, s, e, line);
      SectionKeeps(g, s, e, line);
    }
  }

  // ---- whole operations

  lemma Append3<T>(h: seq<T>, a: seq<T>, b: seq<T>)
    ensures h + (a + b) == h + a + b && h + [] == h
  {
  }

  lemma SqlEvolves(g: Grammar, e: Event, sql: Bytes)
    requires PlanOk(e.plan)
    ensures Evolves(e, WithSql(g, e, sql))
  {
    hide Describe.Analyze, Describe.HasTerminalEllipsis, ByteText.TrimSpace, EncodeAll, PlanOk;
  }

  lemma PairKeepsPlan(p: Pairing, e: Event)
    ensures Pair(p, e).1.plan == e.plan && Pair(p, e).1.kind == e.kind
  {
  }

  ghost predicate Dimmed(e: Event, f: Event) {
    f == e.(incomplete := f.incomplete) && (e.incomplete ==> f.incomplete)
  }

  /** finish emits a record that fits the history, also when its caller marks it incomplete. */
  lemma FinishKeeps(g: Grammar, s: Reader, h: seq<Event>, f: Event)
    requires Ok(s, h) && s.current.Some? && Dimmed(Finished(g, s).1.value, f)
    ensures Safe(Finished(g, s).0.pairing, h + [f]) && PlanOk(f.plan)
  {
    hide PlanOk, Safe, WithSql, Pair;
    var e := WithSql(g, s.current.value, s.sql);
    SqlEvolves(g, s.current.value, s.sql);
    PairKeepsPlan(s.pairing, e);
    PairKeepsSafe(s.pairing, h, e, f);
  }

  lemma LostKeeps(s: Reader, h: seq<Event>, e: Event)
    requires Safe(s.pairing, h) && e == GAP.(name := e.name)
    ensures Safe(Lost(s).pairing, h + [e]) && PlanOk(e.plan)
  {
    hide Safe;
    NoPlanIsValid();
    AppendGap(s.pairing, h, e);
  }

  lemma SafeIgnoresOverflow(p: Pairing, h: seq<Event>, overflow: bool)
    requires Safe(p, h)
    ensures Safe(p.(overflow := overflow), h)
  {
    hide WellPaired, StackOf, Open, OnStack, Starts, ChildrenFinishFirst, AlwaysNested, ParentsOpen, Phased;
  }

  /** Every plan that was emitted can be cut into parts. */
  ghost predicate PlansOk(h: seq<Event>) {
    forall i :: 0 <= i < |h| ==> PlanOk(h[i].plan)
  }

  lemma PlansAppend(h: seq<Event>, e: Event)
    requires PlansOk(h) && PlanOk(e.plan)
    ensures PlansOk(h + [e])
  {
    hide PlanOk;
  }

  lemma GapKeepsOk(s: Reader, h: seq<Event>, e: Event)
    requires Safe(s.pairing, h) && PlansOk(h) && !s.pairing.overflow
    requires e == GAP.(name := e.name)
    ensures Ok(Lost(s), h + [e])
  {
    hide Safe, PlanOk;
    LostKeeps(s, h, e);
    PlansAppend(h, e);
  }

  lemma ClosedKeepsOk(g: Grammar, s: Reader, h: seq<Event>)
    requires Ok(s, h)
    ensures Ok(Closed(g, s).0, h + Closed(g, s).1)
    ensures Closed(g, s).0.current.None? && Closed(g, s).0.sql == [] && !Closed(g, s).0.collectSQL
  {
    hide Safe, PlanOk, Pair, WithSql;
    if s.current.None? {
      Append3(h, [], []);
    } else {
      var (t, e) := Finished(g, s);
      FinishKeeps(g, s, h, e.value);
      PlansAppend(h, e.value);
      if t.pairing.overflow {
        SafeIgnoresOverflow(t.pairing, h + [e.value], false);
        GapKeepsOk(t.(pairing := t.pairing.(overflow := false)), h + [e.value], GAP);
        Append3(h, [e.value], [GAP]);
      }
    }
  }

  lemma HeaderKeepsOk(g: Grammar, s: Reader, h: seq<Event>, header: Header)
    requires Ok(s, h)
    ensures Ok(HeaderLine(g, s, header).0, h + HeaderLine(g, s, header).1)
  {
    hide Safe, PlanOk, Closed, KindOf, ByteText.TrimSpace;
    var (t, out) := Closed(g, s);
    ClosedKeepsOk(g, s, h);
    var kind := KindOf(TrimSpace(header.event));
    if kind.None? {
      GapKeepsOk(t, h + out, GAP.(name := UNSUPPORTED_EVENT));
      Append3(h, out, [GAP.(name := UNSUPPORTED_EVENT)]);
    } else if !g.validTime(header.timestamp) {
      GapKeepsOk(t, h + out, GAP.(name := INVALID_TIMESTAMP));
      Append3(h, out, [GAP.(name := INVALID_TIMESTAMP)]);
    } else {
      KindIsRecord(TrimSpace(header.event));
      NewRecordOk(t.pairing, kind.value.0, kind.value.1, header.timestamp);
    }
  }

  lemma KindIsRecord(event: Bytes)
    ensures KindOf(event).Some? ==>
      var (kind, phase) := KindOf(event).value;
      kind != Kind.Gap && (kind != Lifecycle ==> phase == Phase.Start || phase == Finish)
  {
  }

  lemma NewRecordOk(p: Pairing, kind: Kind, phase: Phase, timestamp: Bytes)
    requires kind != Kind.Gap && (kind != Lifecycle ==> phase == Phase.Start || phase == Finish)
    ensures RecordOk(p, NewRecord(kind, phase, timestamp, p.incomplete))
  {
  }

  lemma BodyKeepsOk(g: Grammar, s: Reader, h: seq<Event>, line: Bytes)
    requires Ok(s, h) && s.current.Some?
    ensures Ok(BodyLine(g, s, s.current.value, line), h)
  {
    hide Safe, PlanOk, BodyLine;
    BodyKeeps(g, s, s.current.value, line);
  }

  lemma RecordLineKeepsOk(g: Grammar, s: Reader, h: seq<Event>, line: Bytes)
    requires Ok(s, h)
    ensures Ok(RecordLine(g, s, line).0, h + RecordLine(g, s, line).1)
  {
    hide Safe, PlanOk, BodyLine, HeaderLine;
    Append3(h, [], []);
    var t := s.(recordBytes := s.recordBytes + |line| + 1);
    if g.header(line).Some? {
      HeaderKeepsOk(g, s, h, g.header(line).value);
    } else if s.current.Some? {
      GapKeepsOk(t, h, GAP);
      BodyKeepsOk(g, t, h, line);
    }
  }

  /** Every complete line keeps the bounds, the pairing and the plans. */
  lemma ConsumeKeepsOk(g: Grammar, s: Reader, h: seq<Event>, line: Bytes)
    requires Ok(s, h)
    ensures Ok(Consume(g, s, line).0, h + Consume(g, s, line).1)
  {
    hide Safe, PlanOk, RecordLine, EndsSql;
    Append3(h, [], []);
    if s.collectSQL && !EndsSql(g, s, line) {
      GapKeepsOk(s.(recordBytes := s.recordBytes + |line| + 1), h, GAP);
    } else {
      RecordLineKeepsOk(g, if s.collectSQL then s.(collectSQL := false, sqlSeparated := false) else s, h, line);
    }
  }

  /** The parser keeps its buffers within the record bound. */
  ghost predicate ParserOk(s: State, h: seq<Event>) {
    |s.line| <= MAX_RECORD && Ok(s.reader, h)
  }

  lemma PieceKeepsOk(s: State, h: seq<Event>, piece: Bytes)
    requires ParserOk(s, h)
    ensures ParserOk(Piece(s, piece).0, h + Piece(s, piece).1)
  {
    hide Safe, PlanOk;
    Append3(h, [], []);
    GapKeepsOk(s.reader, h, GAP);
  }

  lemma EndLineKeepsOk(g: Grammar, s: State, h: seq<Event>)
    requires ParserOk(s, h)
    ensures ParserOk(EndLine(g, s).0, h + EndLine(g, s).1)
  {
    hide Safe, PlanOk, Consume;
    Append3(h, [], []);
    ConsumeKeepsOk(g, s.reader, h, TrimReturn(s.line));
  }

  /** Whatever a chunk holds, the history stays well paired and the buffers stay within the record bound. */
  lemma {:induction false} FeedKeepsOk(g: Grammar, s: State, h: seq<Event>, chunk: Bytes)
    requires ParserOk(s, h)
    ensures ParserOk(Feed(g, s, chunk).0, h + Feed(g, s, chunk).1)
    decreases |chunk|
  {
    hide ParserOk, Piece, EndLine;
    Append3(h, [], []);
    if chunk != [] {
      var n := LineLength(chunk);
      var (t, first) := Piece(s, chunk[..n]);
      PieceKeepsOk(s, h, chunk[..n]);
      if n < |chunk| {
        var (v, second) := EndLine(g, t);
        EndLineKeepsOk(g, t, h + first);
        FeedKeepsOk(g, v, h + first + second, chunk[n + 1..]);
        Append3(h, first, second);
        Append3(h, first + second, Feed(g, v, chunk[n + 1..]).1);
      }
    }
  }

  /** The record a flush releases, marked incomplete unless it is the end of the trace. */
  lemma FlushedKeepsOk(g: Grammar, s: Reader, h: seq<Event>, f: Event)
    requires Ok(s, h) && s.current.Some? && Dimmed(Finished(g, s).1.value, f)
    ensures var t := Finished(g, s).0; var clean := t.(pairing := t.pairing.(overflow := false));
      Ok(clean, h + [f]) && Ok(Lost(clean), h + [f] + [GAP])
  {
    hide Safe, PlanOk, Pair, WithSql;
    var t := Finished(g, s).0;
    FinishKeeps(g, s, h, f);
    PlansAppend(h, f);
    SafeIgnoresOverflow(t.pairing, h + [f], false);
    GapKeepsOk(t.(pairing := t.pairing.(overflow := false)), h + [f], GAP);
  }

  lemma ReleaseKeepsOk(g: Grammar, s: Reader, h: seq<Event>)
    requires Ok(s, h)
    ensures Ok(ReleaseFinished(g, s).0, h + ReleaseFinished(g, s).1)
  {
    hide Safe, PlanOk, WithSql, PushStart, PopFinish;
    Append3(h, [], []);
    if s.current.Some? {
      SqlEvolves(g, s.current.value, s.sql);
      var (t, e) := Finished(g, s);
      var f := e.value.(incomplete := true);
      FlushedKeepsOk(g, s, h, f);
      FlushedKeepsOk(g, s, h, e.value);
      Append3(h, [f], [GAP]);
    }
  }

  lemma FlushFinishedKeepsOk(g: Grammar, s: State, h: seq<Event>)
    requires ParserOk(s, h)
    ensures ParserOk(FlushFinished(g, s).0, h + FlushFinished(g, s).1)
  {
    hide Ok, ReleaseFinished;
    Append3(h, [], []);
    ReleaseKeepsOk(g, s.reader, h);
  }

  lemma FlushRecordKeepsOk(g: Grammar, s: Reader, h: seq<Event>)
    requires Ok(s, h)
    ensures Ok(FlushRecord(g, s).0, h + FlushRecord(g, s).1)
  {
    hide Safe, PlanOk, Pair, WithSql;
    Append3(h, [], []);
    assert [] + [GAP] == [GAP];
    if s.current.None? {
      GapKeepsOk(s, h, GAP);
    } else {
      var (v, e) := Finished(g, s);
      var f :=
        if e.value.kind == Lifecycle && e.value.phase == TraceFini then e.value else e.value.(incomplete := true);
      FlushedKeepsOk(g, s, h, f);
      var clean := v.(pairing := v.pairing.(overflow := false));
      GapKeepsOk(clean, h + [f], GAP);
      Append3(h, [f], [GAP]);
    }
  }

  lemma FlushKeepsOk(g: Grammar, s: State, h: seq<Event>)
    requires ParserOk(s, h)
    ensures ParserOk(Flush(g, s).0, h + Flush(g, s).1)
  {
    hide Ok, Consume, FlushRecord;
    Append3(h, [], []);
    var (r, first) := if s.line != [] && !s.skipLine then Consume(g, s.reader, s.line) else (s.reader, []);
    ConsumeKeepsOk(g, s.reader, h, s.line);
    FlushRecordKeepsOk(g, r, h + first);
    Append3(h, first, FlushRecord(g, r).1);
  }

  lemma StartOk()
    ensures ParserOk(START, [])
  {
  }
}
