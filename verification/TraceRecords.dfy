/** What the lines of one record say about it, and where that comes from (internal/traceparse/parser.go, consume). */
module TraceRecords {
  import opened Options
  import opened Utf8
  import opened ByteText
  import opened SqlScan
  import Describe = SqlDescribe
  import Names = SqlNames
  import RoundTrip = SqlRoundTrip
  import Rows = CounterRow
  import opened TraceEvents
  import opened TracePairing
  import opened TraceMachine
  import opened TraceStatements

  // ---- identity lines

  /**
   * Reading goes on with the same record. Attachment and transaction are never read twice, and no transaction is read
   * before an attachment. Statement and name are read while the identity lines last, and the line that gives them is
   * the last of these.
   */
  ghost predicate ReadsOn(r: Reader, t: Reader) {
    && r.current.Some? && t.current.Some?
    && var e, f := r.current.value, t.current.value;
       && f.kind == e.kind && f.phase == e.phase && f.timestamp == e.timestamp
       && (e.attachment != 0 ==> f.attachment == e.attachment)
       && (e.transaction != 0 ==> f.transaction == e.transaction)
       && (f.transaction != e.transaction ==> f.attachment != 0)
       && (f.statement != e.statement ==> e.kind == Statement)
       && (f.name != e.name ==> Label(e.kind).Some?)
       && (t.metadataHeader ==> r.metadataHeader && f.statement == e.statement && f.name == e.name)
       && (!r.metadataHeader ==>
             && f.attachment == e.attachment && f.transaction == e.transaction
             && f.statement == e.statement && f.name == e.name)
  }

  lemma ReadsOnFurther(r: Reader, s: Reader, t: Reader)
    requires ReadsOn(r, s) && ReadsOn(s, t)
    ensures ReadsOn(r, t)
  {
  }

  lemma OnlyTheName(g: Grammar, e: Event, rest: Bytes)
    ensures var f := NameLine(g, e, rest); f == e.(name := f.name, incomplete := f.incomplete)
  {
    hide Describe.Identifier;
  }

  lemma MetadataReadsOn(g: Grammar, r: Reader, e: Event, line: Bytes)
    requires r.current == Some(e) && MetadataLine(g, r, e, line).Some?
    ensures ReadsOn(r, MetadataLine(g, r, e, line).value)
  {
    hide Ascii, ByteText.TrimSpace, NameLine;
    var trim := TrimSpace(line);
    if Label(e.kind).Some? && HasPrefix(trim, Label(e.kind).value) {
      OnlyTheName(g, e, trim[|Label(e.kind).value|..]);
    }
  }

  lemma SectionReadsOn(g: Grammar, r: Reader, e: Event, line: Bytes)
    requires r.current == Some(e)
    ensures ReadsOn(r, SectionLine(g, r, e, line))
  {
    hide Ascii, ByteText.TrimSpace, HasPrefix, SetCounters, Rows.ReadRow;
    CountersContinue(e, g.counters(TrimSpace(line)));
  }

  lemma PlanReadsOn(g: Grammar, r: Reader, e: Event, line: Bytes, trim: Bytes)
    requires r.current == Some(e)
    ensures ReadsOn(r, ExplainedPlanLine(g, r, e, line)) && ReadsOn(r, r.(current := Some(ClassicPlanLine(g, e, trim))))
  {
    hide SafePlanLine, Describe.Analyze;
  }

  /** Marks that are neither text nor identity. */
  lemma MarksReadOn(r: Reader)
    requires r.current.Some?
    ensures ReadsOn(r, r.(collectSQL := true, sqlSeparated := false, metadataHeader := false))
    ensures ReadsOn(r, r.(planSection := true)) && ReadsOn(r, r.(planSection := false))
  {
  }

  lemma BodyReadsOn(g: Grammar, r: Reader, e: Event, line: Bytes)
    requires r.current == Some(e)
    ensures ReadsOn(r, BodyLine(g, r, e, line))
  {
    hide Ascii, ByteText.TrimSpace, HasPrefix, MetadataLine, SectionLine, ExplainedPlanLine, ClassicPlanLine, ReadsOn;
    if MetadataLine(g, r, e, line).Some? {
      MetadataReadsOn(g, r, e, line);
    } else {
      MarksReadOn(r);
      PlanReadsOn(g, r, e, line, TrimSpace(line));
      SectionReadsOn(g, r, e, line);
    }
  }

  lemma HeaderEmits(g: Grammar, r: Reader, h: Header)
    requires r.current.Some?
    ensures HeaderLine(g, r, h).1 != []
  {
    hide Pair, WithSql, KindOf, ByteText.TrimSpace;
  }

  /** A line that emits nothing belongs to the record being read. */
  lemma LineReadsOn(g: Grammar, r: Reader, line: Bytes)
    requires r.current.Some? && Consume(g, r, line).1 == []
    ensures ReadsOn(r, Consume(g, r, line).0)
  {
    hide EndsSql, BodyLine, Finished, KindOf;
    var e := r.current.value;
    if !r.collectSQL || EndsSql(g, r, line) {
      var s := (if r.collectSQL then r.(collectSQL := false, sqlSeparated := false) else r);
      if g.header(line).None? {
        BodyReadsOn(g, s.(recordBytes := s.recordBytes + |line| + 1), e, line);
      } else {
        HeaderEmits(g, s, g.header(line).value);
      }
    }
  }

  /** The identity of a record is read once and in order, over all of its lines. */
  lemma {:induction false} IdentityIsReadOnce(g: Grammar, r: Reader, lines: seq<Bytes>)
    requires r.current.Some? && ConsumeAll(g, r, lines).1 == []
    ensures ReadsOn(r, ConsumeAll(g, r, lines).0)
    decreases |lines|
  {
    hide Consume;
    if lines != [] {
      LineReadsOn(g, r, lines[0]);
      var s := Consume(g, r, lines[0]).0;
      IdentityIsReadOnce(g, s, lines[1..]);
      ReadsOnFurther(r, s, ConsumeAll(g, s, lines[1..]).0);
    }
  }

  // ---- where explained plans and tables come from

  function PlanText(lines: seq<Bytes>): Bytes
    requires lines != []
  {
    if |lines| == 1 then lines[0] else PlanText(lines[..|lines| - 1]) + [NEWLINE] + lines[|lines| - 1]
  }

  /** The root line, and under it only lines that were found safe one by one. */
  ghost predicate PlanTree(g: Grammar, lines: seq<Bytes>) {
    && lines != [] && lines[0] == Ascii("Select Expression")
    && forall i :: 0 < i < |lines| ==> SafePlanLine(g, lines[i], false)
  }

  ghost predicate ExplainedPlan(g: Grammar, plan: Bytes) {
    exists lines :: PlanTree(g, lines) && plan == PlanText(lines)
  }

  /** The table is what a counter row says, its name column at least as wide as the header of the section showed. */
  ghost predicate RowOf(g: Grammar, t: Table, line: Bytes, width: nat) {
    && 32 <= width && width + 80 <= |line|
    && Rows.ReadRow(line, width, g.control).Some?
    && t == Table(Rows.ReadRow(line, width, g.control).value.name, Rows.ReadRow(line, width, g.control).value.values)
  }

  ghost predicate IsRow(g: Grammar, t: Table) {
    exists line, width :: RowOf(g, t, line, width)
  }

  ghost predicate Sourced(g: Grammar, e: Event) {
    && (e.planFormat == Explained ==> ExplainedPlan(g, e.plan))
    && |e.tables| <= MAX_TABLES && forall i :: 0 <= i < |e.tables| ==> IsRow(g, e.tables[i])
  }

  lemma {:induction false} TrimLeftSkips(s: Bytes, n: nat)
    requires n <= |s| && forall i :: 0 <= i < n ==> s[i] == SPACE
    ensures TrimLeft(s) == TrimLeft(s[n..])
  {
    if n > 0 {
      assert s[1..][n - 1..] == s[n..];
      TrimLeftSkips(s[1..], n - 1);
    } else {
      assert s[0..] == s;
    }
  }

  lemma {:induction false} TrimRightIsPrefix(s: Bytes)
    ensures TrimRight(s) <= s
  {
    var n := LastSpaceWidth(s);
    if n > 0 {
      TrimRightIsPrefix(s[..|s| - n]);
    }
  }

  /** No safe line below the root reads like the root. */
  lemma SafeIsNotRoot(g: Grammar, line: Bytes)
    requires SafePlanLine(g, line, false)
    ensures TrimSpace(line) != Ascii("Select Expression")
  {
    hide KnownExplainedNode, ForbiddenInPlan, Describe.Analyze, ByteText.TrimRight;
    var n := Indent(line);
    var rest := line[n..];
    assert rest[..3][0] == Ascii("-> ")[0] == 0x2D;
    TrimLeftSkips(line, n);
    assert TrimLeft(rest) == rest;
    TrimRightIsPrefix(rest);
    assert Ascii("Select Expression")[0] == 0x53;
  }

  lemma PlanGrows(g: Grammar, plan: Bytes, line: Bytes)
    requires ExplainedPlan(g, plan) && SafePlanLine(g, line, false)
    ensures ExplainedPlan(g, plan + [NEWLINE] + line)
  {
    hide SafePlanLine;
    var lines :| PlanTree(g, lines) && plan == PlanText(lines);
    var more := lines + [line];
    assert more[..|more| - 1] == lines;
    assert PlanTree(g, more);
  }

  lemma PlanBegins(g: Grammar)
    ensures ExplainedPlan(g, Ascii("Select Expression"))
  {
    assert PlanTree(g, [Ascii("Select Expression")]);
    assert PlanText([Ascii("Select Expression")]) == Ascii("Select Expression");
  }

  lemma ExplainedIsSourced(g: Grammar, s: Reader, e: Event, line: Bytes)
    requires Sourced(g, e) && (TrimSpace(line) == Ascii("Select Expression") || e.planFormat == Explained)
    ensures Sourced(g, ExplainedPlanLine(g, s, e, line).current.value)
  {
    hide SafePlanLine, ExplainedPlan, IsRow, ByteText.TrimSpace, Ascii;
    if SafePlanLine(g, line, e.plan == []) {
      if e.plan == [] {
        RootIsRoot(g, line);
        PlanBegins(g);
      } else {
        SafeIsNotRoot(g, line);
        PlanGrows(g, e.plan, line);
      }
    }
  }

  lemma RootIsRoot(g: Grammar, line: Bytes)
    requires SafePlanLine(g, line, true)
    ensures line == Ascii("Select Expression")
  {
  }

  lemma ClassicIsSourced(g: Grammar, e: Event, trim: Bytes)
    requires Sourced(g, e)
    ensures Sourced(g, ClassicPlanLine(g, e, trim))
  {
    hide ExplainedPlan, IsRow, Describe.Analyze;
  }

  lemma {:induction false} CountersAreSourced(g: Grammar, e: Event, values: seq<(Counter, nat)>)
    requires Sourced(g, e)
    ensures Sourced(g, SetCounters(e, values))
  {
    hide ExplainedPlan, IsRow;
    if values != [] {
      CountersAreSourced(g, e, values[..|values| - 1]);
    }
  }

  lemma RowIsSourced(g: Grammar, s: Reader, e: Event, line: Bytes)
    requires Sourced(g, e) && 32 <= s.tableWidth && s.tableWidth + 80 <= |line|
    ensures Sourced(g, CounterLine(g, s, e, line))
  {
    hide ExplainedPlan, Rows.ReadRow;
    var row := Rows.ReadRow(line, s.tableWidth, g.control);
    if row.Some? && |e.tables| < MAX_TABLES {
      assert RowOf(g, Table(row.value.name, row.value.values), line, s.tableWidth);
    }
  }

  /** The same plan and the same tables. */
  ghost predicate SameMatter(e: Event, f: Event) {
    f.planFormat == e.planFormat && f.plan == e.plan && f.tables == e.tables
  }

  lemma MatterIsSourced(g: Grammar, e: Event, f: Event)
    requires Sourced(g, e) && SameMatter(e, f)
    ensures Sourced(g, f)
  {
  }

  lemma MetadataMatter(g: Grammar, s: Reader, e: Event, line: Bytes)
    requires MetadataLine(g, s, e, line).Some?
    ensures var t := MetadataLine(g, s, e, line).value; t.current.Some? && SameMatter(e, t.current.value)
  {
    hide Ascii, ByteText.TrimSpace, NameLine;
    var trim := TrimSpace(line);
    if Label(e.kind).Some? && HasPrefix(trim, Label(e.kind).value) {
      OnlyTheName(g, e, trim[|Label(e.kind).value|..]);
    }
  }

  lemma MetadataIsSourced(g: Grammar, s: Reader, e: Event, line: Bytes)
    requires Sourced(g, e) && MetadataLine(g, s, e, line).Some?
    ensures var t := MetadataLine(g, s, e, line).value; t.current.Some? && Sourced(g, t.current.value)
  {
    hide MetadataLine, Sourced;
    MetadataMatter(g, s, e, line);
    MatterIsSourced(g, e, MetadataLine(g, s, e, line).value.current.value);
  }

  lemma SectionIsSourced(g: Grammar, s: Reader, e: Event, line: Bytes)
    requires s.current == Some(e) && Sourced(g, e)
    ensures var t := SectionLine(g, s, e, line); t.current.Some? && Sourced(g, t.current.value)
  {
    hide Ascii, ByteText.TrimSpace, HasPrefix, SetCounters, CounterLine, Sourced;
    CountersAreSourced(g, e, g.counters(TrimSpace(line)));
    if s.tableWidth >= 32 && |line| >= s.tableWidth + 80 {
      RowIsSourced(g, s, e, line);
    }
  }

  lemma BodyIsSourced(g: Grammar, s: Reader, e: Event, line: Bytes)
    requires s.current == Some(e) && Sourced(g, e)
    ensures var t := BodyLine(g, s, e, line); t.current.Some? && Sourced(g, t.current.value)
  {
    hide Ascii, ByteText.TrimSpace, HasPrefix, MetadataLine, SectionLine, ExplainedPlanLine, ClassicPlanLine, Sourced;
    if MetadataLine(g, s, e, line).Some? {
      MetadataIsSourced(g, s, e, line);
    } else {
      ClassicIsSourced(g, e, TrimSpace(line));
      if TrimSpace(line) == Ascii("Select Expression") || e.planFormat == Explained {
        ExplainedIsSourced(g, s, e, line);
        ExplainedGoesOn(g, s, e, line);
      }
      SectionIsSourced(g, s, e, line);
    }
  }

  lemma ExplainedGoesOn(g: Grammar, s: Reader, e: Event, line: Bytes)
    ensures ExplainedPlanLine(g, s, e, line).current.Some?
  {
    hide SafePlanLine;
  }

  // ---- over whole runs

  /** Everything emitted, and the record being read. */
  ghost predicate AllSourced(g: Grammar, s: Reader, h: seq<Event>) {
    && (s.current.Some? ==> Sourced(g, s.current.value))
    && forall i :: 0 <= i < |h| ==> Sourced(g, h[i])
  }

  lemma FinishedMatter(g: Grammar, s: Reader)
    requires s.current.Some?
    ensures Finished(g, s).1.Some? && SameMatter(s.current.value, Finished(g, s).1.value)
    ensures Finished(g, s).0.current.None?
  {
    hide Describe.Analyze, Describe.HasTerminalEllipsis, ByteText.TrimSpace, EncodeAll;
  }

  lemma NothingIsSourced(g: Grammar, e: Event)
    requires e.planFormat != Explained && e.tables == []
    ensures Sourced(g, e)
  {
  }

  lemma GapsAreSourced(g: Grammar)
    ensures Sourced(g, GAP) && Sourced(g, GAP.(name := UNSUPPORTED_EVENT))
    ensures Sourced(g, GAP.(name := INVALID_TIMESTAMP))
  {
    NothingIsSourced(g, GAP);
    NothingIsSourced(g, GAP.(name := UNSUPPORTED_EVENT));
    NothingIsSourced(g, GAP.(name := INVALID_TIMESTAMP));
  }

  lemma ClosedIsSourced(g: Grammar, s: Reader, h: seq<Event>)
    requires AllSourced(g, s, h)
    ensures AllSourced(g, Closed(g, s).0, h + Closed(g, s).1)
  {
    hide Finished, Sourced;
    GapsAreSourced(g);
    if s.current.Some? {
      FinishedMatter(g, s);
      MatterIsSourced(g, s.current.value, Finished(g, s).1.value);
    } else {
      NothingFinishes(g, s);
    }
  }

  lemma NothingFinishes(g: Grammar, s: Reader)
    requires s.current.None?
    ensures Finished(g, s) == (s, None)
  {
  }

  lemma OneMoreIsSourced(g: Grammar, h: seq<Event>, out: seq<Event>, e: Event)
    requires (forall i :: 0 <= i < |h + out| ==> Sourced(g, (h + out)[i])) && Sourced(g, e)
    ensures forall i :: 0 <= i < |h + (out + [e])| ==> Sourced(g, (h + (out + [e]))[i])
  {
    hide Sourced;
    assert h + (out + [e]) == h + out + [e];
  }

  lemma HeaderIsSourced(g: Grammar, s: Reader, h: seq<Event>, header: Header)
    requires AllSourced(g, s, h)
    ensures AllSourced(g, HeaderLine(g, s, header).0, h + HeaderLine(g, s, header).1)
  {
    hide Closed, KindOf, ByteText.TrimSpace, Sourced;
    GapsAreSourced(g);
    ClosedIsSourced(g, s, h);
    var (t, out) := Closed(g, s);
    var kind := KindOf(TrimSpace(header.event));
    if kind.None? {
      OneMoreIsSourced(g, h, out, GAP.(name := UNSUPPORTED_EVENT));
    } else if !g.validTime(header.timestamp) {
      OneMoreIsSourced(g, h, out, GAP.(name := INVALID_TIMESTAMP));
    } else {
      NothingIsSourced(g, NewRecord(kind.value.0, kind.value.1, header.timestamp, t.pairing.incomplete));
    }
  }

  lemma LineIsSourced(g: Grammar, s: Reader, h: seq<Event>, line: Bytes)
    requires AllSourced(g, s, h)
    ensures AllSourced(g, Consume(g, s, line).0, h + Consume(g, s, line).1)
  {
    hide EndsSql, BodyLine, HeaderLine, Sourced;
    GapsAreSourced(g);
    if !s.collectSQL || EndsSql(g, s, line) {
      var t := (if s.collectSQL then s.(collectSQL := false, sqlSeparated := false) else s);
      if g.header(line).Some? {
        HeaderIsSourced(g, t, h, g.header(line).value);
      } else if t.current.Some? {
        BodyIsSourced(g, t.(recordBytes := t.recordBytes + |line| + 1), t.current.value, line);
      }
    }
  }

  lemma PieceIsSourced(g: Grammar, s: State, h: seq<Event>, piece: Bytes)
    requires AllSourced(g, s.reader, h)
    ensures AllSourced(g, Piece(s, piece).0.reader, h + Piece(s, piece).1)
  {
    hide Sourced;
    GapsAreSourced(g);
  }

  lemma EndLineIsSourced(g: Grammar, s: State, h: seq<Event>)
    requires AllSourced(g, s.reader, h)
    ensures AllSourced(g, EndLine(g, s).0.reader, h + EndLine(g, s).1)
  {
    hide AllSourced, Consume;
    LineIsSourced(g, s.reader, h, TrimReturn(s.line));
    assert h + [] == h;
  }

  /**
   * Whatever bytes are fed: an explained plan that leaves the parser is its root line and safe lines only, and each
   * table is a counter row.
   */
  lemma {:induction false} FeedIsSourced(g: Grammar, s: State, h: seq<Event>, chunk: Bytes)
    requires AllSourced(g, s.reader, h)
    ensures AllSourced(g, Feed(g, s, chunk).0.reader, h + Feed(g, s, chunk).1)
    decreases |chunk|
  {
    hide AllSourced, Piece, EndLine;
    assert h + [] == h;
    if chunk != [] {
      var n := LineLength(chunk);
      var (t, first) := Piece(s, chunk[..n]);
      PieceIsSourced(g, s, h, chunk[..n]);
      if n < |chunk| {
        var (v, second) := EndLine(g, t);
        EndLineIsSourced(g, t, h + first);
        FeedIsSourced(g, v, h + first + second, chunk[n + 1..]);
        assert h + first + second + Feed(g, v, chunk[n + 1..]).1 == h + (first + second + Feed(g, v, chunk[n + 1..]).1);
      }
    }
  }

  lemma FlushIsSourced(g: Grammar, s: State, h: seq<Event>)
    requires AllSourced(g, s.reader, h)
    ensures AllSourced(g, Flush(g, s).0.reader, h + Flush(g, s).1)
  {
    hide Sourced, Consume, Finished;
    GapsAreSourced(g);
    LineIsSourced(g, s.reader, h, s.line);
    var (r, first) := if s.line != [] && !s.skipLine then Consume(g, s.reader, s.line) else (s.reader, []);
    assert AllSourced(g, r, h + first);
    LastIsSourced(g, r, h + first);
    assert h + first + FlushRecord(g, r).1 == h + (first + FlushRecord(g, r).1);
  }

  lemma LastIsSourced(g: Grammar, s: Reader, h: seq<Event>)
    requires AllSourced(g, s, h)
    ensures AllSourced(g, FlushRecord(g, s).0, h + FlushRecord(g, s).1)
  {
    hide Sourced, Finished;
    GapsAreSourced(g);
    if s.current.Some? {
      FinishedMatter(g, s);
      var f := Finished(g, s).1.value;
      MatterIsSourced(g, s.current.value, f);
      MatterIsSourced(g, s.current.value, f.(incomplete := true));
    } else {
      NothingFinishes(g, s);
    }
  }

  lemma ReleaseIsSourced(g: Grammar, s: State, h: seq<Event>)
    requires AllSourced(g, s.reader, h)
    ensures AllSourced(g, FlushFinished(g, s).0.reader, h + FlushFinished(g, s).1)
  {
    hide Sourced, Finished;
    GapsAreSourced(g);
    if s.reader.current.Some? {
      FinishedMatter(g, s.reader);
      var f := Finished(g, s.reader).1.value;
      MatterIsSourced(g, s.reader.current.value, f);
      MatterIsSourced(g, s.reader.current.value, f.(incomplete := true));
    }
  }

  // ---- the text of a record

  lemma EmptyText(text: string)
    ensures EncodeAll(text) != [] ==> text != ""
  {
  }

  /**
   * The text a record leaves with describes itself: analysed again it gives the same text, and a statement's name is
   * the summary of that text. It shows no double quote. Other kinds of records keep their name.
   */
  lemma RecordTextIsStable(g: Grammar, e: Event, sql: Bytes)
    requires Lawful(g.u) && e.sql == [] && WithSql(g, e, sql).sql != []
    ensures var f := WithSql(g, e, sql); var d := Describe.Analyze(g.u, f.sql, 0, 0, false);
      && d.valid && EncodeAll(d.text) == f.sql && Decode(f.sql) == d.text && Names.Quoteless(d.text)
      && f.name == if e.kind == Statement then EncodeAll(d.summary) else e.name
  {
    hide Describe.Analyze, Describe.HasTerminalEllipsis, ByteText.TrimSpace, EncodeAll, Names.Quoteless;
    var d := Describe.Analyze(g.u, sql, 0, 0, false);
    EmptyText(d.text);
    RoundTrip.DescriptionIsStable(g.u, sql, 0, 0, false);
    Names.NoQuoteLeaks(g.u, sql, 0, 0);
    DecodeOfEncode(d.text);
    ValidWithText(g, sql);
  }

  lemma ValidWithText(g: Grammar, sql: Bytes)
    ensures var d := Describe.Analyze(g.u, sql, 0, 0, false); d.text != "" ==> d.valid
  {
    hide Describe.Print, EncodeAll, Describe.Target, Describe.ObjectName, Describe.StartOf, Describe.OperationName;
    hide Describe.IsUpsert, Describe.IsOperation;
  }
}
