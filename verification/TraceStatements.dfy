/** The SQL of a record is recovered line for line, and no line inside it can end it early. */
module TraceStatements {
  import opened Options
  import opened Utf8
  import opened ByteText
  import Describe = SqlDescribe
  import Framing = SqlFraming
  import Rows = CounterRow
  import opened TraceEvents
  import opened TracePairing
  import opened TraceMachine
  import opened TraceChunks

  function ConsumeAll(g: Grammar, r: Reader, lines: seq<Bytes>): (Reader, seq<Event>)
    decreases |lines|
  {
    if lines == [] then (r, []) else
    var (t, first) := Consume(g, r, lines[0]);
    var (v, rest) := ConsumeAll(g, t, lines[1..]);
    (v, first + rest)
  }

  /** Shaped like a line that Firebird prints after a statement. */
  predicate BoundaryShaped(g: Grammar, line: Bytes) {
    var trim := TrimSpace(line);
    || g.header(line).Some? || HasPrefix(trim, Ascii("^^^")) || g.parameter(line) || trim == Ascii("returns:")
    || g.rowCount(trim) || g.performance(trim)
  }

  /** A line with such a shape only occurs where the text before it leaves something open. */
  ghost predicate HeldOpen(g: Grammar, sql: Bytes, lines: seq<Bytes>) {
    forall i :: 0 <= i < |lines| && BoundaryShaped(g, lines[i]) ==> !Framing.Complete(g.u, sql + Join(lines[..i]))
  }

  lemma JoinCons(sql: Bytes, lines: seq<Bytes>, i: nat)
    requires 0 < i <= |lines|
    ensures sql + Join(lines[..i]) == (sql + lines[0] + [NEWLINE]) + Join(lines[1..][..i - 1])
  {
    assert lines[..i][0] == lines[0] && lines[..i][1..] == lines[1..][..i - 1];
    var rest := Join(lines[1..][..i - 1]);
    assert sql + (lines[0] + [NEWLINE] + rest) == (sql + lines[0] + [NEWLINE]) + rest;
  }

  lemma HeldOpenTail(g: Grammar, sql: Bytes, lines: seq<Bytes>)
    requires lines != [] && HeldOpen(g, sql, lines)
    ensures HeldOpen(g, sql + lines[0] + [NEWLINE], lines[1..])
  {
    hide BoundaryShaped, Framing.Complete, Join;
    forall i | 0 <= i < |lines[1..]| && BoundaryShaped(g, lines[1..][i])
      ensures !Framing.Complete(g.u, (sql + lines[0] + [NEWLINE]) + Join(lines[1..][..i]))
    {
      assert BoundaryShaped(g, lines[i + 1]);
      JoinCons(sql, lines, i + 1);
    }
  }

  /** A line that is held open is staged, whatever it looks like. */
  lemma StagedLine(g: Grammar, r: Reader, line: Bytes)
    requires r.collectSQL && (BoundaryShaped(g, line) ==> !Framing.Complete(g.u, r.sql))
    requires r.recordBytes + |line| + 1 <= MAX_RECORD && |r.sql| + |line| + 1 <= MAX_RECORD
    ensures var (t, out) := Consume(g, r, line);
      out == [] && t == r.(
        sql := r.sql + line + [NEWLINE], recordBytes := r.recordBytes + |line| + 1, sqlSeparated := t.sqlSeparated)
  {
    hide Framing.Complete, Framing.MayEnd, ByteText.TrimSpace, HasPrefix, Ascii, TerminalOperation, RecordLine;
  }

  /** The reader after staging `sql`, apart from the note whether a blank line separated it. */
  function Staging(r: Reader, sql: Bytes, separated: bool): Reader {
    r.(sql := r.sql + sql, recordBytes := r.recordBytes + |sql|, sqlSeparated := separated)
  }

  lemma JoinUnfold(sql: Bytes, lines: seq<Bytes>)
    requires lines != []
    ensures sql + Join(lines) == (sql + lines[0] + [NEWLINE]) + Join(lines[1..])
    ensures |Join(lines)| == |lines[0]| + 1 + |Join(lines[1..])|
  {
    JoinCons(sql, lines, |lines|);
    assert lines[..|lines|] == lines && lines[1..][..|lines| - 1] == lines[1..];
  }

  lemma FirstHeldOpen(g: Grammar, sql: Bytes, lines: seq<Bytes>)
    requires lines != [] && HeldOpen(g, sql, lines)
    ensures BoundaryShaped(g, lines[0]) ==> !Framing.Complete(g.u, sql)
  {
    hide BoundaryShaped, Framing.Complete;
    assert lines[..0] == [] && sql + Join([]) == sql;
  }

  /** Lines held open are staged exactly, and nothing is emitted. */
  lemma {:induction false} LinesAreStaged(g: Grammar, r: Reader, lines: seq<Bytes>)
    requires r.collectSQL && HeldOpen(g, r.sql, lines)
    requires r.recordBytes + |Join(lines)| <= MAX_RECORD && |r.sql| + |Join(lines)| <= MAX_RECORD
    ensures var (t, out) := ConsumeAll(g, r, lines); out == [] && t == Staging(r, Join(lines), t.sqlSeparated)
    decreases |lines|
  {
    if lines == [] {
      assert r.sql + [] == r.sql;
    } else {
      hide Consume, HeldOpen, BoundaryShaped, Framing.Complete, Join;
      JoinUnfold(r.sql, lines);
      FirstHeldOpen(g, r.sql, lines);
      StagedLine(g, r, lines[0]);
      HeldOpenTail(g, r.sql, lines);
      LinesAreStaged(g, Consume(g, r, lines[0]).0, lines[1..]);
    }
  }

  /** A record whose SQL text is about to begin. */
  ghost predicate BeforeSql(g: Grammar, r: Reader, dashes: Bytes) {
    && r.current.Some? && r.sql == [] && !r.collectSQL && g.header(dashes).None?
    && HasPrefix(TrimSpace(dashes), Ascii("---"))
    && MetadataLine(g, r.(recordBytes := r.recordBytes + |dashes| + 1), r.current.value, dashes).None?
  }

  lemma DashesStartSql(g: Grammar, r: Reader, dashes: Bytes)
    requires BeforeSql(g, r, dashes) && r.recordBytes + |dashes| + 1 <= MAX_RECORD
    ensures Consume(g, r, dashes)
      == (r.(collectSQL := true, sqlSeparated := false, metadataHeader := false,
             recordBytes := r.recordBytes + |dashes| + 1), [])
  {
    hide ByteText.TrimSpace, HasPrefix, Ascii, MetadataLine, SectionLine, ClassicPlanLine, ExplainedPlanLine;
  }

  /** The last staged line was blank, and the statement was complete in front of it. */
  ghost predicate Separated(g: Grammar, lines: seq<Bytes>) {
    lines != [] && TrimSpace(lines[|lines| - 1]) == [] && Framing.Complete(g.u, Join(lines[..|lines| - 1]))
  }

  /** The header of the next record pairs this one with the SQL that was staged, and starts without any. */
  lemma HeaderReportsSql(g: Grammar, r: Reader, line: Bytes, e: Event)
    requires r.current == Some(e) && !r.collectSQL && g.header(line).Some?
    ensures var (t, out) := Consume(g, r, line);
      out != [] && out[0] == Pair(r.pairing, WithSql(g, e, r.sql)).1 && t.sql == [] && !t.collectSQL
  {
    hide Pair, WithSql, KindOf, ByteText.TrimSpace;
  }

  lemma ConsumeAllAppend(g: Grammar, r: Reader, a: seq<Bytes>, b: seq<Bytes>)
    ensures var (t, first) := ConsumeAll(g, r, a); var (v, rest) := ConsumeAll(g, t, b);
      ConsumeAll(g, r, a + b) == (v, first + rest)
    decreases |a|
  {
    hide Consume;
    if a == [] {
      assert a + b == b;
      assert [] + ConsumeAll(g, r, b).1 == ConsumeAll(g, r, b).1;
    } else {
      assert (a + b)[0] == a[0] && (a + b)[1..] == a[1..] + b;
      var (t, first) := Consume(g, r, a[0]);
      ConsumeAllAppend(g, t, a[1..], b);
      var middle := ConsumeAll(g, t, a[1..]);
      var last := ConsumeAll(g, middle.0, b).1;
      assert first + (middle.1 + last) == first + middle.1 + last;
    }
  }

  lemma ConsumeOne(g: Grammar, r: Reader, line: Bytes)
    ensures ConsumeAll(g, r, [line]) == Consume(g, r, line)
  {
    hide Consume;
    assert [line][1..] == [];
    assert Consume(g, r, line).1 + [] == Consume(g, r, line).1;
  }

  lemma HeldOpenPrefix(g: Grammar, sql: Bytes, lines: seq<Bytes>, n: nat)
    requires HeldOpen(g, sql, lines) && n <= |lines|
    ensures HeldOpen(g, sql, lines[..n])
  {
    hide BoundaryShaped, Framing.Complete, Join;
    forall i | 0 <= i < n && BoundaryShaped(g, lines[..n][i])
      ensures !Framing.Complete(g.u, sql + Join(lines[..n][..i]))
    {
      assert BoundaryShaped(g, lines[i]) && lines[..n][..i] == lines[..i];
    }
  }

  lemma {:induction false} JoinAppend(lines: seq<Bytes>, line: Bytes)
    ensures Join(lines + [line]) == Join(lines) + line + [NEWLINE]
  {
    var more := lines + [line];
    if lines == [] {
      assert more[1..] == [];
      assert Join(more) == line + [NEWLINE] + [];
    } else {
      assert more[1..] == lines[1..] + [line];
      JoinAppend(lines[1..], line);
    }
  }

  lemma StagedBlank(g: Grammar, r: Reader, line: Bytes)
    requires r.collectSQL && (BoundaryShaped(g, line) ==> !Framing.Complete(g.u, r.sql))
    requires r.recordBytes + |line| + 1 <= MAX_RECORD && |r.sql| + |line| + 1 <= MAX_RECORD
    ensures Consume(g, r, line).0.sqlSeparated == (TrimSpace(line) == [] && Framing.Complete(g.u, r.sql))
  {
    hide Framing.Complete, Framing.MayEnd, ByteText.TrimSpace, HasPrefix, Ascii, TerminalOperation, RecordLine;
  }

  /** From the dashes on, the lines of the statement are staged. */
  lemma BlockIsStaged(g: Grammar, r: Reader, dashes: Bytes, lines: seq<Bytes>)
    requires BeforeSql(g, r, dashes) && HeldOpen(g, [], lines)
    requires r.recordBytes + |dashes| + 1 + |Join(lines)| <= MAX_RECORD
    ensures var (t, out) := ConsumeAll(g, r, [dashes] + lines);
      && out == [] && t.collectSQL && t.sql == Join(lines) && t.sqlSeparated == Separated(g, lines)
      && t.current == r.current && t.pairing == r.pairing && !t.metadataHeader
      && t.recordBytes == r.recordBytes + |dashes| + 1 + |Join(lines)|
  {
    hide Consume, ConsumeAll, Join, Framing.Complete, HeldOpen, ByteText.TrimSpace, BoundaryShaped;
    var s := Consume(g, r, dashes).0;
    DashesStartSql(g, r, dashes);
    LinesAreStaged(g, s, lines);
    assert [] + Join(lines) == Join(lines);
    ConsumeOne(g, r, dashes);
    ConsumeAllAppend(g, r, [dashes], lines);
    LastIsStaged(g, s, lines);
  }

  lemma LastIsStaged(g: Grammar, s: Reader, lines: seq<Bytes>)
    requires s.collectSQL && s.sql == [] && !s.sqlSeparated && HeldOpen(g, [], lines)
    requires s.recordBytes + |Join(lines)| <= MAX_RECORD
    ensures ConsumeAll(g, s, lines).0.sqlSeparated == Separated(g, lines)
  {
    if lines != [] {
      hide Consume, ConsumeAll, Join, Framing.Complete, BoundaryShaped, ByteText.TrimSpace;
      var n := |lines| - 1;
      HeldOpenPrefix(g, [], lines, n);
      JoinAppend(lines[..n], lines[n]);
      assert lines[..n] + [lines[n]] == lines;
      hide HeldOpen;
      LinesAreStaged(g, s, lines[..n]);
      var t := ConsumeAll(g, s, lines[..n]).0;
      assert [] + Join(lines[..n]) == Join(lines[..n]);
      LastHeldOpen(g, lines);
      StagedBlank(g, t, lines[n]);
      ConsumeOne(g, t, lines[n]);
      ConsumeAllAppend(g, s, lines[..n], [lines[n]]);
    }
  }

  lemma LastHeldOpen(g: Grammar, lines: seq<Bytes>)
    requires lines != [] && HeldOpen(g, [], lines)
    ensures BoundaryShaped(g, lines[|lines| - 1]) ==> !Framing.Complete(g.u, Join(lines[..|lines| - 1]))
  {
    hide BoundaryShaped, Framing.Complete, Join;
    assert [] + Join(lines[..|lines| - 1]) == Join(lines[..|lines| - 1]);
  }

  /** The line that ends the statement is read like any other line of the record. */
  lemma EndingLine(g: Grammar, r: Reader, lines: seq<Bytes>)
    requires r.collectSQL && lines != [] && EndsSql(g, r, lines[0])
    ensures ConsumeAll(g, r, lines) == ConsumeAll(g, r.(collectSQL := false, sqlSeparated := false), lines)
  {
    hide EndsSql, RecordLine;
  }

  // ---- what comes between the statement and the next header

  /** The rest of a record only adds to the plan, the counters and the tables, and may mark the record as incomplete. */
  ghost predicate Continues(e: Event, f: Event) {
    && f == e.(plan := f.plan, planFormat := f.planFormat, tables := f.tables, durationMS := f.durationMS,
               pageReads := f.pageReads, pageWrites := f.pageWrites, pageFetches := f.pageFetches,
               pageMarks := f.pageMarks, incomplete := f.incomplete)
    && (e.incomplete ==> f.incomplete)
  }

  /** Row counts, counters, parameters, plans, tables, or anything else that starts neither a record nor a statement. */
  predicate AfterStatement(g: Grammar, line: Bytes) {
    g.header(line).None? && !HasPrefix(TrimSpace(line), Ascii("---"))
  }

  /** Past the statement and the identity lines: the staged text stays what it is. */
  ghost predicate Resting(r: Reader, t: Reader) {
    && r.current.Some? && t.current.Some? && Continues(r.current.value, t.current.value)
    && t.sql == r.sql && t.pairing == r.pairing && !t.collectSQL && !t.metadataHeader
  }

  lemma {:induction false} CountersContinue(e: Event, values: seq<(Counter, nat)>)
    ensures Continues(e, SetCounters(e, values))
  {
    if values != [] {
      CountersContinue(e, values[..|values| - 1]);
    }
  }

  lemma SectionContinues(g: Grammar, r: Reader, e: Event, line: Bytes)
    requires r.current == Some(e) && !r.collectSQL && !r.metadataHeader
    ensures Resting(r, SectionLine(g, r, e, line))
  {
    hide Ascii, ByteText.TrimSpace, HasPrefix, SetCounters, Rows.ReadRow;
    CountersContinue(e, g.counters(TrimSpace(line)));
  }

  lemma PlanContinues(g: Grammar, r: Reader, e: Event, line: Bytes)
    requires r.current == Some(e) && !r.collectSQL && !r.metadataHeader
    ensures Continues(e, ClassicPlanLine(g, e, TrimSpace(line))) && Resting(r, ExplainedPlanLine(g, r, e, line))
  {
    hide Ascii, ByteText.TrimSpace, HasPrefix, SafePlanLine, Describe.Analyze;
  }

  lemma TailLine(g: Grammar, r: Reader, line: Bytes)
    requires r.current.Some? && !r.collectSQL && !r.metadataHeader && AfterStatement(g, line)
    requires r.recordBytes + |line| + 1 <= MAX_RECORD
    ensures var (t, out) := Consume(g, r, line);
      out == [] && Resting(r, t) && t.recordBytes == r.recordBytes + |line| + 1
  {
    hide Ascii, ByteText.TrimSpace, HasPrefix, SectionLine, ClassicPlanLine, ExplainedPlanLine;
    var s, e := r.(recordBytes := r.recordBytes + |line| + 1), r.current.value;
    SectionContinues(g, s, e, line);
    PlanContinues(g, s, e, line);
    BytesStay(g, s, e, line);
  }

  lemma BytesStay(g: Grammar, r: Reader, e: Event, line: Bytes)
    ensures SectionLine(g, r, e, line).recordBytes == r.recordBytes
    ensures ExplainedPlanLine(g, r, e, line).recordBytes == r.recordBytes
  {
    hide Ascii, ByteText.TrimSpace, HasPrefix, SetCounters, SafePlanLine, CounterLine;
  }

  /** However many lines follow the statement, its text waits for the end of the record. */
  lemma {:induction false} TailRests(g: Grammar, r: Reader, tail: seq<Bytes>)
    requires r.current.Some? && !r.collectSQL && !r.metadataHeader
    requires forall i :: 0 <= i < |tail| ==> AfterStatement(g, tail[i])
    requires r.recordBytes + |Join(tail)| <= MAX_RECORD
    ensures var (t, out) := ConsumeAll(g, r, tail); out == [] && Resting(r, t)
    decreases |tail|
  {
    if tail != [] {
      hide Consume, AfterStatement, Join;
      JoinUnfold([], tail);
      TailLine(g, r, tail[0]);
      TailRests(g, Consume(g, r, tail[0]).0, tail[1..]);
    }
  }

  /**
   * The event of a record describes exactly the SQL lines the record held. They end at the first line that may end
   * them, the separator, a row count, a parameter or the next header, and whatever lines come before that header only
   * add plan, counters and tables. The next record starts without a statement.
   */
  lemma SqlIsRecovered(
      g: Grammar, r: Reader, e: Event, dashes: Bytes, lines: seq<Bytes>, tail: seq<Bytes>, next: Bytes)
    returns (f: Event)
    requires BeforeSql(g, r, dashes) && r.current == Some(e) && HeldOpen(g, [], lines) && g.header(next).Some?
    requires forall i :: 0 <= i < |tail| ==> AfterStatement(g, tail[i])
    requires EndsSql(g, r.(sql := Join(lines), sqlSeparated := Separated(g, lines)), (tail + [next])[0])
    requires r.recordBytes + |dashes| + 1 + |Join(lines)| + |Join(tail)| <= MAX_RECORD
    ensures var (t, out) := ConsumeAll(g, r, [dashes] + lines + tail + [next]);
      && out != [] && out[0] == Pair(r.pairing, WithSql(g, f, Join(lines))).1 && Continues(e, f)
      && t.sql == [] && !t.collectSQL
  {
    hide Consume, ConsumeAll, Join, HeldOpen, BeforeSql, Separated, Pair, WithSql, AfterStatement;
    BlockIsStaged(g, r, dashes, lines);
    var s := ConsumeAll(g, r, [dashes] + lines).0;
    SameEnding(g, s, r.(sql := Join(lines), sqlSeparated := Separated(g, lines)), (tail + [next])[0]);
    hide EndsSql;
    EndingLine(g, s, tail + [next]);
    var t := s.(collectSQL := false, sqlSeparated := false);
    TailRests(g, t, tail);
    var v := ConsumeAll(g, t, tail).0;
    f := v.current.value;
    HeaderReportsSql(g, v, next, f);
    ConsumeOne(g, v, next);
    ConsumeAllAppend(g, t, tail, [next]);
    ConsumeAllAppend(g, r, [dashes] + lines, tail + [next]);
    assert [dashes] + lines + tail + [next] == [dashes] + lines + (tail + [next]);
  }

  lemma SameEnding(g: Grammar, r: Reader, s: Reader, line: Bytes)
    requires r.sql == s.sql && r.sqlSeparated == s.sqlSeparated
    ensures EndsSql(g, r, line) <==> EndsSql(g, s, line)
  {
    hide Framing.Complete, Framing.MayEnd, ByteText.TrimSpace, HasPrefix, Ascii, TerminalOperation;
  }
}
