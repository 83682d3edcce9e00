/** The parser object: its fields, updated line by line (internal/traceparse/parser.go, Parser and its methods). */
module TraceParser {
  import opened Options
  import opened Utf8
  import opened ByteText
  import Describe = SqlDescribe
  import Framing = SqlFraming
  import Rows = CounterRow
  import opened TraceEvents
  import opened TracePairing
  import opened TraceMachine
  import opened TraceRuns

  class Parser {
    const g: Grammar
    var line: Bytes
    var skipLine: bool
    var current: Option<Event>
    var sql: Bytes
    var collectSQL: bool
    var sqlSeparated: bool
    var metadataHeader: bool
    var planSection: bool
    var performanceSection: bool
    var tableWidth: nat
    var recordBytes: nat
    var sequence: nat
    var stacks: map<Scope, seq<Frame>>
    var incomplete: bool
    var stackOverflow: bool
    ghost var emitted: seq<Event>

    ghost function Pairs(): Pairing
      reads this
    {
      Pairing(stacks, sequence, incomplete, stackOverflow)
    }

    ghost function Reading(): Reader
      reads this
    {
      Reader(current, sql, collectSQL, sqlSeparated, metadataHeader, planSection, performanceSection,
             tableWidth, recordBytes,
             Pairs())
    }

    ghost function Now(): State
      reads this
    {
      State(line, skipLine, Reading())
    }

    /** What reading lines leaves alone. */
    twostate predicate LineKept()
      reads this
    {
      line == old(line) && skipLine == old(skipLine) && emitted == old(emitted)
    }

    /** Bounded buffers and stacks, and a well-paired history of everything emitted. */
    ghost predicate Valid()
      reads this
    {
      ParserOk(Now(), emitted)
    }

    constructor (g: Grammar)
      ensures this.g == g && Now() == START && emitted == [] && Valid()
    {
      this.g := g;
      line, skipLine, current, sql := [], false, None, [];
      collectSQL, sqlSeparated, metadataHeader, planSection, performanceSection := false, false, false, false, false;
      tableWidth, recordBytes, sequence, stacks, incomplete, stackOverflow := 0, 0, 0, map[], false, false;
      emitted := [];
      new;
      StartOk();
    }

    method Gap() returns (e: Event)
      modifies this
      ensures Reading() == Lost(old(Reading())) && e == GAP && LineKept()
    {
      incomplete := true;
      stacks := map[];
      current := None;
      sql := [];
      collectSQL := false;
      sqlSeparated := false;
      e := GAP;
    }

    /** The record with what its staged SQL says, ready for pairing. */
    method AddSql(e: Event) returns (f: Event)
      ensures f == WithSql(g, e, sql)
    {
      hide Describe.Analyze, Describe.HasTerminalEllipsis, ByteText.TrimSpace, EncodeAll;
      f := e;
      if |sql| > 0 {
        var token := g.scopeMarker(TrimSpace(sql));
        if f.kind == Statement && token.Some? {
          f := f.(scopeToken := token.value);
        }
        if Describe.HasTerminalEllipsis(g.u, sql) {
          f := f.(incomplete := true);
        } else {
          var d := Describe.Analyze(g.u, sql, 0, 0, false);
          f := f.(sql := EncodeAll(d.text));
          if f.kind == Statement {
            f := f.(name := EncodeAll(d.summary));
          }
          if !d.valid || (TrimSpace(sql) != [] && d.text == "") {
            f := f.(incomplete := true);
          }
        }
      }
    }

    /** The stack work of finish: push a start, pop the start a finish closes, or give the scope up. */
    method PairRecord(e: Event) returns (f: Event)
      modifies this`stacks, this`sequence, this`incomplete, this`stackOverflow
      ensures (Pairs(), f) == Pair(old(Pairs()), e)
    {
      f := e;
      var key := e.Scope();
      var stack := if key in stacks then stacks[key] else [];
      if e.kind == Lifecycle {
        return e.(correlation := Unmatched);
      }
      if e.attachment == 0 || e.transaction == 0 {
        return e.(incomplete := true, correlation := Unmatched);
      }
      if e.kind == Statement && e.statement == 0 {
        incomplete := true;
        stacks := stacks - {key};
        return e.(incomplete := true, correlation := Unmatched);
      }
      if e.phase == Start {
        if (|stacks| >= MAX_SCOPES && |stack| == 0) || |stack| >= MAX_DEPTH {
          incomplete := true;
          stacks := map[];
          stackOverflow := true;
          stack := [];
          f := f.(incomplete := true);
        }
        sequence := sequence + 1;
        f := f.(sequence := sequence);
        if |stack| > 0 {
          f := f.(parent := stack[|stack| - 1].sequence);
        } else {
          f := f.(parent := 0);
        }
        stacks := stacks[key := stack + [Frame(e.kind, e.name, sequence, e.statement)]];
      } else if |stack| > 0 {
        var last := stack[|stack| - 1];
        if last.kind == e.kind && last.name == e.name && last.statement == e.statement {
          f := f.(sequence := last.sequence);
          stack := stack[..|stack| - 1];
          if |stack| > 0 {
            f := f.(parent := stack[|stack| - 1].sequence);
            stacks := stacks[key := stack];
          } else {
            f := f.(parent := 0);
            stacks := stacks - {key};
          }
        } else {
          f := f.(incomplete := true, correlation := Unmatched);
          incomplete := true;
          stacks := stacks - {key};
        }
      } else {
        f := f.(incomplete := true, correlation := Unmatched);
        incomplete := true;
      }
      f := f.(incomplete := f.incomplete || incomplete);
    }

    method Finish() returns (e: Option<Event>)
      modifies this
      ensures (Reading(), e) == Finished(g, old(Reading())) && LineKept()
    {
      hide Pair, WithSql;
      if current == None {
        return None;
      }
      var f := AddSql(current.value);
      current := None;
      sql := [];
      collectSQL := false;
      f := PairRecord(f);
      e := Some(f);
    }

    /** finish, and the gap that reports a stack overflow. */
    method Close() returns (out: seq<Event>)
      modifies this
      ensures (Reading(), out) == Closed(g, old(Reading())) && LineKept()
    {
      hide Finished;
      out := [];
      var e := Finish();
      if e.Some? {
        out := out + [e.value];
      }
      assert out == EventList(e);
      if stackOverflow {
        stackOverflow := false;
        var gap := Gap();
        out := out + [gap];
      }
    }

    method StageSql(l: Bytes) returns (out: seq<Event>)
      modifies this
      ensures (Reading(), out) == StageLine(g, old(Reading()), l) && LineKept()
    {
      hide ByteText.TrimSpace, Framing.Complete;
      var complete := Framing.Complete(g.u, sql);
      recordBytes := recordBytes + |l| + 1;
      if recordBytes > MAX_RECORD || |sql| + |l| + 1 > MAX_RECORD {
        var e := Gap();
        return [e];
      }
      sql := sql + l + [NEWLINE];
      sqlSeparated := TrimSpace(l) == [] && complete;
      out := [];
    }

    method StartRecord(h: Header) returns (out: seq<Event>)
      modifies this
      ensures (Reading(), out) == HeaderLine(g, old(Reading()), h) && LineKept()
    {
      hide Closed, KindOf, ByteText.TrimSpace;
      out := Close();
      var kind := KindOf(TrimSpace(h.event));
      if kind == None {
        var e := Gap();
        return out + [e.(name := UNSUPPORTED_EVENT)];
      }
      if !g.validTime(h.timestamp) {
        var e := Gap();
        return out + [e.(name := INVALID_TIMESTAMP)];
      }
      OpenRecord(NewRecord(kind.value.0, kind.value.1, h.timestamp, incomplete));
    }

    method OpenRecord(e: Event)
      modifies this`current, this`recordBytes, this`tableWidth, this`metadataHeader, this`planSection,
               this`performanceSection
      ensures Reading() == old(Reading()).(
        current := Some(e), recordBytes := 0, tableWidth := 0, metadataHeader := true,
                                           planSection := false, performanceSection := false)
    {
      current := Some(e);
      recordBytes := 0;
      tableWidth := 0;
      metadataHeader := true;
      planSection := false;
      performanceSection := false;
    }

    /** The identity lines of a record; `done` says that the line was one of them. */
    method ReadMetadata(l: Bytes) returns (done: bool)
      requires current.Some?
      modifies this`current, this`metadataHeader
      ensures done <==> MetadataLine(g, old(Reading()), old(current.value), l).Some?
      ensures Reading() == if done then MetadataLine(g, old(Reading()), old(current.value), l).value else old(Reading())
    {
      hide ByteText.TrimSpace, NameLine, Label;
      var trim := TrimSpace(l);
      var e := current.value;
      done := true;
      if metadataHeader && e.attachment == 0 && g.attachment(l).Some? {
        current := Some(e.(attachment := g.attachment(l).value));
      } else if metadataHeader && e.attachment != 0 && e.transaction == 0 && g.transaction(l).Some? {
        current := Some(e.(transaction := g.transaction(l).value));
      } else if metadataHeader && e.kind == Statement && g.statement(trim).Some? {
        metadataHeader := false;
        current := Some(e.(statement := g.statement(trim).value));
      } else if metadataHeader && Label(e.kind).Some? && HasPrefix(trim, Label(e.kind).value) {
        metadataHeader := false;
        current := Some(NameLine(g, e, trim[|Label(e.kind).value|..]));
      } else {
        done := false;
      }
    }

    method ReadSection(l: Bytes)
      requires current.Some?
      modifies this`current, this`tableWidth, this`planSection, this`performanceSection
      ensures Reading() == SectionLine(g, old(Reading()), old(current.value), l)
    {
      hide ByteText.TrimSpace, HasPrefix, SetCounters, Rows.ReadRow;
      var trim := TrimSpace(l);
      var e := current.value;
      if performanceSection && g.columnStart(l).Some? {
        tableWidth := g.columnStart(l).value;
      } else if tableWidth >= 32 && |l| >= tableWidth + 80 && !HasPrefix(l, Ascii("***")) {
        var row := Rows.TableCounterRow(l, tableWidth, g.control);
        if row.Some? && |e.tables| < MAX_TABLES {
          current := Some(e.(tables := e.tables + [Table(row.value.name, row.value.values)]));
        } else {
          current := Some(e.(incomplete := true));
        }
      } else if g.parameter(l) || trim == Ascii("returns:") || g.rowCount(trim) {
        planSection := false;
      } else if g.performance(trim) {
        performanceSection := true;
        planSection := false;
        e := ReadCounters(e, g.counters(trim));
        current := Some(e);
      }
    }

    method ReadCounters(e: Event, values: seq<(Counter, nat)>) returns (f: Event)
      ensures f == SetCounters(e, values)
    {
      f := e;
      var i := 0;
      while i < |values|
        invariant i <= |values| && f == SetCounters(e, values[..i])
      {
        assert values[..i + 1][..i] == values[..i];
        var (c, v) := values[i];
        match c {
          case Milliseconds => f := f.(durationMS := v);
          case PagesRead => f := f.(pageReads := v);
          case PagesWritten => f := f.(pageWrites := v);
          case PagesFetched => f := f.(pageFetches := v);
          case PagesMarked => f := f.(pageMarks := v);
        }
        i := i + 1;
      }
      assert values[..i] == values;
    }

    method ReadBody(l: Bytes)
      requires current.Some?
      modifies this
      ensures Reading() == BodyLine(g, old(Reading()), old(current.value), l) && LineKept()
    {
      hide ByteText.TrimSpace, HasPrefix, MetadataLine, SectionLine, ClassicPlanLine, ExplainedPlanLine;
      var trim := TrimSpace(l);
      var done := ReadMetadata(l);
      if done {
      } else if HasPrefix(trim, Ascii("---")) {
        collectSQL := true;
        sqlSeparated := false;
        metadataHeader := false;
      } else if HasPrefix(trim, Ascii("^^^")) {
        planSection := true;
      } else if trim == [] {
        planSection := false;
      } else if planSection && HasPrefix(trim, Ascii("PLAN ")) {
        current := Some(ClassicPlanLine(g, current.value, trim));
      } else if planSection && (trim == Ascii("Select Expression") || current.value.planFormat == Explained) {
        ReadExplained(l);
      } else {
        ReadSection(l);
      }
    }

    method ReadExplained(l: Bytes)
      requires current.Some?
      modifies this`current, this`planSection
      ensures Reading() == ExplainedPlanLine(g, old(Reading()), old(current.value), l)
    {
      hide SafePlanLine;
      var e := current.value;
      if SafePlanLine(g, l, e.plan == []) && |e.plan| + |l| + 1 <= Describe.MAX_OUTPUT {
        current := Some(e.(plan := if e.plan == [] then l else e.plan + [NEWLINE] + l, planFormat := Explained));
      } else {
        current := Some(e.(plan := [], planFormat := NoPlan, incomplete := true));
        planSection := false;
      }
    }

    /** Whether the line stands after the SQL text rather than in it. */
    method LeavesSql(l: Bytes) returns (ends: bool)
      ensures ends <==> EndsSql(g, Reading(), l)
    {
      hide ByteText.TrimSpace, Framing.Complete, Framing.MayEnd, HasPrefix, TerminalOperation;
      var trim := TrimSpace(l);
      var complete := Framing.Complete(g.u, sql);
      var mayEnd := complete && Framing.MayEnd(g.u, sql);
      var performanceBoundary := mayEnd && g.performance(trim) && TerminalOperation(g, sql);
      var metadataBoundary :=
        mayEnd && ((sqlSeparated && (g.parameter(l) || trim == Ascii("returns:"))) || g.rowCount(trim));
      var boundary := g.header(l).Some? || HasPrefix(trim, Ascii("^^^")) || metadataBoundary || performanceBoundary;
      ends := boundary && complete;
    }

    method Consume(l: Bytes) returns (out: seq<Event>)
      modifies this
      ensures (Reading(), out) == TraceMachine.Consume(g, old(Reading()), l) && LineKept()
    {
      hide EndsSql, StageLine, HeaderLine, BodyLine;
      if collectSQL {
        var ends := LeavesSql(l);
        if !ends {
          out := StageSql(l);
          return;
        }
        collectSQL := false;
        sqlSeparated := false;
      }
      var h := g.header(l);
      if h.Some? {
        out := StartRecord(h.value);
        return;
      }
      if current == None {
        return [];
      }
      recordBytes := recordBytes + |l| + 1;
      if recordBytes > MAX_RECORD {
        var e := Gap();
        return [e];
      }
      ReadBody(l);
      out := [];
    }

    method AddPiece(piece: Bytes) returns (out: seq<Event>)
      modifies this
      ensures (Now(), out) == Piece(old(Now()), piece) && emitted == old(emitted)
    {
      out := [];
      if !skipLine {
        if |line| + |piece| > MAX_RECORD {
          var e := Gap();
          out := [e];
          line := [];
          skipLine := true;
        } else {
          line := line + piece;
        }
      }
    }

    method AddNewline() returns (out: seq<Event>)
      modifies this
      ensures (Now(), out) == EndLine(g, old(Now())) && emitted == old(emitted)
    {
      hide TraceMachine.Consume;
      out := [];
      if !skipLine {
        out := Consume(TrimReturn(line));
      }
      line := [];
      skipLine := false;
    }

    /** The loop of Feed: line by line through the chunk. */
    method FeedLines(wire: Bytes) returns (out: seq<Event>)
      modifies this
      ensures (Now(), out) == TraceMachine.Feed(g, old(Now()), wire) && emitted == old(emitted)
    {
      hide TraceMachine.Feed, EndLine, Piece, Now, LineLength;
      out := [];
      var chunk := wire;
      ghost var goal := TraceMachine.Feed(g, Now(), wire);
      FeedStart(g, Now(), wire);
      while |chunk| > 0
        invariant goal == After(out, TraceMachine.Feed(g, Now(), chunk))
        invariant emitted == old(emitted)
        decreases |chunk|
      {
        var i := LineLength(chunk);
        FeedUnfold(g, Now(), chunk, out);
        var more := AddPiece(chunk[..i]);
        out := out + more;
        if i == |chunk| {
          return;
        }
        more := AddNewline();
        out := out + more;
        chunk := chunk[i + 1..];
      }
      FeedNothing(g, Now(), out);
    }

    /** Feed accepts arbitrary wire chunks; incomplete lines are capped. */
    method Feed(wire: Bytes) returns (out: seq<Event>)
      requires Valid()
      modifies this
      ensures (Now(), out) == TraceMachine.Feed(g, old(Now()), wire)
      ensures emitted == old(emitted) + out && Valid()
    {
      FeedKeepsOk(g, Now(), emitted, wire);
      hide ParserOk, TraceMachine.Feed;
      out := FeedLines(wire);
      emitted := emitted + out;
    }

    method FlushOpen() returns (out: seq<Event>)
      modifies this
      ensures (Reading(), out) == FlushRecord(g, old(Reading())) && LineKept()
    {
      hide Finished;
      out := [];
      var e := Finish();
      if e.Some? {
        out := [
          if e.value.kind != Lifecycle || e.value.phase != TraceFini then e.value.(incomplete := true) else e.value];
      }
      if stackOverflow {
        stackOverflow := false;
        var gap := Gap();
        out := out + [gap];
      }
      if |stacks| > 0 {
        var gap := Gap();
        out := out + [gap];
      }
    }

    method FlushLine() returns (out: seq<Event>)
      modifies this
      ensures (Reading(), out)
        == if old(line) != [] && !old(skipLine) then TraceMachine.Consume(g, old(Reading()), old(line))
           else (old(Reading()), [])
      ensures line == [] && skipLine == old(skipLine) && emitted == old(emitted)
    {
      hide TraceMachine.Consume;
      out := [];
      if line != [] && !skipLine {
        out := Consume(line);
      }
      line := [];
    }

    /** Flush ends the stream: whatever is still open leaves as incomplete. */
    method Flush() returns (out: seq<Event>)
      requires Valid()
      modifies this
      ensures (Now(), out) == TraceMachine.Flush(g, old(Now()))
      ensures emitted == old(emitted) + out && Valid()
    {
      FlushKeepsOk(g, Now(), emitted);
      hide ParserOk, TraceMachine.Consume, FlushRecord;
      out := FlushLine();
      var last := FlushOpen();
      out := out + last;
      emitted := emitted + out;
    }

    method Release() returns (out: seq<Event>)
      modifies this
      ensures (Reading(), out) == ReleaseFinished(g, old(Reading())) && LineKept()
    {
      hide Pair, WithSql;
      out := [];
      if current == None || collectSQL {
      } else if current.value.kind == Lifecycle && current.value.phase == TraceInit {
        var e := Finish();
        out := [e.value];
      } else if current.value.phase == TraceEvents.Finish && performanceSection {
        var e := Finish();
        out := [e.value.(incomplete := true)];
        if stackOverflow {
          stackOverflow := false;
          var gap := Gap();
          out := out + [gap];
        }
      }
    }

    /** FlushFinished releases a finished record during an idle stream. */
    method FlushFinished() returns (out: seq<Event>)
      requires Valid()
      modifies this
      ensures (Now(), out) == TraceMachine.FlushFinished(g, old(Now()))
      ensures emitted == old(emitted) + out && Valid()
    {
      FlushFinishedKeepsOk(g, Now(), emitted);
      hide ParserOk, ReleaseFinished;
      out := [];
      if line == [] {
        out := Release();
      }
      emitted := emitted + out;
    }
  }

  /** What is emitted after `out` was. */
  function After<T>(out: seq<Event>, r: (T, seq<Event>)): (T, seq<Event>) {
    (r.0, out + r.1)
  }

  lemma FeedUnfold(g: Grammar, s: State, chunk: Bytes, out: seq<Event>)
    requires chunk != []
    ensures var i := LineLength(chunk); var r := After(out, Piece(s, chunk[..i]));
      && (i == |chunk| ==> After(out, TraceMachine.Feed(g, s, chunk)) == r)
      && (i < |chunk| ==> (
          var ended := EndLine(g, r.0);
          After(out, TraceMachine.Feed(g, s, chunk))
          == After(r.1 + ended.1, TraceMachine.Feed(g, ended.0, chunk[i + 1..]))))
  {
    hide Piece, EndLine;
    var i := LineLength(chunk);
    if i < |chunk| {
      var (t, first) := Piece(s, chunk[..i]);
      var rest := TraceMachine.Feed(g, EndLine(g, t).0, chunk[i + 1..]).1;
      assert out + (first + EndLine(g, t).1 + rest) == out + first + EndLine(g, t).1 + rest;
    }
  }

  lemma FeedStart(g: Grammar, s: State, wire: Bytes)
    ensures TraceMachine.Feed(g, s, wire) == After([], TraceMachine.Feed(g, s, wire))
  {
    hide TraceMachine.Feed;
    assert [] + TraceMachine.Feed(g, s, wire).1 == TraceMachine.Feed(g, s, wire).1;
  }

  lemma FeedNothing(g: Grammar, s: State, out: seq<Event>)
    ensures After(out, TraceMachine.Feed(g, s, [])) == (s, out)
  {
    assert out + [] == out;
  }
}
