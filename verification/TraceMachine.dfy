/** The text-Trace parser as a machine over lines (internal/traceparse/parser.go, Parser). */
module TraceMachine {
  import opened Options
  import opened Utf8
  import opened ByteText
  import opened SqlScan
  import Describe = SqlDescribe
  import Framing = SqlFraming
  import Rows = CounterRow
  import opened TraceEvents
  import opened TracePairing

  const MAX_RECORD: nat := 65536
  const MAX_TABLES: nat := 64
  const MAX_PLAN_LINE: nat := 512
  const UNSUPPORTED_EVENT: Bytes := Ascii("unsupported_event")
  const INVALID_TIMESTAMP: Bytes := Ascii("invalid_timestamp")

  datatype Header = Header(timestamp: Bytes, event: Bytes)
  datatype Counter = Milliseconds | PagesRead | PagesWritten | PagesFetched | PagesMarked

  /** The line shapes that regular expressions and small scans recognise, and the library facts behind them. */
  datatype Grammar = Grammar(
    u: Platform,
    control: char -> bool,
    header: Bytes -> Option<Header>,
    validTime: Bytes -> bool,
    attachment: Bytes -> Option<nat>,
    transaction: Bytes -> Option<nat>,
    statement: Bytes -> Option<nat>,
    scopeMarker: Bytes -> Option<Bytes>,
    parameter: Bytes -> bool,
    rowCount: Bytes -> bool,
    performance: Bytes -> bool,
    counters: Bytes -> seq<(Counter, nat)>,
    triggerName: Bytes -> Bytes,
    columnStart: Bytes -> Option<nat>)

  /** What reading complete lines works on. */
  datatype Reader = Reader(
    current: Option<Event>,
    sql: Bytes,
    collectSQL: bool,
    sqlSeparated: bool,
    metadataHeader: bool,
    planSection: bool,
    performanceSection: bool,
    tableWidth: nat,
    recordBytes: nat,
    pairing: Pairing)

  /** The parser: a line that has come in part, and the reader of complete ones. */
  datatype State = State(line: Bytes, skipLine: bool, reader: Reader)

  const START := State([], false, Reader(None, [], false, false, false, false, false, 0, 0, EMPTY))

  /** Gap. */
  function Lost(s: Reader): Reader {
    s.(pairing := s.pairing.Lose(), current := None, sql := [], collectSQL := false, sqlSeparated := false)
  }

  // ---- the end of a record

  /** What the staged SQL says about a record. */
  function WithSql(g: Grammar, e: Event, sql: Bytes): Event {
    if sql == [] then e else
    var marked := if e.kind == Statement && g.scopeMarker(TrimSpace(sql)).Some?
                  then e.(scopeToken := g.scopeMarker(TrimSpace(sql)).value) else e;
    if Describe.HasTerminalEllipsis(g.u, sql) then marked.(incomplete := true) else
    var d := Describe.Analyze(g.u, sql, 0, 0, false);
    marked.(
      sql := EncodeAll(d.text),
      name := if e.kind == Statement then EncodeAll(d.summary) else e.name,
      incomplete := e.incomplete || !d.valid || (TrimSpace(sql) != [] && d.text == ""))
  }

  /** finish: the record, paired, leaves the parser. */
  function Finished(g: Grammar, s: Reader): (Reader, Option<Event>) {
    if s.current.None? then (s, None) else
    var (p, e) := Pair(s.pairing, WithSql(g, s.current.value, s.sql));
    (s.(current := None, sql := [], collectSQL := false, pairing := p), Some(e))
  }

  function EventList(e: Option<Event>): seq<Event> {
    if e.None? then [] else [e.value]
  }

  /** finish and the gap that reports a stack overflow. */
  function Closed(g: Grammar, s: Reader): (Reader, seq<Event>) {
    var (t, e) := Finished(g, s);
    if t.pairing.overflow then (Lost(t.(pairing := t.pairing.(overflow := false))), EventList(e) + [GAP])
    else (t, EventList(e))
  }

  // ---- SQL lines

  predicate TerminalOperation(g: Grammar, sql: Bytes) {
    Describe.LeadingOperation(g.u, sql) in
      {"CREATE", "ALTER", "DROP", "RECREATE", "DECLARE", "GRANT", "REVOKE", "COMMENT", "COMMIT", "ROLLBACK",
       "SAVEPOINT", "RELEASE", "SET", "EXECUTE BLOCK", "EXECUTE PROCEDURE"}
  }

  /** The line is shaped like what follows a statement, and the statement may end in front of it. */
  predicate EndsSql(g: Grammar, s: Reader, line: Bytes) {
    var trim := TrimSpace(line);
    var mayEnd := Framing.MayEnd(g.u, s.sql);
    && Framing.Complete(g.u, s.sql)
    && (|| g.header(line).Some? || HasPrefix(trim, Ascii("^^^"))
        || (mayEnd && ((s.sqlSeparated && (g.parameter(line) || trim == Ascii("returns:"))) || g.rowCount(trim)))
        || (mayEnd && g.performance(trim) && TerminalOperation(g, s.sql)))
  }

  function StageLine(g: Grammar, s: Reader, line: Bytes): (Reader, seq<Event>) {
    var t := s.(recordBytes := s.recordBytes + |line| + 1);
    if t.recordBytes > MAX_RECORD || |s.sql| + |line| + 1 > MAX_RECORD then (Lost(t), [GAP])
    else (t.(sql := s.sql + line + [NEWLINE],
             sqlSeparated := TrimSpace(line) == [] && Framing.Complete(g.u, s.sql)), [])
  }

  // ---- header lines

  function KindOf(event: Bytes): Option<(Kind, Phase)> {
    if event == Ascii("EXECUTE_STATEMENT_START") then Some((Statement, Phase.Start))
    else if event == Ascii("EXECUTE_STATEMENT_FINISH") then Some((Statement, Finish))
    else if event == Ascii("EXECUTE_PROCEDURE_START") then Some((Procedure, Phase.Start))
    else if event == Ascii("EXECUTE_PROCEDURE_FINISH") then Some((Procedure, Finish))
    else if event == Ascii("EXECUTE_FUNCTION_START") then Some((Function, Phase.Start))
    else if event == Ascii("EXECUTE_FUNCTION_FINISH") then Some((Function, Finish))
    else if event == Ascii("EXECUTE_TRIGGER_START") then Some((Trigger, Phase.Start))
    else if event == Ascii("EXECUTE_TRIGGER_FINISH") then Some((Trigger, Finish))
    else if event == Ascii("TRACE_INIT") then Some((Lifecycle, TraceInit))
    else if event == Ascii("TRACE_FINI") then Some((Lifecycle, TraceFini))
    else None
  }

  function HeaderLine(g: Grammar, s: Reader, h: Header): (Reader, seq<Event>) {
    var (t, out) := Closed(g, s);
    var kind := KindOf(TrimSpace(h.event));
    if kind.None? then (Lost(t), out + [GAP.(name := UNSUPPORTED_EVENT)])
    else if !g.validTime(h.timestamp) then (Lost(t), out + [GAP.(name := INVALID_TIMESTAMP)])
    else
      (t.(current := Some(NewRecord(kind.value.0, kind.value.1, h.timestamp, t.pairing.incomplete)),
          recordBytes := 0, tableWidth := 0, metadataHeader := true, planSection := false,
          performanceSection := false), out)
  }

  // ---- lines of a record

  /** The label that names the object of a record of this kind. */
  function Label(kind: Kind): Option<Bytes> {
    match kind
    case Procedure => Some(Ascii("Procedure "))
    case Function => Some(Ascii("Function "))
    case Trigger => Some(Ascii("Trigger "))
    case _ => None
  }

  function TrimColon(s: Bytes): Bytes {
    if HasSuffix(s, Ascii(":")) then s[..|s| - 1] else s
  }

  function NameLine(g: Grammar, e: Event, rest: Bytes): Event {
    var name := if e.kind == Trigger then g.triggerName(TrimColon(rest)) else TrimColon(rest);
    if Describe.Identifier(g.u, name) then e.(name := name) else e.(incomplete := true)
  }

  function ClassicPlanLine(g: Grammar, e: Event, trim: Bytes): Event {
    var d := Describe.Analyze(g.u, trim, 0, 0, false);
    var text := EncodeAll(d.text);
    if !d.valid || d.text == "" then e.(incomplete := true)
    else if e.plan == [] then e.(planFormat := Classic, plan := text)
    else if |e.plan| + 1 + |text| <= Describe.MAX_OUTPUT then
      e.(planFormat := Classic, plan := e.plan + [NEWLINE] + text)
    else e.(planFormat := Classic, incomplete := true)
  }

  predicate KnownExplainedNode(node: Bytes) {
    || node in {Ascii("Filter"), Ascii("Bitmap"), Ascii("Bitmap And"), Ascii("Bitmap Or"), Ascii("DBKEY"),
                Ascii("Singular"),
                Ascii("Aggregate"), Ascii("Union"), Ascii("Recursive Union")}
    || HasPrefix(node, Ascii("First ")) || HasPrefix(node, Ascii("Skip ")) || HasPrefix(node, Ascii("Sort ("))
    || HasPrefix(node, Ascii("Table \"")) || HasPrefix(node, Ascii("Index \""))
    || HasPrefix(node, Ascii("Procedure \""))
    || HasPrefix(node, Ascii("Function \"")) || HasPrefix(node, Ascii("Nested Loop Join"))
    || HasPrefix(node, Ascii("Hash Join"))
    || HasPrefix(node, Ascii("Merge Join")) || HasPrefix(node, Ascii("Window"))
    || HasPrefix(node, Ascii("Record Buffer"))
    || HasPrefix(node, Ascii("Materialize"))
  }

  predicate Contains(s: Bytes, p: Bytes) {
    exists i :: 0 <= i <= |s| - |p| && HasPrefix(s[i..], p)
  }

  predicate ForbiddenInPlan(node: Bytes) {
    || Contains(node, Ascii("'")) || Contains(node, [13]) || Contains(node, [9]) || Contains(node, Ascii(";"))
    || Contains(node, Ascii("{")) || Contains(node, Ascii("}"))
    || Contains(node, Ascii("--")) || Contains(node, Ascii("/*")) || Contains(node, Ascii("*/"))
  }

  function Indent(line: Bytes): (n: nat)
    ensures n <= |line|
    ensures forall i :: 0 <= i < n ==> line[i] == SPACE
  {
    if line != [] && line[0] == SPACE then 1 + Indent(line[1..]) else 0
  }

  /** explainedPlanLine: a line of the explained plan that may be kept as it is. */
  predicate SafePlanLine(g: Grammar, line: Bytes, root: bool) {
    if root then line == Ascii("Select Expression") else
    var indent := Indent(line);
    && |line| <= MAX_PLAN_LINE
    && 4 <= indent <= 64 && indent % 4 == 0 && HasPrefix(line[indent..], Ascii("-> "))
    && var node := line[indent + 3..];
       && KnownExplainedNode(node) && !ForbiddenInPlan(node)
       && var d := Describe.Analyze(g.u, node, 512, 512, true);
          d.valid && d.text != ""
          && forall i :: 0 <= i < |Decode(node)| ==> !g.control(Decode(node)[i])
  }

  function ExplainedPlanLine(g: Grammar, s: Reader, e: Event, line: Bytes): Reader {
    if SafePlanLine(g, line, e.plan == []) && |e.plan| + |line| + 1 <= Describe.MAX_OUTPUT then
      var plan := if e.plan == [] then line else e.plan + [NEWLINE] + line;
      s.(current := Some(e.(plan := plan, planFormat := Explained)))
    else
      s.(current := Some(e.(plan := [], planFormat := NoPlan, incomplete := true)), planSection := false)
  }

  function CounterLine(g: Grammar, s: Reader, e: Event, line: Bytes): Event
    requires s.tableWidth > 0
  {
    var row := Rows.ReadRow(line, s.tableWidth, g.control);
    if row.Some? && |e.tables| < MAX_TABLES then e.(tables := e.tables + [Table(row.value.name, row.value.values)])
    else e.(incomplete := true)
  }

  function SetCounters(e: Event, values: seq<(Counter, nat)>): Event {
    if values == [] then e else
    var (c, v) := values[|values| - 1];
    var f := SetCounters(e, values[..|values| - 1]);
    match c
    case Milliseconds => f.(durationMS := v)
    case PagesRead => f.(pageReads := v)
    case PagesWritten => f.(pageWrites := v)
    case PagesFetched => f.(pageFetches := v)
    case PagesMarked => f.(pageMarks := v)
  }

  /** Identity lines: attachment, transaction, statement, object name. */
  function MetadataLine(g: Grammar, s: Reader, e: Event, line: Bytes): Option<Reader> {
    var trim := TrimSpace(line);
    if !s.metadataHeader then None
    else if e.attachment == 0 && g.attachment(line).Some? then
      Some(s.(current := Some(e.(attachment := g.attachment(line).value))))
    else if e.attachment != 0 && e.transaction == 0 && g.transaction(line).Some? then
      Some(s.(current := Some(e.(transaction := g.transaction(line).value))))
    else if e.kind == Statement && g.statement(trim).Some? then
      Some(s.(current := Some(e.(statement := g.statement(trim).value)), metadataHeader := false))
    else if Label(e.kind).Some? && HasPrefix(trim, Label(e.kind).value) then
      Some(s.(current := Some(NameLine(g, e, trim[|Label(e.kind).value|..])), metadataHeader := false))
    else None
  }

  /** Lines that start or end a section, and lines of the performance section. */
  function SectionLine(g: Grammar, s: Reader, e: Event, line: Bytes): Reader {
    var trim := TrimSpace(line);
    if s.performanceSection && g.columnStart(line).Some? then s.(tableWidth := g.columnStart(line).value)
    else if s.tableWidth >= 32 && |line| >= s.tableWidth + 80 && !HasPrefix(line, Ascii("***")) then
      s.(current := Some(CounterLine(g, s, e, line)))
    else if g.parameter(line) || trim == Ascii("returns:") || g.rowCount(trim) then s.(planSection := false)
    else if g.performance(trim) then
      s.(current := Some(SetCounters(e, g.counters(trim))), performanceSection := true, planSection := false)
    else s
  }

  /** A line of a record, outside its SQL text. */
  function BodyLine(g: Grammar, s: Reader, e: Event, line: Bytes): Reader {
    var trim := TrimSpace(line);
    var metadata := MetadataLine(g, s, e, line);
    if metadata.Some? then metadata.value
    else if HasPrefix(trim, Ascii("---")) then s.(collectSQL := true, sqlSeparated := false, metadataHeader := false)
    else if HasPrefix(trim, Ascii("^^^")) then s.(planSection := true)
    else if trim == [] then s.(planSection := false)
    else if s.planSection && HasPrefix(trim, Ascii("PLAN ")) then s.(current := Some(ClassicPlanLine(g, e, trim)))
    else if s.planSection && (trim == Ascii("Select Expression") || e.planFormat == Explained) then
      ExplainedPlanLine(g, s, e, line)
    else SectionLine(g, s, e, line)
  }

  function RecordLine(g: Grammar, s: Reader, line: Bytes): (Reader, seq<Event>) {
    var h := g.header(line);
    if h.Some? then HeaderLine(g, s, h.value)
    else if s.current.None? then (s, [])
    else
      var t := s.(recordBytes := s.recordBytes + |line| + 1);
      if t.recordBytes > MAX_RECORD then (Lost(t), [GAP]) else (BodyLine(g, t, s.current.value, line), [])
  }

  /** consume: one complete line. */
  function Consume(g: Grammar, s: Reader, line: Bytes): (Reader, seq<Event>) {
    if s.collectSQL && !EndsSql(g, s, line) then StageLine(g, s, line)
    else RecordLine(g, if s.collectSQL then s.(collectSQL := false, sqlSeparated := false) else s, line)
  }

  // ---- chunks

  function LineLength(chunk: Bytes): (n: nat)
    ensures n <= |chunk|
    ensures NEWLINE !in chunk[..n]
    ensures n < |chunk| ==> chunk[n] == NEWLINE
  {
    if chunk == [] || chunk[0] == NEWLINE then 0
    else
      assert chunk[..1 + LineLength(chunk[1..])] == [chunk[0]] + chunk[1..][..LineLength(chunk[1..])];
      1 + LineLength(chunk[1..])
  }

  /** A piece of a line, without its newline. */
  function Piece(s: State, piece: Bytes): (State, seq<Event>) {
    if s.skipLine then (s, [])
    else if |s.line| + |piece| > MAX_RECORD then (State([], true, Lost(s.reader)), [GAP])
    else (s.(line := s.line + piece), [])
  }

  /** The newline that ends a line. */
  function EndLine(g: Grammar, s: State): (State, seq<Event>) {
    if s.skipLine then (State([], false, s.reader), []) else
    var (r, out) := Consume(g, s.reader, TrimReturn(s.line));
    (State([], false, r), out)
  }

  /** Feed: an arbitrary chunk of the wire. */
  function Feed(g: Grammar, s: State, chunk: Bytes): (State, seq<Event>)
    decreases |chunk|
  {
    if chunk == [] then (s, []) else
    var n := LineLength(chunk);
    var (t, first) := Piece(s, chunk[..n]);
    if n == |chunk| then (t, first) else
    var (v, second) := EndLine(g, t);
    var (w, rest) := Feed(g, v, chunk[n + 1..]);
    (w, first + second + rest)
  }

  /** The record that was open and the gaps for whatever else was. */
  function FlushRecord(g: Grammar, s: Reader): (Reader, seq<Event>) {
    var (v, e) := Finished(g, s);
    var last := if e.Some? && !(e.value.kind == Lifecycle && e.value.phase == TraceFini)
                then [e.value.(incomplete := true)] else EventList(e);
    var (w, lost) :=
      if v.pairing.overflow then (Lost(v.(pairing := v.pairing.(overflow := false))), last + [GAP]) else (v, last);
    if |w.pairing.stacks| > 0 then (Lost(w), lost + [GAP]) else (w, lost)
  }

  /** Flush: the end of the stream. */
  function Flush(g: Grammar, s: State): (State, seq<Event>) {
    var (r, first) := if s.line != [] && !s.skipLine then Consume(g, s.reader, s.line) else (s.reader, []);
    var (v, last) := FlushRecord(g, r);
    (State([], s.skipLine, v), first + last)
  }

  /** The record an idle stream releases. */
  function ReleaseFinished(g: Grammar, s: Reader): (Reader, seq<Event>) {
    if s.current.None? || s.collectSQL then (s, [])
    else if s.current.value.kind == Lifecycle && s.current.value.phase == TraceInit then
      var (t, e) := Finished(g, s); (t, EventList(e))
    else if s.current.value.phase != Finish || !s.performanceSection then (s, [])
    else
      var (t, e) := Finished(g, s);
      var last := [e.value.(incomplete := true)];
      if t.pairing.overflow then (Lost(t.(pairing := t.pairing.(overflow := false))), last + [GAP]) else (t, last)
  }

  /** FlushFinished. */
  function FlushFinished(g: Grammar, s: State): (State, seq<Event>) {
    if s.line != [] then (s, []) else
    var (r, out) := ReleaseFinished(g, s.reader);
    (s.(reader := r), out)
  }
}
