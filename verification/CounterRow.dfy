/** Reading one row of the Trace table counters (internal/traceparse/parser.go, tableCounterRow). */
module CounterRow {
  import opened Options
  import opened Utf8
  import opened ByteText

  const FIELDS: nat := 8
  const COLUMN: nat := 10
  const MAX_INT64: nat := 9223372036854775807

  datatype Candidate = Candidate(nameLen: nat, values: seq<int>)
  datatype Row = Row(name: Bytes, values: seq<int>)

  /** What is known of the counters right of the field being read. */
  datatype Partial = Partial(values: seq<int>, digits: seq<nat>, padded: seq<bool>)
  {
    predicate Valid() { |values| == |digits| == |padded| == FIELDS }

    function Set(field: nat, value: int, count: nat, pad: bool): Partial
      requires Valid() && field < FIELDS
    {
      Partial(values[field := value], digits[field := count], padded[field := pad])
    }

    function SetWide(field: nat, value: int, count: nat): Partial
      requires Valid() && field < FIELDS
    {
      Partial(values[field := value], digits[field := count], padded)
    }
  }

  const BLANK := Partial([0, 0, 0, 0, 0, 0, 0, 0], [0, 0, 0, 0, 0, 0, 0, 0],
                         [false, false, false, false, false, false, false, false])

  predicate IsDigit(b: byte) { 0x30 <= b <= 0x39 }

  predicate AllDigits(s: Bytes) { forall i :: 0 <= i < |s| ==> IsDigit(s[i]) }

  function Digit(b: byte): nat
    requires IsDigit(b)
  {
    b - 0x30
  }

  function Value(s: Bytes): (n: nat)
    requires AllDigits(s)
  {
    if s == [] then 0 else 10 * Value(s[..|s| - 1]) + Digit(s[|s| - 1])
  }

  /** strconv.ParseInt with base 10 and 64 bits. */
  function ParseInt(s: Bytes): Option<int> {
    var signed := s != [] && (s[0] == 0x2B || s[0] == 0x2D);
    var digits := if signed then s[1..] else s;
    if digits == [] || !AllDigits(digits) then None else
    var value: int := Value(digits);
    if signed && s[0] == 0x2D then (if value > MAX_INT64 + 1 then None else Some(-value))
    else if value > MAX_INT64 then None else Some(value)
  }

  function TrimBlanks(s: Bytes): Bytes {
    if s != [] && s[0] == SPACE then TrimBlanks(s[1..]) else s
  }

  /** Where the run of digits that ends at `end` begins. */
  function RunStart(line: Bytes, end: nat): (start: nat)
    requires end <= |line|
    ensures start <= end && AllDigits(line[start..end])
    ensures start > 0 ==> !IsDigit(line[start - 1])
  {
    if end > 0 && IsDigit(line[end - 1]) then
      var start := RunStart(line, end - 1);
      assert forall i :: 0 <= i < end - start ==> line[start..end][i] == line[start + i];
      assert forall i :: start <= i < end - 1 ==> line[i] == line[start..end - 1][i - start];
      start
    else end
  }

  /** Two adjacent counters without a blank between them, one of them wider than its column. */
  predicate Clash(p: Partial, i: nat)
    requires p.Valid() && i < FIELDS - 1
  {
    p.digits[i] > 0 && p.digits[i + 1] > 0 && !p.padded[i + 1] && (p.digits[i] > COLUMN || p.digits[i + 1] > COLUMN)
  }

  predicate Ambiguous(p: Partial)
    requires p.Valid()
  {
    exists i :: 0 <= i < FIELDS - 1 && Clash(p, i)
  }

  predicate CounterOverflow(line: Bytes, width: nat, end: nat)
    requires width > 0 && end <= |line|
  {
    end > width && line[width - 1] == SPACE && AllDigits(line[width..end])
  }

  predicate MetadataName(name: Bytes, control: char -> bool) {
    0 < |name| <= 256 && Utf8.Valid(name) && forall i :: 0 <= i < |Decode(name)| ==> !control(Decode(name)[i])
  }

  predicate Accepts(line: Bytes, width: nat, control: char -> bool, end: nat, p: Partial)
    requires width > 0 && end <= |line| && p.Valid()
  {
    && !Ambiguous(p) && !CounterOverflow(line, width, end)
    && end >= width && MetadataName(TrimSpace(line[..end]), control)
  }

  /** What a column of ten bytes may hold: blanks alone, or blanks and a number. */
  function ReadColumn(fixed: Bytes): Option<(int, nat)> {
    var trimmed := TrimSpace(fixed);
    if trimmed == [] then Some((0, 0))
    else if ParseInt(trimmed).Some? && TrimBlanks(fixed) == trimmed then Some((ParseInt(trimmed).value, |trimmed|))
    else None
  }

  /**
   * A reading leaves `width` bytes for the name, spends a column or more on each counter and keeps those already
   * read.
   */
  predicate Fits(c: Candidate, width: nat, fields: nat, end: nat, p: Partial)
    requires p.Valid()
  {
    && width <= c.nameLen && c.nameLen + 10 * fields <= end && |c.values| == FIELDS
    && forall j :: fields <= j < FIELDS ==> c.values[j] == p.values[j]
  }

  /** Every reading of the first `fields` counters that end at `end`, in the order they are tried. */
  function Readings(
      line: Bytes, width: nat, control: char -> bool, fields: nat, end: nat, p: Partial): (found: seq<Candidate>)
    requires width > 0 && fields <= FIELDS && end <= |line| && p.Valid()
    ensures end < width + 10 * fields ==> found == []
    ensures forall c :: c in found ==> Fits(c, width, fields, end, p)
    decreases fields
  {
    if fields == 0 then
      if Accepts(line, width, control, end, p) then [Candidate(end, p.values)] else []
    else if end < COLUMN then []
    else
      FixedReadings(line, width, control, fields, end, p) + WideReadings(line, width, control, fields, end, p)
  }

  function FixedReadings(
      line: Bytes, width: nat, control: char -> bool, fields: nat, end: nat, p: Partial): (found: seq<Candidate>)
    requires width > 0 && 0 < fields <= FIELDS && COLUMN <= end <= |line| && p.Valid()
    ensures end < width + 10 * fields ==> found == []
    ensures forall c :: c in found ==> Fits(c, width, fields, end, p)
    decreases fields, 0
  {
    hide ReadColumn;
    match ReadColumn(line[end - COLUMN..end])
    case None => []
    case Some((value, count)) =>
      var q := if count == 0 then p else p.Set(fields - 1, value, count, count < COLUMN);
      Readings(line, width, control, fields - 1, end - COLUMN, q)
  }

  function WideReadings(
      line: Bytes, width: nat, control: char -> bool, fields: nat, end: nat, p: Partial): (found: seq<Candidate>)
    requires width > 0 && 0 < fields <= FIELDS && COLUMN <= end <= |line| && p.Valid()
    ensures end <= width + 10 * fields ==> found == []
    ensures forall c :: c in found ==> Fits(c, width, fields, end, p)
    decreases fields, 0
  {
    var start := RunStart(line, end);
    if end - start > COLUMN && ParseInt(line[start..end]).Some? then
      Readings(line, width, control, fields - 1, start,
               p.SetWide(fields - 1, ParseInt(line[start..end]).value, end - start))
    else []
  }

  /** The first reading with the shortest name. */
  function Best(found: seq<Candidate>): (best: Candidate)
    requires found != []
    ensures best in found
    ensures forall c :: c in found ==> best.nameLen <= c.nameLen
  {
    if |found| == 1 then found[0]
    else
      var best := Best(found[..|found| - 1]);
      if found[|found| - 1].nameLen < best.nameLen then found[|found| - 1] else best
  }

  function ReadRow(line: Bytes, width: nat, control: char -> bool): Option<Row>
    requires width > 0
  {
    var found := Readings(line, width, control, FIELDS, |line|, BLANK);
    if found == [] then None
    else Some(Row(TrimSpace(line[..Best(found).nameLen]), Best(found).values))
  }

  method FindRunStart(line: Bytes, end: nat) returns (start: nat)
    requires end <= |line|
    ensures start == RunStart(line, end)
  {
    start := end;
    while start > 0 && IsDigit(line[start - 1])
      invariant start <= end && RunStart(line, end) == RunStart(line, start)
    {
      start := start - 1;
    }
  }

  method IsAmbiguous(p: Partial) returns (ambiguous: bool)
    requires p.Valid()
    ensures ambiguous == Ambiguous(p)
  {
    ambiguous := false;
    var i := 0;
    while i < FIELDS - 1
      invariant i <= FIELDS - 1 && !ambiguous
      invariant forall k :: 0 <= k < i ==> !Clash(p, k)
    {
      if Clash(p, i) {
        return true;
      }
      i := i + 1;
    }
  }

  /** The recursive search: every reading is appended to the candidates found so far. */
  method Parse(
      line: Bytes, width: nat, control: char -> bool, fields: nat, end: nat, p: Partial, candidates: seq<Candidate>)
    returns (found: seq<Candidate>)
    requires width > 0 && fields <= FIELDS && end <= |line| && p.Valid()
    ensures found == candidates + Readings(line, width, control, fields, end, p)
    decreases fields, 1
  {
    hide Ambiguous, CounterOverflow, MetadataName, ByteText.TrimSpace, FixedReadings, WideReadings;
    found := candidates;
    if fields == 0 {
      var ambiguous := IsAmbiguous(p);
      if !ambiguous && !CounterOverflow(line, width, end) && end >= width
        && MetadataName(TrimSpace(line[..end]), control) {
        found := found + [Candidate(end, p.values)];
      }
    } else if end >= COLUMN {
      found := ParseFixed(line, width, control, fields, end, p, found);
      found := ParseWide(line, width, control, fields, end, p, found);
    }
  }

  method ParseFixed(
      line: Bytes, width: nat, control: char -> bool, fields: nat, end: nat, p: Partial, candidates: seq<Candidate>)
    returns (found: seq<Candidate>)
    requires width > 0 && 0 < fields <= FIELDS && COLUMN <= end <= |line| && p.Valid()
    ensures found == candidates + FixedReadings(line, width, control, fields, end, p)
    decreases fields, 0
  {
    hide Readings, ByteText.TrimSpace, ParseInt, TrimBlanks;
    found := candidates;
    var fixed := line[end - COLUMN..end];
    var trimmed := TrimSpace(fixed);
    if trimmed == [] {
      found := Parse(line, width, control, fields - 1, end - COLUMN, p, found);
    } else if ParseInt(trimmed).Some? && TrimBlanks(fixed) == trimmed {
      var next := p.Set(fields - 1, ParseInt(trimmed).value, |trimmed|, |trimmed| < |fixed|);
      found := Parse(line, width, control, fields - 1, end - COLUMN, next, found);
    }
  }

  method ParseWide(
      line: Bytes, width: nat, control: char -> bool, fields: nat, end: nat, p: Partial, candidates: seq<Candidate>)
    returns (found: seq<Candidate>)
    requires width > 0 && 0 < fields <= FIELDS && COLUMN <= end <= |line| && p.Valid()
    ensures found == candidates + WideReadings(line, width, control, fields, end, p)
    decreases fields, 0
  {
    hide Readings, ParseInt, RunStart;
    found := candidates;
    var start := FindRunStart(line, end);
    if end - start > COLUMN && ParseInt(line[start..end]).Some? {
      var next := p.SetWide(fields - 1, ParseInt(line[start..end]).value, end - start);
      found := Parse(line, width, control, fields - 1, start, next, found);
    }
  }

  method TableCounterRow(line: Bytes, width: nat, control: char -> bool) returns (row: Option<Row>)
    requires width > 0
    ensures row == ReadRow(line, width, control)
  {
    hide Readings, ByteText.TrimSpace;
    var candidates := Parse(line, width, control, FIELDS, |line|, BLANK, []);
    assert candidates == Readings(line, width, control, FIELDS, |line|, BLANK);
    if candidates == [] {
      return None;
    }
    var best := FirstShortest(candidates);
    return Some(Row(TrimSpace(line[..best.nameLen]), best.values));
  }

  method FirstShortest(candidates: seq<Candidate>) returns (best: Candidate)
    requires candidates != []
    ensures best == Best(candidates)
  {
    best := candidates[0];
    var i := 1;
    while i < |candidates|
      invariant 1 <= i <= |candidates| && best == Best(candidates[..i])
    {
      assert candidates[..i + 1][..i] == candidates[..i];
      if candidates[i].nameLen < best.nameLen {
        best := candidates[i];
      }
      i := i + 1;
    }
    assert candidates[..i] == candidates;
  }
}
