/** Rows with one counter too wide for its column: read back exactly when the counter on its left is blank. */
module CounterWide {
  import opened Options
  import opened Utf8
  import opened ByteText
  import opened CounterRow
  import opened CounterPrint

  /** One 64-bit counter of eleven digits or more among counters of at most nine. */
  ghost predicate OneWide(cs: seq<nat>, w: nat) {
    && |cs| == FIELDS && w < FIELDS && TEN_DIGITS <= cs[w] <= MAX_INT64
    && forall j :: 0 <= j < FIELDS && j != w ==> cs[j] < NINE_DIGITS
  }

  predicate LeftBlank(cs: seq<nat>, w: nat)
    requires w < |cs|
  {
    w == 0 || cs[w - 1] == 0
  }

  lemma NarrowOthers(cs: seq<nat>, w: nat)
    requires OneWide(cs, w)
    ensures forall j :: 0 <= j < FIELDS && j != w ==> cs[j] < TEN_DIGITS
  {
  }

  lemma SmallColumn(c: nat)
    requires c < NINE_DIGITS
    ensures |Column(c)| == COLUMN && Column(c)[0] == SPACE && |Decimal(c)| < COLUMN
  {
    ColumnNarrow(c);
    DecimalWidth(c, 9);
  }

  lemma WideColumn(c: nat)
    requires TEN_DIGITS <= c <= MAX_INT64
    ensures Column(c) == Decimal(c) && COLUMN < |Decimal(c)| < 2 * COLUMN
  {
    MaxInt64Width();
    DecimalWidth(c, 10);
    DecimalWidth(c, 19);
  }

  /** A byte that is no digit ends every run from the left. */
  lemma RunAfter(line: Bytes, end: nat, i: nat)
    requires i < end <= |line| && !IsDigit(line[i])
    ensures RunStart(line, end) > i
  {
    var start := RunStart(line, end);
    forall j | start <= j < end ensures IsDigit(line[j]) {
      assert line[start..end][j - start] == line[j];
    }
  }

  lemma RunIs(line: Bytes, end: nat, start: nat)
    requires start <= end <= |line| && AllDigits(line[start..end])
    requires start == 0 || !IsDigit(line[start - 1])
    ensures RunStart(line, end) == start
  {
    var s := RunStart(line, end);
    if start > 0 {
      RunAfter(line, end, start - 1);
    }
    forall i | start <= i < end ensures IsDigit(line[i]) {
      assert line[start..end][i - start] == line[i];
    }
  }

  /** The digits that end at a narrow column's right edge stay inside the column. */
  lemma NoWideReadingHere(line: Bytes, width: nat, control: char -> bool, f: nat, end: nat, p: Partial)
    requires width > 0 && 0 < f <= FIELDS && COLUMN <= end <= |line| && p.Valid() && line[end - COLUMN] == SPACE
    ensures WideReadings(line, width, control, f, end, p) == []
  {
    hide Readings;
    RunAfter(line, end, end - COLUMN);
  }

  /** The counter just read is blank or stands apart from the one before it. */
  predicate RightApart(p: Partial, f: nat)
    requires p.Valid()
  {
    f < FIELDS ==> p.digits[f] == 0 || p.padded[f]
  }

  lemma ReadSmallClear(p: Partial, f: nat, c: nat)
    requires 0 < f <= FIELDS && Clear(p, f) && RightApart(p, f) && c < NINE_DIGITS
    ensures Clear(ReadNarrow(p, f, c), f - 1) && RightApart(ReadNarrow(p, f, c), f - 1)
  {
    SmallColumn(c);
    var q := ReadNarrow(p, f, c);
    assert forall i :: f <= i < FIELDS - 1 ==> !Clash(p, i);
    assert forall i :: f <= i < FIELDS - 1 ==> Clash(q, i) == Clash(p, i);
    assert f <= FIELDS - 1 ==> !Clash(q, f - 1);
  }

  /** Column `f` of the row, which is narrow, can be read in one way. */
  lemma ReadSmall(line: Bytes, name: Bytes, width: nat, control: char -> bool, cs: seq<nat>, f: nat, p: Partial)
    requires |name| < width && |cs| == FIELDS && 0 < f <= FIELDS && p.Valid() && cs[f - 1] < NINE_DIGITS
    requires Printed(line, name, width, cs, f)
    ensures var end := |Prefix(name, width, cs, f)|; var start := |Prefix(name, width, cs, f - 1)|;
      start <= end <= |line|
      && Readings(line, width, control, f, end, p)
         == Readings(line, width, control, f - 1, start, ReadNarrow(p, f, cs[f - 1]))
  {
    hide Readings, FixedReadings, WideReadings, Prefix, ReadNarrow, Column;
    var end := |Prefix(name, width, cs, f)|;
    PrintedLess(line, name, width, cs, f);
    SmallColumn(cs[f - 1]);
    FixedReadsColumn(line, name, width, control, cs, f, p);
    assert line[end - COLUMN] == line[end - COLUMN..end][0];
    NoWideReadingHere(line, width, control, f, end, p);
    ReadingsSplit(line, width, control, f, end, p);
    var fixed := FixedReadings(line, width, control, f, end, p);
    assert fixed + [] == fixed;
  }

  /** The counters right of the wide one are read in one way, column by column. */
  lemma {:induction false} ReadRight(
      line: Bytes, name: Bytes, width: nat, control: char -> bool, cs: seq<nat>, w: nat, f: nat, p: Partial)
    returns (q: Partial)
    requires |name| < width && OneWide(cs, w) && w < f <= FIELDS && Printed(line, name, width, cs, f)
    requires Clear(p, f) && RightApart(p, f) && forall j :: 0 <= j < f ==> p.values[j] == 0
    ensures Printed(line, name, width, cs, w + 1) && Clear(q, w + 1) && RightApart(q, w + 1)
    ensures forall j :: 0 <= j < FIELDS ==> q.values[j] == if w < j < f then cs[j] else p.values[j]
    ensures Readings(line, width, control, f, |Prefix(name, width, cs, f)|, p)
      == Readings(line, width, control, w + 1, |Prefix(name, width, cs, w + 1)|, q)
  {
    hide Readings, Prefix, Printed;
    if f == w + 1 {
      q := p;
    } else {
      ReadSmall(line, name, width, control, cs, f, p);
      ReadSmallClear(p, f, cs[f - 1]);
      PrintedLess(line, name, width, cs, f);
      q := ReadRight(line, name, width, control, cs, w, f - 1, ReadNarrow(p, f, cs[f - 1]));
    }
  }

  // ---- the wide counter

  ghost predicate WideAt(line: Bytes, name: Bytes, width: nat, cs: seq<nat>, w: nat) {
    |name| < width && OneWide(cs, w) && Printed(line, name, width, cs, w + 1)
  }

  function WideEnd(width: nat, cs: seq<nat>, w: nat): nat
    requires w < |cs|
  {
    width + 10 * w + |Decimal(cs[w])|
  }

  lemma WideEndIs(width: nat, cs: seq<nat>, w: nat)
    requires w < |cs|
    ensures WideEnd(width, cs, w) == width + 10 * w + |Decimal(cs[w])|
  {
  }

  lemma WideColumnAt(line: Bytes, name: Bytes, width: nat, cs: seq<nat>, w: nat)
    requires WideAt(line, name, width, cs, w)
    ensures |Prefix(name, width, cs, w)| == width + 10 * w
    ensures |Prefix(name, width, cs, w + 1)| == WideEnd(width, cs, w) <= |line|
    ensures line[width + 10 * w..WideEnd(width, cs, w)] == Decimal(cs[w])
    ensures Printed(line, name, width, cs, w) && COLUMN < |Decimal(cs[w])| < 2 * COLUMN
  {
    NarrowOthers(cs, w);
    NarrowPrefix(name, width, cs, w);
    WideColumn(cs[w]);
    hide Decimal, Column, Prefix;
    PrintedLess(line, name, width, cs, w + 1);
  }

  lemma {:induction false} PrintedUpTo(line: Bytes, name: Bytes, width: nat, cs: seq<nat>, f: nat, k: nat)
    requires |name| <= width && k <= f <= |cs| && Printed(line, name, width, cs, f)
    ensures Printed(line, name, width, cs, k)
  {
    if k < f {
      PrintedLess(line, name, width, cs, f);
      PrintedUpTo(line, name, width, cs, f - 1, k);
    }
  }

  lemma LeftOfWide(line: Bytes, name: Bytes, width: nat, cs: seq<nat>, w: nat, k: nat)
    requires WideAt(line, name, width, cs, w) && k < w
    ensures |name| < width && w < |cs| && Printed(line, name, width, cs, w + 1)
    ensures cs[k] < NINE_DIGITS && forall j :: 0 <= j <= k ==> cs[j] < TEN_DIGITS
  {
    hide Printed;
    NarrowOthers(cs, w);
  }

  lemma PrintedFits(line: Bytes, name: Bytes, width: nat, cs: seq<nat>, f: nat)
    requires |name| <= width && f <= |cs| && Printed(line, name, width, cs, f)
    ensures |Prefix(name, width, cs, f)| <= |line|
  {
    hide Prefix;
  }

  lemma LeftColumnText(line: Bytes, name: Bytes, width: nat, cs: seq<nat>, w: nat, k: nat)
    requires WideAt(line, name, width, cs, w) && k < w
    ensures k < |cs| && cs[k] < NINE_DIGITS
    ensures width + 10 * k + 10 <= |line| && line[width + 10 * k..width + 10 * k + 10] == Column(cs[k])
  {
    hide *;
    LeftOfWide(line, name, width, cs, w, k);
    PrintedUpTo(line, name, width, cs, w + 1, k + 1);
    NarrowPrefix(name, width, cs, k + 1);
    NarrowPrefix(name, width, cs, k);
    PrintedFits(line, name, width, cs, k + 1);
    PrintedLess(line, name, width, cs, k + 1);
  }

  /** A column left of the wide one begins with a blank and ends with a digit unless it is blank altogether. */
  lemma LeftColumn(line: Bytes, name: Bytes, width: nat, cs: seq<nat>, w: nat, k: nat)
    requires WideAt(line, name, width, cs, w) && k < w
    ensures width + 10 * k + 10 <= |line| && line[width + 10 * k..width + 10 * k + 10] == Column(cs[k])
    ensures line[width + 10 * k] == SPACE
    ensures IsDigit(line[width + 10 * k + 9]) <==> cs[k] != 0
  {
    LeftColumnText(line, name, width, cs, w, k);
    hide *;
    SmallColumn(cs[k]);
    LastByte(cs[k]);
    var at := width + 10 * k;
    var column := line[at..at + 10];
    assert line[at] == column[0] && line[at + 9] == column[9];
  }

  lemma LastByte(c: nat)
    requires c < NINE_DIGITS
    ensures |Column(c)| == COLUMN && (IsDigit(Column(c)[9]) <==> c != 0)
  {
    SmallColumn(c);
    DecimalDigits(c);
    if c != 0 {
      assert Column(c)[9] == Decimal(c)[|Decimal(c)| - 1];
    }
  }

  lemma NameGap(line: Bytes, name: Bytes, width: nat, cs: seq<nat>, w: nat)
    requires WideAt(line, name, width, cs, w)
    ensures width <= |line| && line[width - 1] == SPACE
  {
    PrintedUpTo(line, name, width, cs, w + 1, 0);
    var head := Prefix(name, width, cs, 0);
    assert |head| == width && head[width - 1] == SPACE;
    assert line[width - 1] == head[width - 1];
  }

  /** The byte in front of the wide counter. */
  lemma ByteBefore(line: Bytes, name: Bytes, width: nat, cs: seq<nat>, w: nat)
    requires WideAt(line, name, width, cs, w)
    ensures width + 10 * w <= |line|
    ensures IsDigit(line[width + 10 * w - 1]) <==> !LeftBlank(cs, w)
  {
    hide WideAt, Column;
    if w == 0 {
      NameGap(line, name, width, cs, w);
    } else {
      LeftColumn(line, name, width, cs, w, w - 1);
    }
  }

  lemma SetWideClear(q: Partial, w: nat, value: int, count: nat)
    requires w < FIELDS && Clear(q, w + 1) && RightApart(q, w + 1)
    ensures Clear(q.SetWide(w, value, count), w)
  {
    var r := q.SetWide(w, value, count);
    assert forall i :: w + 1 <= i < FIELDS - 1 ==> !Clash(q, i);
    assert forall i :: w + 1 <= i < FIELDS - 1 ==> Clash(r, i) == Clash(q, i);
    assert w < FIELDS - 1 ==> !Clash(r, w);
  }

  lemma WideUnfold(line: Bytes, width: nat, control: char -> bool, f: nat, end: nat, p: Partial, start: nat, value: int)
    requires width > 0 && 0 < f <= FIELDS && COLUMN <= end <= |line| && p.Valid()
    requires RunStart(line, end) == start && end - start > COLUMN && ParseInt(line[start..end]) == Some(value)
    ensures WideReadings(line, width, control, f, end, p)
      == Readings(line, width, control, f - 1, start, p.SetWide(f - 1, value, end - start))
  {
    hide Readings, ParseInt, RunStart;
  }

  /** The wide counter is the run of digits that ends where it ends. */
  lemma RunIsWide(line: Bytes, name: Bytes, width: nat, cs: seq<nat>, w: nat)
    requires WideAt(line, name, width, cs, w) && LeftBlank(cs, w)
    ensures WideEnd(width, cs, w) <= |line| && RunStart(line, WideEnd(width, cs, w)) == width + 10 * w
  {
    WideColumnAt(line, name, width, cs, w);
    ByteBefore(line, name, width, cs, w);
    DecimalDigits(cs[w]);
    hide WideAt, Decimal, RunStart;
    RunIs(line, WideEnd(width, cs, w), width + 10 * w);
  }

  lemma WideFacts(line: Bytes, name: Bytes, width: nat, cs: seq<nat>, w: nat)
    requires WideAt(line, name, width, cs, w) && LeftBlank(cs, w)
    ensures w < |cs| == FIELDS && width > 0 && COLUMN < |Decimal(cs[w])|
    ensures width + 10 * w <= WideEnd(width, cs, w) <= |line| && COLUMN <= WideEnd(width, cs, w)
    ensures RunStart(line, WideEnd(width, cs, w)) == width + 10 * w
    ensures ParseInt(line[width + 10 * w..WideEnd(width, cs, w)]) == Some(cs[w])
    ensures WideEnd(width, cs, w) - (width + 10 * w) == |Decimal(cs[w])|
  {
    WideColumnAt(line, name, width, cs, w);
    RunIsWide(line, name, width, cs, w);
    ParseDecimal(cs[w]);
  }

  /** Only the wide counter itself can be read as one run of digits. */
  lemma WideRun(line: Bytes, name: Bytes, width: nat, control: char -> bool, cs: seq<nat>, w: nat, q: Partial)
    requires WideAt(line, name, width, cs, w) && LeftBlank(cs, w) && q.Valid()
    ensures COLUMN <= WideEnd(width, cs, w) <= |line|
    ensures WideReadings(line, width, control, w + 1, WideEnd(width, cs, w), q)
      == Readings(line, width, control, w, width + 10 * w, q.SetWide(w, cs[w], |Decimal(cs[w])|))
  {
    hide *;
    WideFacts(line, name, width, cs, w);
    WideUnfold(line, width, control, w + 1, WideEnd(width, cs, w), q, width + 10 * w, cs[w]);
  }

  /** What is known of the reading once the wide counter is in it. */
  lemma WideIsSet(cs: seq<nat>, w: nat, q: Partial, count: nat)
    requires OneWide(cs, w) && LeftBlank(cs, w) && q.Valid() && forall j :: 0 <= j <= w ==> q.values[j] == 0
    requires forall j :: w < j < FIELDS ==> q.values[j] == cs[j]
    ensures var r := q.SetWide(w, cs[w], count);
      && r.Valid() && AllNarrow(cs, w) && Unread(r, w) && Apart(r, cs, w) && cs[..w] + r.values[w..] == cs
  {
    NarrowOthers(cs, w);
    var r := q.SetWide(w, cs[w], count);
    assert cs[..w] + r.values[w..] == cs;
  }

  lemma WideAtIs(line: Bytes, name: Bytes, width: nat, cs: seq<nat>, w: nat)
    requires WideAt(line, name, width, cs, w)
    ensures |name| < width && OneWide(cs, w) && |cs| == FIELDS && w < FIELDS
  {
  }

  /** With a blank on its left the wide counter is read as printed, and so is the rest. */
  lemma ReadWide(line: Bytes, name: Bytes, width: nat, control: char -> bool, cs: seq<nat>, w: nat, q: Partial)
    requires WideAt(line, name, width, cs, w) && LeftBlank(cs, w) && Printable(name, width, control)
    requires Clear(q, w + 1) && RightApart(q, w + 1) && forall j :: 0 <= j <= w ==> q.values[j] == 0
    requires forall j :: w < j < FIELDS ==> q.values[j] == cs[j]
    ensures COLUMN <= WideEnd(width, cs, w) <= |line|
    ensures WideReadings(line, width, control, w + 1, WideEnd(width, cs, w), q) == [Candidate(width, cs)]
  {
    hide *;
    ClearIsValid(q, w + 1);
    WideAtIs(line, name, width, cs, w);
    WideRun(line, name, width, control, cs, w, q);
    WideColumnAt(line, name, width, cs, w);
    var count := |Decimal(cs[w])|;
    SetWideClear(q, w, cs[w], count);
    WideIsSet(cs, w, q, count);
    Aligned(line, name, width, control, cs, w, q.SetWide(w, cs[w], count));
  }

  /** No run of digits that ends between `width` and `end` is wider than a column. */
  ghost predicate Sparse(line: Bytes, width: nat, end: nat) {
    end <= |line| && forall at :: width <= at <= end ==> at - RunStart(line, at) <= COLUMN
  }

  lemma FixedStep(line: Bytes, width: nat, control: char -> bool, f: nat, at: nat, p: Partial) returns (q: Partial)
    requires width > 0 && 0 < f <= FIELDS && COLUMN <= at <= |line| && p.Valid()
    ensures q.Valid()
    ensures || FixedReadings(line, width, control, f, at, p) == []
            || FixedReadings(line, width, control, f, at, p) == Readings(line, width, control, f - 1, at - COLUMN, q)
  {
    hide ReadColumn, Readings;
    match ReadColumn(line[at - COLUMN..at])
    case None => q := p;
    case Some((value, count)) => q := if count == 0 then p else p.Set(f - 1, value, count, count < COLUMN);
  }

  /** Over sparse text every counter takes ten columns. */
  lemma {:induction false} SparseReadings(
      line: Bytes, width: nat, control: char -> bool, f: nat, at: nat, end: nat, p: Partial)
    requires width > 0 && Sparse(line, width, end) && f <= FIELDS && at <= end && p.Valid()
    ensures forall c :: c in Readings(line, width, control, f, at, p) ==> c.nameLen == at - 10 * f
  {
    if f > 0 && width <= at && COLUMN <= at {
      assert WideReadings(line, width, control, f, at, p) == [];
      hide FixedReadings, WideReadings;
      ReadingsSplit(line, width, control, f, at, p);
      var q := FixedStep(line, width, control, f, at, p);
      SparseReadings(line, width, control, f - 1, at - COLUMN, end, q);
    }
  }

  /** Left of a wide counter that follows a blank, the row is sparse up to the last ten digits of that counter. */
  lemma SparseLeft(line: Bytes, name: Bytes, width: nat, cs: seq<nat>, w: nat)
    requires WideAt(line, name, width, cs, w) && LeftBlank(cs, w)
    ensures width + 10 * w <= WideEnd(width, cs, w) - COLUMN && Sparse(line, width, WideEnd(width, cs, w) - COLUMN)
  {
    WideColumnAt(line, name, width, cs, w);
    hide Decimal, WideAt, Printed, Prefix, Column, RunStart;
    var end := WideEnd(width, cs, w) - COLUMN;
    ByteBefore(line, name, width, cs, w);
    NameGap(line, name, width, cs, w);
    forall at | width <= at <= end ensures at - RunStart(line, at) <= COLUMN {
      if at == width {
        RunAfter(line, at, width - 1);
      } else if at <= width + 10 * w {
        var k := (at - 1 - width) / 10;
        LeftColumn(line, name, width, cs, w, k);
        RunAfter(line, at, width + 10 * k);
      } else {
        RunAfter(line, at, width + 10 * w - 1);
      }
    }
  }

  /** The counters right of the wide one, read from the end of the row. */
  lemma ReadToWide(name: Bytes, width: nat, control: char -> bool, cs: seq<nat>, w: nat) returns (q: Partial)
    requires |name| < width && OneWide(cs, w)
    ensures WideAt(Print(name, width, cs), name, width, cs, w) && Clear(q, w + 1) && RightApart(q, w + 1)
    ensures forall j :: 0 <= j < FIELDS ==> q.values[j] == if w < j then cs[j] else 0
    ensures var line := Print(name, width, cs);
      COLUMN <= WideEnd(width, cs, w) <= |line|
      && Readings(line, width, control, FIELDS, |line|, BLANK)
        == FixedReadings(line, width, control, w + 1, WideEnd(width, cs, w), q)
         + WideReadings(line, width, control, w + 1, WideEnd(width, cs, w), q)
  {
    hide Readings, FixedReadings, WideReadings, Prefix, Decimal;
    var line := Print(name, width, cs);
    assert Printed(line, name, width, cs, FIELDS) && |line| == |Prefix(name, width, cs, FIELDS)| by {
      PrintedAll(name, width, cs);
    }
    q := ReadRight(line, name, width, control, cs, w, FIELDS, BLANK);
    WideColumnAt(line, name, width, cs, w);
    ReadingsSplit(line, width, control, w + 1, WideEnd(width, cs, w), q);
  }

  lemma PrintedAll(name: Bytes, width: nat, cs: seq<nat>)
    requires |name| < width && |cs| == FIELDS
    ensures Print(name, width, cs) == Prefix(name, width, cs, FIELDS)
    ensures Printed(Print(name, width, cs), name, width, cs, FIELDS)
  {
  }

  /** The reading with the shortest name is the aligned one: the others leave part of the wide counter to the name. */
  lemma AlignedWins(fixed: seq<Candidate>, aligned: Candidate)
    requires forall c :: c in fixed ==> c.nameLen > aligned.nameLen
    ensures Best(fixed + [aligned]) == aligned
  {
    hide Best;
    assert aligned in fixed + [aligned];
  }

  lemma WideAtFits(line: Bytes, name: Bytes, width: nat, cs: seq<nat>, w: nat)
    requires WideAt(line, name, width, cs, w)
    ensures 0 < width && w < FIELDS && |cs| == FIELDS
    ensures 0 < w ==> cs[w - 1] < NINE_DIGITS
  {
  }

  /** Every other reading leaves some digits of the wide counter to the name. */
  lemma FixedTooLong(line: Bytes, name: Bytes, width: nat, control: char -> bool, cs: seq<nat>, w: nat, q: Partial)
    requires WideAt(line, name, width, cs, w) && LeftBlank(cs, w) && q.Valid()
    ensures COLUMN <= WideEnd(width, cs, w) <= |line|
    ensures forall c :: c in FixedReadings(line, width, control, w + 1, WideEnd(width, cs, w), q) ==> c.nameLen > width
  {
    hide *;
    WideAtFits(line, name, width, cs, w);
    WideColumnAt(line, name, width, cs, w);
    WideEndIs(width, cs, w);
    SparseLeft(line, name, width, cs, w);
    var end := WideEnd(width, cs, w);
    var r := FixedStep(line, width, control, w + 1, end, q);
    SparseReadings(line, width, control, w, end - COLUMN, end - COLUMN, r);
  }

  lemma WideRowReadBack(name: Bytes, width: nat, control: char -> bool, cs: seq<nat>, w: nat)
    requires Printable(name, width, control) && OneWide(cs, w) && LeftBlank(cs, w)
    ensures ReadRow(Print(name, width, cs), width, control) == Some(Row(name, cs))
  {
    PrintableFits(name, width, control);
    hide Printable, Readings, FixedReadings, WideReadings, Best, WideAt, Decimal, ByteText.TrimSpace, Print, Clear;
    hide RightApart;
    var line := Print(name, width, cs);
    var q := ReadToWide(name, width, control, cs, w);
    ReadWide(line, name, width, control, cs, w, q);
    ClearIsValid(q, w + 1);
    FixedTooLong(line, name, width, control, cs, w, q);
    AlignedWins(FixedReadings(line, width, control, w + 1, WideEnd(width, cs, w), q), Candidate(width, cs));
    PrintedUpToName(line, name, width, control, cs, w);
  }

  lemma PrintedUpToName(line: Bytes, name: Bytes, width: nat, control: char -> bool, cs: seq<nat>, w: nat)
    requires WideAt(line, name, width, cs, w) && Printable(name, width, control)
    ensures width <= |line| && ByteText.TrimSpace(line[..width]) == name
  {
    PrintedUpTo(line, name, width, cs, w + 1, 0);
    PrintedName(line, name, width, control, cs);
  }

  // ---- a counter right before the wide one

  lemma ReadColumnBelow(fixed: Bytes)
    requires |fixed| == COLUMN && ReadColumn(fixed).Some?
    ensures ReadColumn(fixed).value.0 < TEN_DIGITS
  {
    var trimmed := ByteText.TrimSpace(fixed);
    hide ByteText.TrimLeft, ByteText.TrimRight;
    if trimmed != [] {
      ParseBelow(trimmed);
    }
  }

  lemma ParseBelow(s: Bytes)
    requires |s| <= COLUMN && ParseInt(s).Some?
    ensures ParseInt(s).value < TEN_DIGITS
  {
    var digits := if s[0] == 0x2B || s[0] == 0x2D then s[1..] else s;
    ValueBelow(digits);
    Power10Grows(|digits|, COLUMN);
    MaxInt64Width();
  }

  /** The last ten digits alone are too small to be the wide counter. */
  lemma FixedTooSmall(line: Bytes, width: nat, control: char -> bool, w: nat, end: nat, q: Partial)
    requires width > 0 && w < FIELDS && COLUMN <= end <= |line| && q.Valid() && q.values[w] == 0
    ensures forall c :: c in FixedReadings(line, width, control, w + 1, end, q) ==>
      |c.values| == FIELDS && c.values[w] < TEN_DIGITS
  {
    hide ReadColumn, Readings;
    match ReadColumn(line[end - COLUMN..end])
    case None =>
    case Some((value, count)) =>
      ReadColumnBelow(line[end - COLUMN..end]);
  }

  /** The run of digits that includes the counter on the left is too large to be the wide counter. */
  lemma WideTooLarge(line: Bytes, name: Bytes, width: nat, control: char -> bool, cs: seq<nat>, w: nat, q: Partial)
    requires WideAt(line, name, width, cs, w) && !LeftBlank(cs, w) && q.Valid()
    ensures COLUMN <= WideEnd(width, cs, w) <= |line|
    ensures forall c :: c in WideReadings(line, width, control, w + 1, WideEnd(width, cs, w), q) ==>
      |c.values| == FIELDS && c.values[w] > cs[w]
  {
    WideColumnAt(line, name, width, cs, w);
    var end := WideEnd(width, cs, w);
    var left := RunBefore(line, name, width, cs, w);
    hide Readings, WideAt, Decimal;
    var run := line[left..end];
    assert ParseInt(run).Some? ==> ParseInt(run).value > cs[w] by { ParseDigits(run); }
  }

  lemma ParseDigits(s: Bytes)
    requires s != [] && AllDigits(s)
    ensures ParseInt(s).Some? ==> ParseInt(s).value == Value(s)
  {
    assert IsDigit(s[0]);
  }

  lemma ColumnText(c: nat)
    requires 0 < c < NINE_DIGITS
    ensures 0 < |Decimal(c)| < COLUMN && Column(c) == Blanks(COLUMN - |Decimal(c)|) + Decimal(c)
  {
    SmallColumn(c);
  }

  lemma SliceJoin(line: Bytes, a: nat, b: nat, c: nat)
    requires a <= b <= c <= |line|
    ensures line[a..c] == line[a..b] + line[b..c]
  {
  }

  lemma SliceTail(line: Bytes, a: nat, n: nat, head: Bytes, tail: Bytes)
    requires a + n <= |line| && line[a..a + n] == head + tail
    ensures |head| <= n && line[a + |head|..a + n] == tail
    ensures forall i :: 0 <= i < |head| ==> line[a + i] == head[i]
  {
    assert line[a..a + n][|head|..] == tail;
    forall i | 0 <= i < |head| ensures line[a + i] == head[i] {
      assert line[a + i] == line[a..a + n][i];
    }
  }

  /** The digits of the counter on the left run into those of the wide one. */
  lemma JoinedDigits(line: Bytes, name: Bytes, width: nat, cs: seq<nat>, w: nat)
    requires WideAt(line, name, width, cs, w) && !LeftBlank(cs, w)
    ensures var left := width + 10 * w - |Decimal(cs[w - 1])|; var end := WideEnd(width, cs, w);
      0 < left < width + 10 * w && end <= |line|
      && line[left - 1] == SPACE && line[left..end] == Decimal(cs[w - 1]) + Decimal(cs[w])
  {
    hide *;
    WideAtFits(line, name, width, cs, w);
    LeftIsCounter(cs, w);
    var c, at, end := cs[w - 1], width + 10 * w, WideEnd(width, cs, w);
    WideColumnAt(line, name, width, cs, w);
    LeftColumn(line, name, width, cs, w, w - 1);
    ColumnText(c);
    WideEndIs(width, cs, w);
    var pad := COLUMN - |Decimal(c)|;
    SliceTail(line, at - 10, 10, Blanks(pad), Decimal(c));
    assert line[at - 10 + (pad - 1)] == SPACE;
    SliceJoin(line, at - 10 + pad, at, end);
  }

  lemma RunBefore(line: Bytes, name: Bytes, width: nat, cs: seq<nat>, w: nat) returns (left: nat)
    requires WideAt(line, name, width, cs, w) && !LeftBlank(cs, w)
    ensures WideEnd(width, cs, w) <= |line| && left < width + 10 * w && RunStart(line, WideEnd(width, cs, w)) == left
    ensures Value(line[left..WideEnd(width, cs, w)]) > cs[w]
  {
    hide *;
    WideAtFits(line, name, width, cs, w);
    LeftIsCounter(cs, w);
    JoinedDigits(line, name, width, cs, w);
    left := width + 10 * w - |Decimal(cs[w - 1])|;
    BlankIsNoDigit();
    WideEndIs(width, cs, w);
    DecimalDigits(cs[w - 1]);
    DecimalDigits(cs[w]);
    ValueAppend(Decimal(cs[w - 1]), Decimal(cs[w]));
    RunIs(line, WideEnd(width, cs, w), left);
  }

  lemma BlankIsNoDigit()
    ensures !IsDigit(SPACE)
  {
  }

  lemma LeftIsCounter(cs: seq<nat>, w: nat)
    requires w < |cs| && !LeftBlank(cs, w)
    ensures 0 < w && cs[w - 1] > 0
  {
  }

  lemma WideRowMisread(name: Bytes, width: nat, control: char -> bool, cs: seq<nat>, w: nat)
    requires Printable(name, width, control) && OneWide(cs, w) && !LeftBlank(cs, w)
    ensures ReadRow(Print(name, width, cs), width, control) != Some(Row(name, cs))
  {
    PrintableFits(name, width, control);
    hide Printable, Readings, FixedReadings, WideReadings, WideAt, Decimal, ByteText.TrimSpace, Print, Clear;
    hide RightApart, Best;
    var line := Print(name, width, cs);
    var q := ReadToWide(name, width, control, cs, w);
    ClearIsValid(q, w + 1);
    FixedTooSmall(line, width, control, w, WideEnd(width, cs, w), q);
    WideTooLarge(line, name, width, control, cs, w, q);
  }

  /** A row with one counter wider than its column is read back exactly when the counter on its left is blank. */
  lemma WideRowRoundTrip(name: Bytes, width: nat, control: char -> bool, cs: seq<nat>, w: nat)
    requires Printable(name, width, control) && OneWide(cs, w)
    ensures ReadRow(Print(name, width, cs), width, control) == Some(Row(name, cs)) <==> w == 0 || cs[w - 1] == 0
  {
    if LeftBlank(cs, w) {
      WideRowReadBack(name, width, control, cs, w);
    } else {
      WideRowMisread(name, width, control, cs, w);
    }
  }

  /** Five natural reads, and 12,345,678,901 indexed ones right beside them. */
  const TOUCHING: seq<nat> := [5, 12345678901, 0, 0, 0, 0, 0, 0]

  /** The row that is not read back, whatever its name. */
  lemma TouchingCountersAreMisread(name: Bytes, width: nat, control: char -> bool)
    requires Printable(name, width, control)
    ensures ReadRow(Print(name, width, TOUCHING), width, control) != Some(Row(name, TOUCHING))
  {
    hide Printable, Print;
    assert OneWide(TOUCHING, 1);
    WideRowMisread(name, width, control, TOUCHING, 1);
  }
}
