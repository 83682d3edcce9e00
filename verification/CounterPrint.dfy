/** Firebird's layout of a counter row, and exactly which rows tableCounterRow reads back. */
module CounterPrint {
  import opened Options
  import opened Utf8
  import opened ByteText
  import opened CounterRow

  /** The first number that needs more than ten digits, and more than nine. */
  const TEN_DIGITS: nat := 10000000000
  const NINE_DIGITS: nat := 1000000000

  function Power10(n: nat): nat { if n == 0 then 1 else 10 * Power10(n - 1) }

  function Decimal(n: nat): (s: Bytes)
    ensures |s| > 0
  {
    if n < 10 then [0x30 + n] else Decimal(n / 10) + [0x30 + n % 10]
  }

  function Blanks(n: nat): (s: Bytes)
    ensures |s| == n
    ensures forall i :: 0 <= i < n ==> s[i] == SPACE
  {
    seq(n, _ => SPACE)
  }

  /** A counter is right-aligned in ten columns, wider when it must be, and blank when it is zero. */
  function Column(c: nat): Bytes {
    if c == 0 then Blanks(COLUMN)
    else if |Decimal(c)| < COLUMN then Blanks(COLUMN - |Decimal(c)|) + Decimal(c)
    else Decimal(c)
  }

  function Columns(cs: seq<nat>, n: nat): Bytes
    requires n <= |cs|
  {
    if n == 0 then [] else Columns(cs, n - 1) + Column(cs[n - 1])
  }

  function Print(name: Bytes, width: nat, cs: seq<nat>): Bytes
    requires |name| <= width
  {
    name + Blanks(width - |name|) + Columns(cs, |cs|)
  }

  // ---- decimal numbers

  lemma {:induction false} DecimalDigits(n: nat)
    ensures AllDigits(Decimal(n)) && Value(Decimal(n)) == n
  {
    if n >= 10 {
      DecimalDigits(n / 10);
      var s := Decimal(n);
      assert s[..|s| - 1] == Decimal(n / 10);
      forall i | 0 <= i < |s| ensures IsDigit(s[i]) {
        assert i < |s| - 1 ==> s[i] == Decimal(n / 10)[i];
      }
    }
  }

  /** The width of a number: at most `k` digits exactly below ten to the `k`. */
  lemma {:induction false} DecimalWidth(n: nat, k: nat)
    requires k > 0
    ensures |Decimal(n)| <= k <==> n < Power10(k)
  {
    if n >= 10 && k > 1 {
      DecimalWidth(n / 10, k - 1);
    } else if k > 1 {
      assert Power10(k) >= 10 by { Power10Grows(1, k); }
    }
  }

  lemma {:induction false} Power10Grows(a: nat, b: nat)
    requires a <= b
    ensures 0 < Power10(a) <= Power10(b)
  {
    if a < b {
      Power10Grows(a, b - 1);
    } else if a > 0 {
      Power10Grows(a - 1, a - 1);
    }
  }

  lemma {:induction false} ValueBelow(s: Bytes)
    requires AllDigits(s)
    ensures Value(s) < Power10(|s|)
  {
    if s != [] {
      ValueBelow(s[..|s| - 1]);
    }
  }

  lemma {:induction false} ValueAppend(a: Bytes, b: Bytes)
    requires AllDigits(a) && AllDigits(b)
    ensures AllDigits(a + b) && Value(a + b) >= Value(a) + Value(b)
    ensures b != [] && Value(a) > 0 ==> Value(a + b) > Value(b)
  {
    if b == [] {
      assert a + b == a;
    } else {
      var s := a + b;
      assert s[..|s| - 1] == a + b[..|b| - 1];
      ValueAppend(a, b[..|b| - 1]);
    }
  }

  // ---- columns

  lemma DigitIsNoSpace(s: Bytes)
    requires s != [] && AllDigits(s)
    ensures SpaceWidth(s) == 0 && LastSpaceWidth(s) == 0
  {
    assert IsDigit(s[0]) && IsDigit(s[|s| - 1]);
  }

  lemma {:induction false} TrimColumn(n: nat, digits: Bytes)
    requires AllDigits(digits)
    ensures TrimSpace(Blanks(n) + digits) == digits && TrimBlanks(Blanks(n) + digits) == digits
  {
    var s := Blanks(n) + digits;
    if n > 0 {
      assert s[0] == SPACE && s[1..] == Blanks(n - 1) + digits;
      TrimColumn(n - 1, digits);
    } else {
      assert s == digits;
      if digits != [] {
        DigitIsNoSpace(digits);
        assert IsDigit(digits[0]);
      }
    }
  }

  lemma ParseDecimal(n: nat)
    requires n <= MAX_INT64
    ensures ParseInt(Decimal(n)) == Some(n)
  {
    DecimalDigits(n);
    assert IsDigit(Decimal(n)[0]);
  }

  lemma MaxInt64Width()
    ensures Power10(10) == TEN_DIGITS && Power10(9) == NINE_DIGITS && MAX_INT64 < Power10(19)
  {
    assert Power10(5) == 100000;
    assert Power10(9) == 1000000000;
    assert Power10(10) == 10000000000;
    assert Power10(14) == 100000000000000;
    assert Power10(19) == 10000000000000000000;
  }

  lemma ColumnNarrow(c: nat)
    requires c < TEN_DIGITS
    ensures |Column(c)| == COLUMN
    ensures ReadColumn(Column(c)) == Some((c as int, if c == 0 then 0 else |Decimal(c)|))
    ensures |Decimal(c)| <= COLUMN
  {
    MaxInt64Width();
    DecimalWidth(c, 10);
    DecimalDigits(c);
    if c == 0 {
      TrimColumn(COLUMN, []);
      assert Blanks(COLUMN) + [] == Blanks(COLUMN);
    } else {
      var pad := COLUMN - |Decimal(c)|;
      TrimColumn(pad, Decimal(c));
      assert Column(c) == Blanks(pad) + Decimal(c);
      ParseDecimal(c);
    }
  }

  // ---- names

  /** A relation name that can be printed and read back: short of its column, without control or outer white space. */
  ghost predicate Printable(name: Bytes, width: nat, control: char -> bool) {
    |name| < width && MetadataName(name, control) && SpaceWidth(name) == 0 && LastSpaceWidth(name) == 0
  }

  lemma {:induction false} TrimPaddedRight(name: Bytes, n: nat)
    requires name != [] && LastSpaceWidth(name) == 0
    ensures ByteText.TrimRight(name + Blanks(n)) == name
  {
    var s := name + Blanks(n);
    if n == 0 {
      assert s == name;
    } else {
      assert s[..|s| - 1] == name + Blanks(n - 1);
      TrimPaddedRight(name, n - 1);
    }
  }

  lemma TrimPadded(name: Bytes, n: nat)
    requires name != [] && SpaceWidth(name) == 0 && LastSpaceWidth(name) == 0
    ensures TrimSpace(name + Blanks(n)) == name
  {
    var s := name + Blanks(n);
    assert SpaceWidth(s) == 0 by {
      assert s[0] == name[0];
      if |name| > 1 {
        assert s[1] == name[1];
        assert |name| > 2 ==> s[..3] == name[..3];
        assert |name| == 2 && n > 0 ==> s[2] == SPACE;
      } else if n > 0 {
        assert s[1] == SPACE;
      }
    }
    TrimPaddedRight(name, n);
  }

  // ---- lines

  /** The line up to the end of its first `f` columns. */
  function Prefix(name: Bytes, width: nat, cs: seq<nat>, f: nat): Bytes
    requires |name| <= width && f <= |cs|
  {
    name + Blanks(width - |name|) + Columns(cs, f)
  }

  ghost predicate Printed(line: Bytes, name: Bytes, width: nat, cs: seq<nat>, f: nat)
    requires |name| <= width && f <= |cs|
  {
    Prefix(name, width, cs, f) <= line
  }

  lemma PrintedLess(line: Bytes, name: Bytes, width: nat, cs: seq<nat>, f: nat)
    requires |name| <= width && 0 < f <= |cs| && Printed(line, name, width, cs, f)
    ensures Printed(line, name, width, cs, f - 1)
    ensures var end := |Prefix(name, width, cs, f)|; var start := |Prefix(name, width, cs, f - 1)|;
      start + |Column(cs[f - 1])| == end && line[start..end] == Column(cs[f - 1])
  {
    assert Prefix(name, width, cs, f) == Prefix(name, width, cs, f - 1) + Column(cs[f - 1]);
  }

  lemma {:induction false} NarrowPrefix(name: Bytes, width: nat, cs: seq<nat>, f: nat)
    requires |name| <= width && f <= |cs| && forall j :: 0 <= j < f ==> cs[j] < TEN_DIGITS
    ensures |Prefix(name, width, cs, f)| == width + 10 * f
  {
    if f > 0 {
      ColumnNarrow(cs[f - 1]);
      NarrowPrefix(name, width, cs, f - 1);
    }
  }

  /** What is known about the counters from `f` on gives no reason to reject the row. */
  ghost predicate Clear(p: Partial, f: nat) {
    && p.Valid()
    && (forall i :: 0 <= i < f && i < FIELDS ==> p.digits[i] == 0)
    && (forall i :: f <= i < FIELDS - 1 ==> !Clash(p, i))
  }

  /** The next counter to the left does not touch a wide one. */
  predicate Apart(p: Partial, cs: seq<nat>, f: nat)
    requires p.Valid() && f <= |cs|
  {
    0 < f < FIELDS && p.digits[f] > COLUMN ==> cs[f - 1] == 0
  }

  lemma PrintedName(line: Bytes, name: Bytes, width: nat, control: char -> bool, cs: seq<nat>)
    requires Printable(name, width, control) && Printed(line, name, width, cs, 0)
    ensures width <= |line| && TrimSpace(line[..width]) == name
  {
    assert Prefix(name, width, cs, 0) == name + Blanks(width - |name|);
    assert line[..width] == name + Blanks(width - |name|);
    TrimPadded(name, width - |name|);
  }

  lemma AcceptsPrinted(line: Bytes, name: Bytes, width: nat, control: char -> bool, p: Partial)
    requires Printable(name, width, control) && Printed(line, name, width, [], 0) && Clear(p, 0)
    ensures width <= |line| && Accepts(line, width, control, width, p)
  {
    PrintedName(line, name, width, control, []);
    hide ByteText.TrimSpace, MetadataName, Printed;
    assert !CounterOverflow(line, width, width) && !Ambiguous(p);
  }

  /** Too little room is left for a reading that spends more than a column on a counter. */
  lemma NoWideReading(line: Bytes, width: nat, control: char -> bool, f: nat, p: Partial)
    requires width > 0 && 0 < f <= FIELDS && width + 10 * f <= |line| && p.Valid()
    ensures WideReadings(line, width, control, f, width + 10 * f, p) == []
  {
    hide Readings;
  }

  /** The state of the reading after a column that holds `c`. */
  function ReadNarrow(p: Partial, f: nat, c: nat): Partial
    requires p.Valid() && 0 < f <= FIELDS
  {
    if c == 0 then p else p.Set(f - 1, c, |Decimal(c)|, |Decimal(c)| < COLUMN)
  }

  lemma FixedReadsColumn(line: Bytes, name: Bytes, width: nat, control: char -> bool, cs: seq<nat>, f: nat, p: Partial)
    requires |name| < width && |cs| == FIELDS && 0 < f <= FIELDS && p.Valid() && cs[f - 1] < TEN_DIGITS
    requires Printed(line, name, width, cs, f)
    ensures var end := |Prefix(name, width, cs, f)|;
      COLUMN <= end <= |line|
      && FixedReadings(line, width, control, f, end, p)
        == Readings(line, width, control, f - 1, end - COLUMN, ReadNarrow(p, f, cs[f - 1]))
  {
    hide ReadColumn, Column, Readings, Prefix, Decimal;
    PrintedLess(line, name, width, cs, f);
    ColumnNarrow(cs[f - 1]);
  }

  lemma ReadNarrowClear(p: Partial, cs: seq<nat>, f: nat)
    requires |cs| == FIELDS && 0 < f <= FIELDS && Clear(p, f) && Apart(p, cs, f) && cs[f - 1] < TEN_DIGITS
    ensures var q := ReadNarrow(p, f, cs[f - 1]);
      q.Valid() && Clear(q, f - 1) && Apart(q, cs, f - 1)
      && q.values == p.values[f - 1 := if cs[f - 1] == 0 then p.values[f - 1] else cs[f - 1]]
  {
    hide ReadColumn, Column, Decimal;
    ColumnNarrow(cs[f - 1]);
    var q := ReadNarrow(p, f, cs[f - 1]);
    assert forall i :: f <= i < FIELDS - 1 ==> !Clash(p, i);
    assert forall i :: f <= i < FIELDS - 1 ==> Clash(q, i) == Clash(p, i);
    assert f <= FIELDS - 1 ==> !Clash(q, f - 1);
  }

  lemma ReadingsSplit(line: Bytes, width: nat, control: char -> bool, f: nat, end: nat, p: Partial)
    requires width > 0 && 0 < f <= FIELDS && COLUMN <= end <= |line| && p.Valid()
    ensures Readings(line, width, control, f, end, p)
      == FixedReadings(line, width, control, f, end, p) + WideReadings(line, width, control, f, end, p)
  {
    hide FixedReadings, WideReadings;
  }

  /** At an aligned position only the ten columns can be read. */
  lemma ReadAligned(line: Bytes, name: Bytes, width: nat, control: char -> bool, cs: seq<nat>, f: nat, p: Partial)
    requires |name| < width && |cs| == FIELDS && 0 < f <= FIELDS && p.Valid()
    requires Printed(line, name, width, cs, f) && forall j :: 0 <= j < f ==> cs[j] < TEN_DIGITS
    ensures width + 10 * f <= |line|
    ensures Readings(line, width, control, f, width + 10 * f, p)
      == Readings(line, width, control, f - 1, width + 10 * (f - 1), ReadNarrow(p, f, cs[f - 1]))
  {
    hide Readings, FixedReadings, WideReadings, Prefix, ReadNarrow;
    NarrowPrefix(name, width, cs, f);
    FixedReadsColumn(line, name, width, control, cs, f, p);
    NoWideReading(line, width, control, f, p);
    var end := width + 10 * f;
    ReadingsSplit(line, width, control, f, end, p);
    var fixed := FixedReadings(line, width, control, f, end, p);
    assert fixed + [] == fixed;
  }

  lemma AlignedEnd(line: Bytes, name: Bytes, width: nat, control: char -> bool, p: Partial)
    requires Printable(name, width, control) && Printed(line, name, width, [], 0) && Clear(p, 0)
    ensures width <= |line| && Readings(line, width, control, 0, width, p) == [Candidate(width, p.values)]
  {
    AcceptsPrinted(line, name, width, control, p);
    hide Accepts, Printable, Printed, Clear;
  }

  lemma MergeValues(cs: seq<nat>, f: nat, p: Partial)
    requires |cs| == FIELDS && 0 < f <= FIELDS && p.Valid() && p.values[f - 1] == 0
    ensures cs[..f - 1] + ReadNarrow(p, f, cs[f - 1]).values[f - 1..] == cs[..f] + p.values[f..]
  {
    hide Decimal;
  }

  /** No counter left of column `f` has been read. */
  ghost predicate Unread(p: Partial, f: nat) {
    p.Valid() && forall j :: 0 <= j < f && j < FIELDS ==> p.values[j] == 0
  }

  ghost predicate AllNarrow(cs: seq<nat>, f: nat) {
    |cs| == FIELDS && f <= FIELDS && forall j :: 0 <= j < f ==> cs[j] < TEN_DIGITS
  }

  /** Reading one aligned column keeps everything the next one needs. */
  lemma AlignedStep(line: Bytes, name: Bytes, width: nat, control: char -> bool, cs: seq<nat>, f: nat, p: Partial)
    requires |name| < width && AllNarrow(cs, f) && 0 < f
    requires Printed(line, name, width, cs, f) && Clear(p, f) && Apart(p, cs, f) && Unread(p, f)
    ensures width + 10 * f <= |line| && AllNarrow(cs, f - 1) && Printed(line, name, width, cs, f - 1)
    ensures var q := ReadNarrow(p, f, cs[f - 1]);
      && Clear(q, f - 1) && Apart(q, cs, f - 1) && Unread(q, f - 1)
      && Readings(line, width, control, f, width + 10 * f, p)
         == Readings(line, width, control, f - 1, width + 10 * (f - 1), q)
      && cs[..f - 1] + q.values[f - 1..] == cs[..f] + p.values[f..]
  {
    hide Decimal, Readings, ReadNarrow, Printed, Clear, Apart;
    ReadAligned(line, name, width, control, cs, f, p);
    ReadNarrowClear(p, cs, f);
    PrintedLess(line, name, width, cs, f);
    MergeValues(cs, f, p);
  }

  /** From an aligned position there is one reading, and it is what was printed. */
  lemma {:induction false} Aligned(
      line: Bytes, name: Bytes, width: nat, control: char -> bool, cs: seq<nat>, f: nat, p: Partial)
    requires Printable(name, width, control) && AllNarrow(cs, f) && Unread(p, f)
    requires Printed(line, name, width, cs, f) && Clear(p, f) && Apart(p, cs, f)
    ensures width + 10 * f <= |line|
    ensures Readings(line, width, control, f, width + 10 * f, p) == [Candidate(width, cs[..f] + p.values[f..])]
  {
    hide Printable, Decimal, Printed, Apart, Clear, Readings, ReadNarrow;
    PrintableFits(name, width, control);
    if f == 0 {
      PrintedNothing(line, name, width, cs);
      AlignedEnd(line, name, width, control, p);
      assert cs[..0] + p.values[0..] == p.values;
    } else {
      AlignedStep(line, name, width, control, cs, f, p);
      Aligned(line, name, width, control, cs, f - 1, ReadNarrow(p, f, cs[f - 1]));
    }
  }

  lemma PrintedNothing(line: Bytes, name: Bytes, width: nat, cs: seq<nat>)
    requires |name| <= width && Printed(line, name, width, cs, 0)
    ensures Printed(line, name, width, [], 0)
  {
  }

  lemma ClearIsValid(p: Partial, f: nat)
    requires Clear(p, f)
    ensures p.Valid() && |p.values| == FIELDS
  {
  }

  lemma PrintableFits(name: Bytes, width: nat, control: char -> bool)
    requires Printable(name, width, control)
    ensures |name| < width
  {
  }

  /** Rows whose counters all fit their columns are read back as printed. */
  lemma NarrowRowRoundTrip(name: Bytes, width: nat, control: char -> bool, cs: seq<nat>)
    requires Printable(name, width, control) && |cs| == FIELDS && forall j :: 0 <= j < FIELDS ==> cs[j] < TEN_DIGITS
    ensures ReadRow(Print(name, width, cs), width, control) == Some(Row(name, cs))
  {
    hide Readings, ByteText.TrimSpace;
    var line := Print(name, width, cs);
    NarrowPrefix(name, width, cs, FIELDS);
    Aligned(line, name, width, control, cs, FIELDS, BLANK);
    assert cs[..FIELDS] + BLANK.values[FIELDS..] == cs;
    PrintedName(line, name, width, control, cs);
  }
}
