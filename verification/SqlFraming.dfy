/** Statement framing (internal/sqltext/framing.go): is a text lexically closed, and may a statement end with it? */
module SqlFraming {
  import opened Options
  import opened Utf8
  import opened SqlScan
  import opened SqlLoops

  const MAX_INPUT: nat := 65536

  datatype Frame = Pass(width: nat) | Open(c: char) | Close(c: char) | Broken {
    function Width(): nat {
      match this
      case Pass(w) => w
      case _ => 1
    }
  }

  function PassIf(n: Option<nat>): Frame {
    match n
    case None => Broken
    case Some(w) => Pass(w)
  }

  /** The item at the head of `s` as framing sees it. */
  function FrameStep(u: Platform, s: string): (item: Frame)
    requires s != []
    ensures !item.Broken? ==> 0 < item.Width() <= |s|
    ensures item.Close? ==> item.c == ')' || item.c == ']'
  {
    var c := s[0];
    if StartsWith2(s, '-', '-') then Pass(LineWidth(s))
    else if StartsWith2(s, '/', '*') then PassIf(Plus(2, BlockWidth(s[2..], 1)))
    else if StartsAlternativeQuote(s) then PassIf(AlternativeQuoteWidth(s))
    else if c == '\'' || c == '"' then PassIf(Plus(1, QuotedWidth(s[1..], c)))
    else if c == '(' || c == '[' then Open(c)
    else if c == ')' || c == ']' then Close(c)
    else if StartsWord(u, s) then Pass(1 + WordWidth(u, s[1..]))
    else Pass(1)
  }

  predicate Closes(open: string, c: char) {
    open != [] && open[|open| - 1] == if c == ')' then '(' else '['
  }

  /** Every construct and bracket `s` opens is closed again, when the brackets `open` are open before it. */
  predicate Closed(u: Platform, s: string, open: string)
    decreases |s|
  {
    if s == [] then open == []
    else match FrameStep(u, s)
      case Pass(w) => Closed(u, s[w..], open)
      case Open(c) => Closed(u, s[1..], open + [c])
      case Close(c) => Closes(open, c) && Closed(u, s[1..], open[..|open| - 1])
      case Broken => false
  }

  predicate Complete(u: Platform, sql: Bytes) {
    |sql| <= MAX_INPUT && Valid(sql) && Closed(u, Decode(sql), "")
  }

  /** The positions at which the items of `s` start, given that `s` itself starts at `at`. */
  ghost function Cuts(u: Platform, s: string, at: nat): seq<nat>
    decreases |s|
  {
    if s == [] || FrameStep(u, s).Broken? then [] else
    var w := FrameStep(u, s).Width();
    [at] + Cuts(u, s[w..], at + w)
  }

  /** The upper-cased text of the last item of `s` that is neither blank nor a comment, `last` if there is none. */
  function LastItem(u: Platform, s: string, last: string): string
    decreases |s|
  {
    if s == [] || FrameStep(u, s).Broken? then last else
    var w := FrameStep(u, s).Width();
    LastItem(u, s[w..], ItemText(u, s[..w], last))
  }

  function ItemText(u: Platform, item: string, last: string): string
    requires item != []
  {
    var c := item[0];
    if StartsWith2(item, '-', '-') || StartsWith2(item, '/', '*') then last
    else if StartsAlternativeQuote(item) || c == '\'' || c == '"' then "?"
    else if IsSpace(c) then last
    else if StartsWord(u, item) then UpperCase(u, item)
    else [c]
  }

  /** Items after which a statement goes on. */
  predicate NeedsMore(last: string) {
    last in {"SELECT", "FIRST", "SKIP", "FROM", "WHERE", "JOIN", "ON", "AS", "BY", "HAVING", "ORDER", "GROUP", "UNION",
             "ALL", "DISTINCT", "INTERSECT", "EXCEPT", "INTO", "VALUES", "SET", "RETURNING", "WHEN", "THEN", "ELSE",
             "AND", "OR", "NOT", "=", "<", ">", "!", "^", "~", "+", "-", "*", "/", "|", ":", ",", ".", "(", "["}
  }

  predicate MayEnd(u: Platform, sql: Bytes) {
    Complete(u, sql) && !NeedsMore(LastItem(u, Decode(sql), ""))
  }

  lemma ClosedUnfold(u: Platform, s: string, i: nat, open: string, item: Frame)
    requires i < |s| && item == FrameStep(u, s[i..])
    ensures item.Broken? ==> !Closed(u, s[i..], open)
    ensures item.Pass? ==> (Closed(u, s[i..], open) <==> Closed(u, s[i + item.width..], open))
    ensures item.Open? ==> (Closed(u, s[i..], open) <==> Closed(u, s[i + 1..], open + [item.c]))
    ensures item.Close? && !Closes(open, item.c) ==> !Closed(u, s[i..], open)
    ensures item.Close? && Closes(open, item.c) ==>
      (Closed(u, s[i..], open) <==> Closed(u, s[i + 1..], open[..|open| - 1]))
    ensures !item.Broken? ==> Cuts(u, s[i..], i) == [i] + Cuts(u, s[i + item.Width()..], i + item.Width())
  {
    hide FrameStep;
    if !item.Broken? {
      assert s[i..][item.Width()..] == s[i + item.Width()..];
    }
  }

  /** One round of the loop of LexicallyComplete. */
  method FrameItem(u: Platform, s: string) returns (item: Frame)
    requires s != []
    ensures item == FrameStep(u, s)
  {
    hide BlockWidth, QuotedWidth, WordWidth, LineWidth, Find2;
    if StartsWith2(s, '-', '-') {
      return Pass(LineWidth(s));
    }
    if StartsWith2(s, '/', '*') {
      var i, closed := ScanBlock(s, 2);
      return if closed then Pass(i) else Broken;
    }
    if (s[0] == 'q' || s[0] == 'Q') && 2 < |s| && s[1] == '\'' {
      var n := Find2(s[3..], ClosingDelimiter(s[2]), '\'');
      return if n == None then Broken else Pass(3 + n.value + 2);
    }
    if s[0] == '\'' || s[0] == '"' {
      var i, closed := ScanQuoted(s, 1, s[0]);
      return if closed then Pass(i) else Broken;
    }
    if s[0] == '(' || s[0] == '[' {
      return Open(s[0]);
    }
    if s[0] == ')' || s[0] == ']' {
      return Close(s[0]);
    }
    var i := 1;
    if u.letter(s[0]) || s[0] == '_' {
      i := ScanWord(u, s, 1);
    }
    return Pass(i);
  }

  method LexicallyComplete(u: Platform, sql: Bytes) returns (complete: bool, ghost cuts: seq<nat>)
    ensures complete <==> Complete(u, sql)
    ensures complete ==> cuts == Cuts(u, Decode(sql), 0)
  {
    hide FrameStep, Closed, Cuts;
    cuts := [];
    if |sql| > MAX_INPUT || !Valid(sql) {
      return false, cuts;
    }
    var s := Decode(sql);
    var delimiters := "";
    var i := 0;
    assert s[0..] == s;
    while i < |s|
      invariant i <= |s|
      invariant Closed(u, s, "") <==> Closed(u, s[i..], delimiters)
      invariant Cuts(u, s, 0) == cuts + Cuts(u, s[i..], i)
    {
      var item := FrameItem(u, s[i..]);
      ClosedUnfold(u, s, i, delimiters, item);
      match item {
        case Broken =>
          return false, cuts;
        case Pass(w) =>
        case Open(c) =>
          delimiters := delimiters + [c];
        case Close(c) =>
          if |delimiters| == 0 {
            return false, cuts;
          }
          var opening := delimiters[|delimiters| - 1];
          if (c == ')' && opening != '(') || (c == ']' && opening != '[') {
            return false, cuts;
          }
          delimiters := delimiters[..|delimiters| - 1];
      }
      ghost var later := Cuts(u, s[i + item.Width()..], i + item.Width());
      assert cuts + ([i] + later) == cuts + [i] + later;
      cuts := cuts + [i];
      i := i + item.Width();
    }
    ClosedEnd(u, s[i..], delimiters, i);
    complete := |delimiters| == 0;
  }

  lemma ClosedEnd(u: Platform, rest: string, open: string, at: nat)
    requires rest == []
    ensures Closed(u, rest, open) <==> open == []
    ensures Cuts(u, rest, at) == []
  {
  }

  /** The comment loop of StatementMayEnd: it tests no bound, so it needs the comment to be closed. */
  method SkipBlock(s: string, start: nat) returns (i: nat)
    requires start <= |s| && BlockWidth(s[start..], 1).Some?
    ensures i == start + BlockWidth(s[start..], 1).value
  {
    hide BlockWidth;
    i := start;
    var depth: nat := 1;
    while depth > 0
      invariant start <= i <= |s|
      invariant BlockWidth(s[i..], depth).Some?
      invariant BlockWidth(s[start..], 1) == Plus(i - start, BlockWidth(s[i..], depth))
      decreases |s| - i
    {
      if i == |s| {
        BlockEnd(s[i..], depth);
      }
      BlockUnfold(s, i, depth);
      if At2(s, i, '/', '*') {
        depth, i := depth + 1, i + 2;
      } else if At2(s, i, '*', '/') {
        depth, i := depth - 1, i + 2;
      } else {
        i := i + 1;
      }
    }
    BlockEnd(s[i..], depth);
  }

  /** strings.Index: -1 when the pair does not occur. */
  function Index2(s: string, a: char, b: char): int {
    match Find2(s, a, b)
    case None => -1
    case Some(n) => n
  }

  /** One round of the loop of StatementMayEnd, on an item that framing accepts. */
  method SkipItem(u: Platform, s: string, start: nat, last: string) returns (i: nat, text: string)
    requires Lawful(u) && start < |s| && !FrameStep(u, s[start..]).Broken?
    ensures i == start + FrameStep(u, s[start..]).Width()
    ensures text == ItemText(u, s[start..i], last)
  {
    hide BlockWidth, QuotedWidth, WordWidth, LineWidth, Find2, UpperCase;
    i := start;
    if At2(s, i, '-', '-') {
      i := i + LineWidth(s[i..]);
      DashWidth(s[start..]);
      return i, last;
    }
    if At2(s, i, '/', '*') {
      assert s[start..][2..] == s[start + 2..];
      i := SkipBlock(s, i + 2);
      return i, last;
    }
    if (s[i] == 'q' || s[i] == 'Q') && i + 2 < |s| && s[i + 1] == '\'' {
      assert s[start..][3..] == s[start + 3..];
      var n := Index2(s[i + 3..], ClosingDelimiter(s[i + 2]), '\'');
      i := i + 3 + n + 2;
      return i, "?";
    }
    if s[i] == '\'' || s[i] == '"' {
      assert s[start..][1..] == s[start + 1..];
      var end, closed := ScanQuoted(s, i + 1, s[i]);
      return end, "?";
    }
    if IsSpace(s[i]) {
      return i + 1, last;
    }
    if u.letter(s[i]) || s[i] == '_' {
      assert s[start..][1..] == s[start + 1..];
      i := ScanWord(u, s, i + 1);
      return i, UpperCase(u, s[start..i]);
    }
    return i + 1, [s[i]];
  }

  lemma DashWidth(s: string)
    requires StartsWith2(s, '-', '-')
    ensures LineWidth(s) >= 2
  {
  }

  lemma LastUnfold(u: Platform, s: string, i: nat, last: string)
    requires i < |s| && !FrameStep(u, s[i..]).Broken?
    ensures var j := i + FrameStep(u, s[i..]).Width();
      LastItem(u, s[i..], last) == LastItem(u, s[j..], ItemText(u, s[i..j], last))
  {
    hide FrameStep, ItemText;
    var w := FrameStep(u, s[i..]).Width();
    assert s[i..][w..] == s[i + w..];
    assert s[i..][..w] == s[i..i + w];
  }

  /**
   * Both scanners stop at the same positions, so the unchecked scan stays inside every text the checked one accepts.
   */
  method StatementMayEnd(u: Platform, sql: Bytes) returns (may: bool, ghost cuts: seq<nat>)
    requires Lawful(u)
    ensures may <==> MayEnd(u, sql)
    ensures Complete(u, sql) ==> cuts == Cuts(u, Decode(sql), 0)
  {
    hide FrameStep, Closed, Cuts, LastItem, ItemText, NeedsMore;
    var complete, _ := LexicallyComplete(u, sql);
    if !complete {
      return false, [];
    }
    var s := Decode(sql);
    var last := "";
    var i := 0;
    ghost var open := "";
    cuts := [];
    assert s[0..] == s;
    while i < |s|
      invariant i <= |s| && Closed(u, s[i..], open)
      invariant LastItem(u, s, "") == LastItem(u, s[i..], last)
      invariant Cuts(u, s, 0) == cuts + Cuts(u, s[i..], i)
    {
      ghost var item := FrameStep(u, s[i..]);
      ClosedUnfold(u, s, i, open, item);
      LastUnfold(u, s, i, last);
      ghost var later := Cuts(u, s[i + item.Width()..], i + item.Width());
      assert cuts + ([i] + later) == cuts + [i] + later;
      cuts := cuts + [i];
      if item.Open? {
        open := open + [item.c];
      } else if item.Close? {
        open := open[..|open| - 1];
      }
      i, last := SkipItem(u, s, i, last);
    }
    ClosedEnd(u, s[i..], open, i);
    assert LastItem(u, s[i..], last) == last by { LastEnd(u, s[i..], last); }
    may := !NeedsMore(last);
  }

  lemma LastEnd(u: Platform, rest: string, last: string)
    requires rest == []
    ensures LastItem(u, rest, last) == last
  {
  }
}
