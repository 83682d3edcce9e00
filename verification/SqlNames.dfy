/**
 * What a description names: the first object outside parentheses, as the statement spells it
 * (internal/sqltext/sql.go).
 */
module SqlNames {
  import opened Options
  import opened Utf8
  import opened SqlScan
  import opened SqlLexer
  import opened SqlDescribe

  // ---- outside parentheses, by counting

  /** How many of the tokens from `i` up to `j` have this text. */
  function Count(ts: seq<Token>, i: nat, j: nat, text: string): nat
    requires j <= |ts|
    decreases j
  {
    if j <= i then 0 else Count(ts, i, j - 1, text) + if ts[j - 1].text == text then 1 else 0
  }

  /** As many parentheses were closed as opened from `i` up to and including token `k`. */
  predicate Outside(ts: seq<Token>, i: nat, k: nat)
    requires k < |ts|
  {
    Count(ts, i, k + 1, "(") == Count(ts, i, k + 1, ")")
  }

  function Balance(ts: seq<Token>, i: nat, j: nat): int
    requires j <= |ts|
  {
    Count(ts, i, j, "(") - Count(ts, i, j, ")")
  }

  predicate FromAt(ts: seq<Token>, i: nat, k: nat) {
    i <= k < |ts| && ts[k].text == "FROM" && Outside(ts, i, k)
  }

  /** The first FROM outside parentheses from token `i` on. */
  ghost predicate FirstFrom(ts: seq<Token>, i: nat, k: nat) {
    FromAt(ts, i, k) && forall l: nat :: l < k ==> !FromAt(ts, i, l)
  }

  ghost predicate NoFrom(ts: seq<Token>, i: nat) {
    forall l: nat :: !FromAt(ts, i, l)
  }

  lemma {:induction false} AfterFromIsFirst(ts: seq<Token>, i: nat, j: nat)
    requires i <= j <= |ts| && forall l: nat :: l < j ==> !FromAt(ts, i, l)
    ensures var at := AfterFrom(ts, j, Balance(ts, i, j));
      && (at.Some? ==> at.value > 0 && FirstFrom(ts, i, at.value - 1))
      && (at.None? ==> NoFrom(ts, i))
    decreases |ts| - j
  {
    if j < |ts| {
      assert DepthAfter(ts[j], Balance(ts, i, j)) == Balance(ts, i, j + 1);
      if !FromAt(ts, i, j) {
        AfterFromIsFirst(ts, i, j + 1);
      }
    }
  }

  lemma NoFromBefore(ts: seq<Token>, i: nat)
    ensures forall l: nat :: l < i ==> !FromAt(ts, i, l)
  {
  }

  lemma OneFirstFrom(ts: seq<Token>, i: nat, k: nat, l: nat)
    requires FirstFrom(ts, i, k) && FirstFrom(ts, i, l)
    ensures k == l
  {
    hide FromAt;
  }

  /** The table expression is derived: no table follows. */
  predicate Lateral(ts: seq<Token>, start: nat, at: nat)
    requires start < |ts|
  {
    ts[start].text == "SELECT" && TextAt(ts, at, "LATERAL") && TextAt(ts, at + 1, "(")
  }

  /** What follows the first FROM is a derived table. */
  ghost predicate LateralFrom(ts: seq<Token>, start: nat, k: nat)
    requires start < |ts|
  {
    FirstFrom(ts, start + 1, k) && Lateral(ts, start, k + 1)
  }

  /** A SELECT or DELETE works on what follows its first FROM outside parentheses, if that is not a derived table. */
  lemma TargetIsAfterFirstFrom(ts: seq<Token>, start: nat, at: nat)
    requires start < |ts| && (ts[start].text == "SELECT" || ts[start].text == "DELETE")
    ensures Target(ts, start) == Some(at) <==> at > 0 && FirstFrom(ts, start + 1, at - 1) && !Lateral(ts, start, at)
    ensures Target(ts, start) == None <==> NoFrom(ts, start + 1) || exists k: nat :: LateralFrom(ts, start, k)
  {
    hide AfterFrom, FromAt;
    var i := start + 1;
    assert Balance(ts, i, i) == 0;
    NoFromBefore(ts, i);
    AfterFromIsFirst(ts, i, i);
    var found := AfterFrom(ts, i, 0);
    if found.Some? {
      forall k: nat | FirstFrom(ts, i, k) ensures k == found.value - 1 {
        OneFirstFrom(ts, i, k, found.value - 1);
      }
      assert Lateral(ts, start, found.value) ==> LateralFrom(ts, start, found.value - 1);
    }
  }

  predicate OperationAt(ts: seq<Token>, k: nat) {
    0 < k < |ts| && IsOperation(ts[k].text) && Outside(ts, 0, k)
  }

  lemma {:induction false} OperationAfterIsFirst(ts: seq<Token>, j: nat)
    requires j <= |ts| && forall l: nat :: l < j ==> !OperationAt(ts, l)
    ensures var at := OperationAfter(ts, j, Balance(ts, 0, j));
      && (at.Some? ==> OperationAt(ts, at.value) && forall l: nat :: l < at.value ==> !OperationAt(ts, l))
      && (at.None? ==> forall l: nat :: !OperationAt(ts, l))
    decreases |ts| - j
  {
    hide IsOperation;
    if j < |ts| {
      assert DepthAfter(ts[j], Balance(ts, 0, j)) == Balance(ts, 0, j + 1);
      if !OperationAt(ts, j) {
        OperationAfterIsFirst(ts, j + 1);
      }
    }
  }

  /** A statement after common table expressions is its first operation outside parentheses. */
  lemma StartIsFirstOperation(ts: seq<Token>, k: nat)
    requires ts != [] && ts[0].text == "WITH"
    ensures StartOf(ts) == Some(k) <==> OperationAt(ts, k) && forall l: nat :: l < k ==> !OperationAt(ts, l)
    ensures StartOf(ts) == None <==> forall l: nat :: !OperationAt(ts, l)
  {
    hide OperationAfter, OperationAt;
    assert Balance(ts, 0, 0) == 0;
    OperationAfterIsFirst(ts, 0);
  }

  // ---- names

  /** Identifiers with dots between them. */
  predicate Dotted(ts: seq<Token>, i: nat, end: nat) {
    && i < end <= |ts| && (end - i) % 2 == 1
    && forall k :: i <= k < end ==> if (k - i) % 2 == 0 then ts[k].identifier else ts[k].text == "."
  }

  /** The texts of the tokens, one after the other. */
  function TextOf(ts: seq<Token>): string {
    if ts == [] then "" else TextOf(ts[..|ts| - 1]) + ts[|ts| - 1].text
  }

  /** The name goes no further: no dot and identifier follow. */
  predicate NameEnds(ts: seq<Token>, end: nat) {
    end + 1 < |ts| ==> ts[end].text != "." || !ts[end + 1].identifier
  }

  lemma TextOfAppend(ts: seq<Token>, t: Token)
    ensures TextOf(ts + [t]) == TextOf(ts) + t.text
  {
    assert (ts + [t])[..|ts|] == ts;
  }

  lemma TextFurther(ts: seq<Token>, i: nat, j: nat)
    requires i <= j && j + 1 < |ts| && ts[j].text == "."
    ensures TextOf(ts[i..j + 2]) == TextOf(ts[i..j]) + "." + ts[j + 1].text
  {
    hide TextOf;
    TextOfAppend(ts[i..j], ts[j]);
    assert ts[i..j] + [ts[j]] == ts[i..j + 1];
    TextOfAppend(ts[i..j + 1], ts[j + 1]);
    assert ts[i..j + 1] + [ts[j + 1]] == ts[i..j + 2];
  }

  lemma DottedFurther(ts: seq<Token>, i: nat, j: nat)
    requires Dotted(ts, i, j) && j + 1 < |ts| && ts[j].text == "." && ts[j + 1].identifier
    ensures Dotted(ts, i, j + 2)
  {
  }

  lemma {:induction false} QualifiedIsDotted(ts: seq<Token>, i: nat, j: nat)
    requires Dotted(ts, i, j)
    ensures var (name, end) := QualifiedName(ts, j, TextOf(ts[i..j]));
      Dotted(ts, i, end) && i < end <= |ts| && NameEnds(ts, end) && name == TextOf(ts[i..end])
    decreases |ts| - j
  {
    DottedInRange(ts, i, j);
    hide Dotted, TextOf;
    if j + 1 < |ts| && ts[j].text == "." && ts[j + 1].identifier {
      TextFurther(ts, i, j);
      DottedFurther(ts, i, j);
      QualifiedIsDotted(ts, i, j + 2);
    }
  }

  lemma DottedInRange(ts: seq<Token>, i: nat, end: nat)
    requires Dotted(ts, i, end)
    ensures i < end <= |ts|
  {
  }

  /** An object name is all of the dotted identifiers at its token, or nothing when they are longer than 256 bytes. */
  lemma NameIsDotted(ts: seq<Token>, i: nat)
    requires i < |ts| && ts[i].identifier
    ensures var (name, end) := ObjectName(ts, i);
      && Dotted(ts, i, end) && NameEnds(ts, end)
      && name == if |EncodeAll(TextOf(ts[i..end]))| <= MAX_NAME then TextOf(ts[i..end]) else ""
  {
    assert ts[i..i + 1] == [ts[i]];
    assert TextOf([]) == "" && [] + [ts[i]] == [ts[i]];
    TextOfAppend([], ts[i]);
    assert "" + ts[i].text == ts[i].text;
    QualifiedIsDotted(ts, i, i + 1);
  }

  // ---- what a description is made of

  predicate OperationWord(s: string) {
    IsOperation(s) || s in {"SQL", "EXECUTE PROCEDURE", "EXECUTE BLOCK", "UPDATE OR INSERT"}
  }

  /** The name stands in the statement. */
  ghost predicate Names(ts: seq<Token>, name: string) {
    exists i: nat, end: nat :: Dotted(ts, i, end) && name == TextOf(ts[i..end])
  }

  ghost predicate NameOrNothing(ts: seq<Token>, name: string) {
    name == "" || Names(ts, name)
  }

  lemma ObjectIsNamed(ts: seq<Token>, i: nat)
    ensures NameOrNothing(ts, ObjectName(ts, i).0)
  {
    if i < |ts| && ts[i].identifier {
      NameIsDotted(ts, i);
    }
  }

  lemma OperationIsWord(ts: seq<Token>, start: nat)
    requires start < |ts| && IsOperation(ts[start].text)
    ensures OperationWord(OperationName(ts, start))
  {
    assert "EXECUTE" + " " + "PROCEDURE" == "EXECUTE PROCEDURE";
    assert "EXECUTE" + " " + "BLOCK" == "EXECUTE BLOCK";
  }

  /**
   * Beside its text a description shows the operation, one of a fixed set of words, and at most one name, which
   * stands in the statement as identifiers with dots between them. The procedure and the collection are that name or
   * nothing.
   */
  lemma DescriptionNamesOnlyIdentifiers(u: Platform, ts: seq<Token>, limit: nat) returns (name: string)
    requires ts != []
    ensures NameOrNothing(ts, name)
    ensures var d := Describe(u, ts, limit);
      && OperationWord(d.operation)
      && d.summary == (if name == "" then d.operation else d.operation + " " + name)
      && (d.procedure == "" || d.procedure == name) && (d.collection == "" || d.collection == name)
  {
    hide Print, EncodeAll, Target, ObjectName, NameOrNothing, OperationName, IsOperation, IsUpsert;
    name := "";
    NothingIsNamed(ts);
    FixedWords();
    var start := StartOf(ts);
    if start.Some? && IsOperation(ts[start.value].text) {
      OperationIsWord(ts, start.value);
      var target := Target(ts, start.value);
      if target.Some? {
        name := ObjectName(ts, target.value).0;
        ObjectIsNamed(ts, target.value);
      }
    }
  }

  lemma NothingIsNamed(ts: seq<Token>)
    ensures NameOrNothing(ts, "")
  {
  }

  lemma FixedWords()
    ensures OperationWord("SQL") && OperationWord("UPDATE OR INSERT")
  {
  }

  // ---- no quote

  predicate Quoteless(s: string) {
    forall i :: 0 <= i < |s| ==> s[i] != '"'
  }

  predicate AllQuoteless(ts: seq<Token>) {
    forall i :: 0 <= i < |ts| ==> Quoteless(ts[i].text)
  }

  predicate Quoted(t: Token) {
    t.identifier && t.text != [] && t.text[0] == '"'
  }

  lemma WordIsQuoteless(u: Platform, raw: string)
    requires Lawful(u) && forall i :: 0 <= i < |raw| ==> IsWordChar(u, raw[i])
    ensures Quoteless(UpperCase(u, raw))
  {
  }

  lemma {:induction false} WordChars(u: Platform, s: string, i: nat)
    requires i < WordWidth(u, s)
    ensures IsWordChar(u, s[i])
  {
    if i > 0 {
      WordChars(u, s[1..], i - 1);
    }
  }

  /** An item shows a quote only when it is a quoted identifier. */
  lemma EmittedIsQuoteless(u: Platform, s: string)
    requires Lawful(u) && s != [] && LexStep(u, s).Emit? && !Quoted(LexStep(u, s).token)
    ensures Quoteless(LexStep(u, s).token.text)
  {
    hide LineWidth, BlockWidth, QuotedWidth, Find2, NumberWidth, WordWidth, UpperCase, IsHiddenWord;
    var t := LexStep(u, s).token;
    if t.identifier && s[0] != '"' {
      var raw := s[..1 + WordWidth(u, s[1..])];
      forall i | 0 <= i < |raw| ensures IsWordChar(u, raw[i]) {
        if i > 0 {
          WordChars(u, s[1..], i - 1);
        }
      }
      WordIsQuoteless(u, raw);
    }
  }

  lemma {:induction false} LexedIsQuoteless(u: Platform, s: string, count: nat, open: string)
    requires Lawful(u)
    ensures var ts := LexFrom(u, s, count, open);
      ts.Some? && !HasQuotedIdentifier(ts.value) ==> AllQuoteless(ts.value)
    decreases |s|
  {
    hide LexStep, Nest, Quoteless;
    if s != [] && count < MAX_TOKENS && !LexStep(u, s).Reject? {
      var item := LexStep(u, s);
      if item.Skip? {
        LexedIsQuoteless(u, s[item.width..], count, open);
      } else if Nest(open, item.token).Some? {
        var nested := Nest(open, item.token).value;
        LexedIsQuoteless(u, s[item.width..], count + 1, nested);
        var more := LexFrom(u, s[item.width..], count + 1, nested);
        if more.Some? && !HasQuotedIdentifier([item.token] + more.value) {
          QuotedStays(item.token, more.value);
          EmittedIsQuoteless(u, s);
        }
      }
    }
  }

  lemma QuotedStays(t: Token, ts: seq<Token>)
    ensures Quoted(t) || HasQuotedIdentifier(ts) ==> HasQuotedIdentifier([t] + ts)
  {
    var all := [t] + ts;
    assert all[0] == t;
    if HasQuotedIdentifier(ts) {
      var i :| 0 <= i < |ts| && ts[i].identifier && ts[i].text != [] && ts[i].text[0] == '"';
      assert all[i + 1] == ts[i];
    }
  }

  lemma {:induction false} PrintIsQuoteless(ts: seq<Token>)
    requires AllQuoteless(ts)
    ensures Quoteless(Print(ts))
  {
    if |ts| > 1 {
      PrintIsQuoteless(ts[1..]);
    }
  }

  lemma {:induction false} TextIsQuoteless(ts: seq<Token>)
    requires AllQuoteless(ts)
    ensures Quoteless(TextOf(ts))
  {
    if ts != [] {
      TextIsQuoteless(ts[..|ts| - 1]);
    }
  }

  lemma NamesAreQuoteless(ts: seq<Token>, name: string)
    requires AllQuoteless(ts) && NameOrNothing(ts, name)
    ensures Quoteless(name)
  {
    hide TextOf;
    if name != "" {
      var i: nat, end: nat :| Dotted(ts, i, end) && name == TextOf(ts[i..end]);
      TextIsQuoteless(ts[i..end]);
    }
  }

  lemma OperationIsQuoteless(s: string)
    requires OperationWord(s)
    ensures Quoteless(s)
  {
  }

  /**
   * While it is unknown whether double quotes enclose identifiers or literals, no description shows anything that stood
   * between them.
   */
  lemma NoQuoteLeaks(u: Platform, sql: Bytes, inputLimit: int, outputLimit: int)
    requires Lawful(u)
    ensures var d := Analyze(u, sql, inputLimit, outputLimit, false);
      && Quoteless(d.text) && Quoteless(d.operation) && Quoteless(d.summary)
      && Quoteless(d.procedure) && Quoteless(d.collection)
  {
    hide LexFrom, Describe, Quoteless, Print, EncodeAll, OperationWord;
    EmptyIsQuoteless();
    FixedWords();
    OperationIsQuoteless("SQL");
    var d := Analyze(u, sql, inputLimit, outputLimit, false);
    if d != UNKNOWN {
      var ts := Tokens(u, Decode(sql)).value;
      LexedIsQuoteless(u, Decode(sql), 0, "");
      var name := DescriptionNamesOnlyIdentifiers(u, ts, Limit(outputLimit, MAX_OUTPUT));
      NamesAreQuoteless(ts, name);
      OperationIsQuoteless(d.operation);
      SummaryIsQuoteless(d.operation, name);
      PrintIsQuoteless(ts);
      DescribedText(u, ts, Limit(outputLimit, MAX_OUTPUT));
    }
  }

  lemma EmptyIsQuoteless()
    ensures Quoteless("")
  {
  }

  lemma SummaryIsQuoteless(operation: string, name: string)
    requires Quoteless(operation) && Quoteless(name)
    ensures Quoteless(operation + " " + name)
  {
  }

  lemma DescribedText(u: Platform, ts: seq<Token>, limit: nat)
    requires ts != []
    ensures Describe(u, ts, limit).text == "" || Describe(u, ts, limit).text == Print(ts)
  {
    hide Print, EncodeAll, Target, ObjectName, StartOf, OperationName, IsUpsert;
  }
}
