/** Lexing the printed tokens gives the tokens back, and hidden text never shows in a description. */
module SqlRoundTrip {
  import opened Options
  import opened Utf8
  import opened SqlScan
  import opened SqlLexer
  import opened SqlDescribe

  predicate IsWord(u: Platform, w: string) {
    StartsWord(u, w) && forall i :: 0 <= i < |w| ==> IsWordChar(u, w[i])
  }

  /** The tokens the lexer can emit, described without it. */
  predicate Canonical(u: Platform, t: Token) {
    if t.identifier then
      || (IsWord(u, t.text) && UpperCase(u, t.text) == t.text && !IsHiddenWord(t.text))
      || (|t.text| > 1 && t.text[0] == '"' && QuotedWidth(t.text[1..], '"') == Some(|t.text| - 1))
    else |t.text| == 1 && IsSymbol(t.text[0])
  }

  /** The end of the text, or the blank that Print puts between tokens. */
  predicate Separated(rest: string) { rest == [] || rest[0] == ' ' }

  lemma {:induction false} WordWidthOf(u: Platform, w: string, rest: string)
    requires Lawful(u) && Separated(rest)
    requires forall i :: 0 <= i < |w| ==> IsWordChar(u, w[i])
    ensures WordWidth(u, w + rest) == |w|
  {
    if w == [] {
      assert w + rest == rest;
    } else {
      assert (w + rest)[1..] == w[1..] + rest;
      WordWidthOf(u, w[1..], rest);
    }
  }

  lemma {:induction false} WordWidthTakesWord(u: Platform, s: string)
    ensures forall i :: 0 <= i < WordWidth(u, s) ==> IsWordChar(u, s[i])
  {
    if s != [] && IsWordChar(u, s[0]) {
      WordWidthTakesWord(u, s[1..]);
      forall i | 0 <= i < WordWidth(u, s) ensures IsWordChar(u, s[i]) {
        assert i > 0 ==> s[i] == s[1..][i - 1];
      }
    }
  }

  /**
   * A closed quotation stays closed, and ends in the same place, in front of any text that does not go on with a
   * quote.
   */
  lemma {:induction false} QuotedWidthOf(body: string, rest: string, quote: char)
    requires QuotedWidth(body, quote) == Some(|body|) && (rest == [] || rest[0] != quote)
    ensures QuotedWidth(body + rest, quote) == Some(|body|)
  {
    var s := body + rest;
    assert s[0] == body[0] && s[1..] == body[1..] + rest;
    if body[0] != quote {
      QuotedWidthOf(body[1..], rest, quote);
    } else if |body| > 1 {
      assert s[1] == body[1] && s[2..] == body[2..] + rest;
      QuotedWidthOf(body[2..], rest, quote);
    }
  }

  /** The text of a closed quotation is a closed quotation by itself. */
  lemma {:induction false} QuotedPrefix(s: string, quote: char)
    requires QuotedWidth(s, quote).Some?
    ensures var n := QuotedWidth(s, quote).value; QuotedWidth(s[..n], quote) == Some(n)
  {
    var n := QuotedWidth(s, quote).value;
    var body := s[..n];
    if s[0] != quote {
      QuotedPrefix(s[1..], quote);
      assert body[1..] == s[1..][..n - 1];
    } else if |s| > 1 && s[1] == quote {
      QuotedPrefix(s[2..], quote);
      assert body[2..] == s[2..][..n - 2];
    }
  }

  lemma UpperWord(u: Platform, raw: string)
    requires Lawful(u) && IsWord(u, raw)
    ensures IsWord(u, UpperCase(u, raw)) && UpperCase(u, UpperCase(u, raw)) == UpperCase(u, raw)
  {
  }

  lemma EmittedIsCanonical(u: Platform, s: string)
    requires Lawful(u) && s != [] && LexStep(u, s).Emit?
    ensures Canonical(u, LexStep(u, s).token)
  {
    hide LineWidth, BlockWidth, QuotedWidth, Find2, NumberWidth, WordWidth, UpperCase, IsHiddenWord;
    var item := LexStep(u, s);
    if item.token.identifier {
      if s[0] == '"' {
        QuotedPrefix(s[1..], '"');
        assert s[..item.width][1..] == s[1..][..item.width - 1];
      } else {
        WordWidthTakesWord(u, s[1..]);
        var raw := s[..item.width];
        forall i | 0 <= i < |raw| ensures IsWordChar(u, raw[i]) {
          assert i > 0 ==> raw[i] == s[1..][i - 1];
        }
        UpperWord(u, raw);
      }
    }
  }

  lemma LexSymbol(u: Platform, c: char, rest: string)
    requires Lawful(u) && IsSymbol(c) && Separated(rest)
    ensures LexStep(u, [c] + rest) == Emit(1, Token([c], false))
  {
  }

  lemma LexWord(u: Platform, w: string, rest: string)
    requires Lawful(u) && Separated(rest) && IsWord(u, w) && UpperCase(u, w) == w && !IsHiddenWord(w)
    ensures LexStep(u, w + rest) == Emit(|w|, Token(w, true))
  {
    hide LineWidth, BlockWidth, QuotedWidth, Find2, NumberWidth, IsHiddenWord;
    var s := w + rest;
    assert s[0] == w[0] && IsWordChar(u, w[0]);
    assert |w| > 1 ==> s[1] == w[1] && IsWordChar(u, w[1]);
    assert |w| == 1 && rest != [] ==> s[1] == ' ';
    assert s[1..] == w[1..] + rest;
    WordWidthOf(u, w[1..], rest);
    assert s[..|w|] == w;
  }

  lemma LexQuotedIdentifier(u: Platform, q: string, rest: string)
    requires Separated(rest) && |q| > 1 && q[0] == '"' && QuotedWidth(q[1..], '"') == Some(|q| - 1)
    ensures LexStep(u, q + rest) == Emit(|q|, Token(q, true))
  {
    hide LineWidth, BlockWidth, QuotedWidth, Find2, NumberWidth, UpperCase;
    var s := q + rest;
    QuotedWidthOf(q[1..], rest, '"');
    assert s[0] == '"' && s[1..] == q[1..] + rest && s[..|q|] == q;
  }

  lemma LexCanonical(u: Platform, t: Token, rest: string)
    requires Lawful(u) && Canonical(u, t) && Separated(rest)
    ensures t.text != [] && LexStep(u, t.text + rest) == Emit(|t.text|, t)
  {
    hide LexStep, QuotedWidth, UpperCase, IsHiddenWord;
    if !t.identifier {
      assert t.text == [t.text[0]];
      LexSymbol(u, t.text[0], rest);
    } else if StartsWord(u, t.text) && t.text[0] != '"' {
      LexWord(u, t.text, rest);
    } else {
      LexQuotedIdentifier(u, t.text, rest);
    }
  }

  /** Once the blank before it is skipped, a printed list is lexed as it would be at the start of a text. */
  lemma LexBlank(u: Platform, s: string, count: nat, open: string)
    requires count < MAX_TOKENS
    ensures LexFrom(u, " " + s, count, open) == LexFrom(u, s, count, open)
  {
  }

  lemma LexCons(u: Platform, t: Token, rest: string, count: nat, open: string)
    requires Lawful(u) && Canonical(u, t) && Separated(rest) && count < MAX_TOKENS && Nest(open, t).Some?
    ensures LexFrom(u, t.text + rest, count, open) == Prepend(t, LexFrom(u, rest, count + 1, Nest(open, t).value))
  {
    hide LexStep, Canonical;
    LexCanonical(u, t, rest);
    assert (t.text + rest)[|t.text|..] == rest;
  }

  /** Printing what the lexer returned and lexing that again gives the same tokens. */
  lemma {:induction false} RelexPrinted(u: Platform, s: string, count: nat, open: string)
    requires Lawful(u) && LexFrom(u, s, count, open).Some?
    ensures var ts := LexFrom(u, s, count, open).value; LexFrom(u, Print(ts), count, open) == Some(ts)
    decreases |s|
  {
    hide LexStep, Canonical;
    if s != [] {
      var item := LexStep(u, s);
      var rest := s[item.width..];
      if item.Skip? {
        RelexPrinted(u, rest, count, open);
      } else {
        var t, nested := item.token, Nest(open, item.token).value;
        EmittedIsCanonical(u, s);
        RelexPrinted(u, rest, count + 1, nested);
        var ts := LexFrom(u, rest, count + 1, nested).value;
        PrintCons(t, ts);
        if ts == [] {
          LexCons(u, t, "", count, open);
        } else {
          assert count + 1 < MAX_TOKENS;
          LexBlank(u, Print(ts), count + 1, nested);
          LexCons(u, t, " " + Print(ts), count, open);
        }
      }
    }
  }

  lemma PrintCons(t: Token, ts: seq<Token>)
    ensures Print([t] + ts) == t.text + (if ts == [] then "" else " " + Print(ts))
  {
  }

  lemma TokensOfPrinted(u: Platform, s: string)
    requires Lawful(u) && Tokens(u, s).Some?
    ensures Tokens(u, Print(Tokens(u, s).value)) == Tokens(u, s)
  {
    RelexPrinted(u, s, 0, "");
  }

  /** A description that has a text describes that text: analysing it again changes nothing. */
  lemma DescriptionIsStable(u: Platform, sql: Bytes, inputLimit: int, outputLimit: int, dialect3: bool)
    requires Lawful(u)
    ensures var d := Analyze(u, sql, inputLimit, outputLimit, dialect3);
      d.text != "" ==> Analyze(u, EncodeAll(d.text), 0, 0, dialect3) == d
  {
    hide LexFrom, Describe;
    var d := Analyze(u, sql, inputLimit, outputLimit, dialect3);
    if d.text != "" {
      var s := Decode(sql);
      var ts := Tokens(u, s).value;
      assert d == Describe(u, ts, Limit(outputLimit, MAX_OUTPUT));
      DescribedText(u, ts, Limit(outputLimit, MAX_OUTPUT));
      TokensOfPrinted(u, s);
      DecodeOfEncode(d.text);
    }
  }

  lemma DescribedText(u: Platform, ts: seq<Token>, limit: nat)
    requires ts != [] && Describe(u, ts, limit).text != "" && limit <= MAX_OUTPUT
    ensures Describe(u, ts, limit).text == Print(ts) && |EncodeAll(Print(ts))| <= limit
    ensures Describe(u, ts, MAX_OUTPUT) == Describe(u, ts, limit)
  {
    hide Print, EncodeAll, Target, ObjectName, StartOf, OperationName, IsUpsert;
  }
}
