/** What literals and comments say never reaches a description: one hidden text may be replaced by another. */
module SqlPrivacy {
  import opened Options
  import opened Utf8
  import opened SqlScan
  import opened SqlLexer
  import opened SqlLocality
  import opened SqlDescribe

  /** A stretch of SQL whose body the sanitizer must not show. */
  datatype Hidden =
    | StringLiteral(body: string)
    | HexLiteral(marker: char, body: string)
    | AlternativeLiteral(marker: char, delimiter: char, body: string)
    | LineComment(body: string)
    | LastComment(body: string)
    | BlockComment(body: string)
  {
    predicate IsComment() { LineComment? || LastComment? || BlockComment? }

    function Render(): (s: string)
      ensures |s| >= 2
    {
      match this
      case StringLiteral(b) => "'" + b + "'"
      case HexLiteral(m, b) => [m] + "'" + b + "'"
      case AlternativeLiteral(m, d, b) => [m, '\'', d] + b + [ClosingDelimiter(d), '\'']
      case LineComment(b) => "--" + b + "\n"
      case LastComment(b) => "--" + b
      case BlockComment(b) => "/*" + b + "*/"
    }

    /** The body is one that the opening and closing marks can enclose. */
    predicate WellFormed() {
      match this
      case StringLiteral(b) => Escaped(b)
      case HexLiteral(m, b) => (m == 'x' || m == 'X') && Escaped(b)
      case AlternativeLiteral(m, d, b) =>
        (m == 'q' || m == 'Q') && !IsSpace(d) && d != '\''
        && Find2(b + [ClosingDelimiter(d)], ClosingDelimiter(d), '\'').None?
      case LineComment(b) => '\n' !in b
      case LastComment(b) => '\n' !in b
      case BlockComment(b) => BlockWidth(b + "*/", 1) == Some(|b| + 2)
    }

    /** A quote right after a quoted literal would continue it, and anything at all a comment without a newline. */
    predicate EndsBefore(rest: string) {
      && ((StringLiteral? || HexLiteral?) && rest != [] ==> rest[0] != '\'')
      && (LastComment? ==> rest == [])
    }
  }

  /** Every quote in a literal's body is doubled. */
  predicate Escaped(b: string) {
    b == []
    || (b[0] != '\'' && Escaped(b[1..]))
    || (|b| > 1 && b[0] == '\'' && b[1] == '\'' && Escaped(b[2..]))
  }

  lemma {:induction false} EscapedWidth(b: string, rest: string)
    requires Escaped(b) && (rest != [] ==> rest[0] != '\'')
    ensures QuotedWidth(b + "'" + rest, '\'') == Some(|b| + 1)
  {
    var s := b + "'" + rest;
    if b == [] {
      assert s[0] == '\'' && s[1..] == rest;
    } else if b[0] != '\'' {
      assert s[0] == b[0] && s[1..] == b[1..] + "'" + rest;
      EscapedWidth(b[1..], rest);
    } else {
      assert s[0] == '\'' && s[1] == '\'' && s[2..] == b[2..] + "'" + rest;
      EscapedWidth(b[2..], rest);
    }
  }

  lemma {:induction false} LineCommentWidth(b: string, rest: string)
    requires '\n' !in b
    ensures LineWidth(b + "\n" + rest) == |b| + 1
  {
    var s := b + "\n" + rest;
    if b != [] {
      assert s[0] == b[0] && s[1..] == b[1..] + "\n" + rest;
      LineCommentWidth(b[1..], rest);
    }
  }

  lemma BlockShort(b: string, depth: nat)
    requires |b| <= 1 && depth > 0
    ensures BlockWidth(b, depth).None?
  {
  }

  lemma {:induction false} BlockPrefix(b: string, rest: string, depth: nat)
    requires BlockWidth(b, depth).Some?
    ensures BlockWidth(b + rest, depth) == BlockWidth(b, depth)
  {
    var s := b + rest;
    if depth > 0 {
      assert s[0] == b[0] && s[1..] == b[1..] + rest;
      if |b| <= 1 {
        BlockShort(b, depth);
        assert false;
      }
      assert s[1] == b[1] && s[2..] == b[2..] + rest;
      if StartsWith2(b, '/', '*') {
        BlockPrefix(b[2..], rest, depth + 1);
      } else if StartsWith2(b, '*', '/') {
        BlockPrefix(b[2..], rest, depth - 1);
      } else {
        BlockPrefix(b[1..], rest, depth);
      }
    }
  }

  lemma {:induction false} FindAfter(b: string, c: char, rest: string)
    requires Find2(b + [c], c, '\'').None? && c != '\''
    ensures Find2(b + [c, '\''] + rest, c, '\'') == Some(|b|)
  {
    var s := b + [c, '\''] + rest;
    if b != [] {
      assert s[0] == b[0] == (b + [c])[0] && s[1..] == b[1..] + [c, '\''] + rest;
      assert (b + [c])[1..] == b[1..] + [c];
      assert s[1] == (b + [c])[1];
      FindAfter(b[1..], c, rest);
    }
  }

  lemma StepOfQuote(u: Platform, s: string)
    requires s != [] && s[0] == '\''
    ensures LexStep(u, s) == LiteralLexeme(Plus(1, QuotedWidth(s[1..], '\'')))
  {
    hide QuotedWidth;
  }

  lemma StepOfHexLiteral(u: Platform, s: string)
    requires StartsHexLiteral(s)
    ensures LexStep(u, s) == LiteralLexeme(Plus(2, QuotedWidth(s[2..], '\'')))
  {
    hide QuotedWidth;
  }

  lemma StepOfAlternative(u: Platform, s: string)
    requires StartsAlternativeQuote(s) && !IsSpace(s[2]) && s[2] != '\''
    ensures LexStep(u, s) == LiteralLexeme(AlternativeQuoteWidth(s))
  {
    hide Find2;
  }

  lemma LexAlternative(u: Platform, h: Hidden, rest: string)
    requires h.AlternativeLiteral? && h.WellFormed()
    ensures LexStep(u, h.Render() + rest) == Emit(|h.Render()|, PLACEHOLDER)
  {
    hide LexStep, Find2;
    var s := h.Render() + rest;
    assert s[3..] == h.body + [ClosingDelimiter(h.delimiter), '\''] + rest;
    StepOfAlternative(u, s);
    FindAfter(h.body, ClosingDelimiter(h.delimiter), rest);
  }

  lemma LexString(u: Platform, h: Hidden, rest: string)
    requires h.StringLiteral? && h.WellFormed() && h.EndsBefore(rest)
    ensures LexStep(u, h.Render() + rest) == Emit(|h.Render()|, PLACEHOLDER)
  {
    hide LexStep, QuotedWidth, Escaped, PLACEHOLDER;
    var s := h.Render() + rest;
    EscapedWidth(h.body, rest);
    assert s[1..] == h.body + "'" + rest;
    StepOfQuote(u, s);
  }

  lemma LexHex(u: Platform, h: Hidden, rest: string)
    requires h.HexLiteral? && h.WellFormed() && h.EndsBefore(rest)
    ensures LexStep(u, h.Render() + rest) == Emit(|h.Render()|, PLACEHOLDER)
  {
    hide LexStep, QuotedWidth, Escaped, PLACEHOLDER;
    var s := h.Render() + rest;
    EscapedWidth(h.body, rest);
    assert s[2..] == h.body + "'" + rest;
    StepOfHexLiteral(u, s);
  }

  lemma LexLineComment(u: Platform, h: Hidden, rest: string)
    requires h.WellFormed() && h.LineComment?
    ensures LexStep(u, h.Render() + rest) == Skip(|h.Render()|)
  {
    hide LineWidth, BlockWidth, QuotedWidth, Find2, NumberWidth, WordWidth, UpperCase;
    var s, b := h.Render() + rest, h.body;
    assert s[0] == '-' && s[1] == '-' && s == ("--" + b) + "\n" + rest;
    LineCommentWidth("--" + b, rest);
  }

  lemma {:induction false} LastLineWidth(b: string)
    requires '\n' !in b
    ensures LineWidth(b) == |b|
  {
    if b != [] {
      LastLineWidth(b[1..]);
    }
  }

  lemma LexLastComment(u: Platform, h: Hidden, rest: string)
    requires h.WellFormed() && h.LastComment? && rest == []
    ensures LexStep(u, h.Render() + rest) == Skip(|h.Render()|)
  {
    hide LineWidth, BlockWidth, QuotedWidth, Find2, NumberWidth, WordWidth, UpperCase;
    var s := h.Render();
    assert s + rest == s && s[0] == '-' && s[1] == '-';
    LastLineWidth("--" + h.body);
  }

  lemma LexBlockComment(u: Platform, h: Hidden, rest: string)
    requires h.WellFormed() && h.BlockComment?
    ensures LexStep(u, h.Render() + rest) == Skip(|h.Render()|)
  {
    hide LineWidth, BlockWidth, QuotedWidth, Find2, NumberWidth, WordWidth, UpperCase;
    var s, b := h.Render() + rest, h.body;
    assert s[0] == '/' && s[1] == '*' && s[2..] == (b + "*/") + rest;
    BlockPrefix(b + "*/", rest, 1);
  }

  /** The lexer takes a hidden stretch as one item that shows nothing of its body. */
  lemma LexHidden(u: Platform, h: Hidden, rest: string)
    requires Lawful(u) && h.WellFormed() && h.EndsBefore(rest)
    ensures LexStep(u, h.Render() + rest) ==
      if h.IsComment() then Skip(|h.Render()|) else Emit(|h.Render()|, PLACEHOLDER)
  {
    hide LexStep, Hidden.Render, Hidden.WellFormed;
    match h {
      case LineComment(_) => LexLineComment(u, h, rest);
      case LastComment(_) => LexLastComment(u, h, rest);
      case AlternativeLiteral(_, _, _) => LexAlternative(u, h, rest);
      case StringLiteral(_) => LexString(u, h, rest);
      case HexLiteral(_, _) => LexHex(u, h, rest);
      case BlockComment(_) => LexBlockComment(u, h, rest);
    }
  }

  /** The lexer, started at the head of `s`, stops between two items at position `k`. */
  predicate Boundary(u: Platform, s: string, k: nat)
    decreases |s|
  {
    k == 0
    || (s != [] && !LexStep(u, s).Reject? && LexStep(u, s).width <= k
        && Boundary(u, s[LexStep(u, s).width..], k - LexStep(u, s).width))
  }

  /**
   * Between `a` and `rest` a literal stands for a literal or a comment for a comment, and both texts read `a` to its
   * end.
   */
  predicate Interchangeable(u: Platform, a: string, h: Hidden, h': Hidden, rest: string) {
    && h.WellFormed() && h'.WellFormed() && h.EndsBefore(rest) && h'.EndsBefore(rest)
    && h.IsComment() == h'.IsComment()
    && Boundary(u, a + (h.Render() + rest), |a|)
    && (h.Render()[0] == h'.Render()[0] || Boundary(u, a + (h'.Render() + rest), |a|))
  }

  lemma {:induction false} LexReplaced(
      u: Platform, a: string, h: Hidden, h': Hidden, rest: string, count: nat, open: string)
    requires Lawful(u) && Interchangeable(u, a, h, h', rest)
    ensures LexFrom(u, a + (h.Render() + rest), count, open) == LexFrom(u, a + (h'.Render() + rest), count, open)
    decreases |a|
  {
    hide LexStep;
    var t, t' := h.Render() + rest, h'.Render() + rest;
    if a == [] {
      LexHidden(u, h, rest);
      LexHidden(u, h', rest);
      hide Hidden.Render, Hidden.WellFormed;
      assert a + t == t && a + t' == t';
      assert t[|h.Render()|..] == rest && t'[|h'.Render()|..] == rest;
    } else {
      hide Hidden.Render, Hidden.WellFormed, Hidden.EndsBefore;
      assert t[0] == h.Render()[0] && t'[0] == h'.Render()[0];
      LexLocal(u, a, t, t');
      var item := LexStep(u, a + t);
      Rest(a, t, item.width);
      Rest(a, t', item.width);
      if item.Skip? {
        LexReplaced(u, a[item.width..], h, h', rest, count, open);
      } else if Nest(open, item.token).Some? {
        LexReplaced(u, a[item.width..], h, h', rest, count + 1, Nest(open, item.token).value);
      }
    }
  }

  /** Two texts that differ only in one hidden stretch have the same description. */
  lemma HiddenTextIsHidden(
      u: Platform, a: string, h: Hidden, h': Hidden, rest: string, inputLimit: int, outputLimit: int, dialect3: bool)
    requires Lawful(u) && Interchangeable(u, a, h, h', rest)
    requires |EncodeAll(a + (h.Render() + rest))| <= Limit(inputLimit, MAX_INPUT)
    requires |EncodeAll(a + (h'.Render() + rest))| <= Limit(inputLimit, MAX_INPUT)
    ensures Analyze(u, EncodeAll(a + (h.Render() + rest)), inputLimit, outputLimit, dialect3)
         == Analyze(u, EncodeAll(a + (h'.Render() + rest)), inputLimit, outputLimit, dialect3)
  {
    hide LexFrom, Interchangeable, Describe, Hidden.Render, Hidden.WellFormed;
    LexReplaced(u, a, h, h', rest, 0, "");
    DecodeOfEncode(a + (h.Render() + rest));
    DecodeOfEncode(a + (h'.Render() + rest));
  }
}
