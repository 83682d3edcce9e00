/** Whatever the lexer accepts, framing accepts, although the two split numbers and x-literals differently. */
module SqlAgreement {
  import opened Options
  import opened Utf8
  import opened SqlScan
  import opened SqlLexer
  import opened SqlFraming

  /** Framing passes over the first rune alone. */
  lemma PassOne(u: Platform, s: string, open: string)
    requires s != [] && FrameStep(u, s) == Pass(1)
    ensures Closed(u, s, open) <==> Closed(u, s[1..], open)
  {
  }

  lemma {:induction false} DigitsPass(u: Platform, s: string, open: string)
    requires Lawful(u)
    ensures Closed(u, s, open) <==> Closed(u, s[DigitsWidth(s)..], open)
  {
    if s != [] && AsciiDigit(s[0]) {
      assert FrameStep(u, s) == Pass(1);
      PassOne(u, s, open);
      DigitsPass(u, s[1..], open);
      assert s[1..][DigitsWidth(s[1..])..] == s[DigitsWidth(s)..];
    } else {
      assert s[DigitsWidth(s)..] == s;
    }
  }

  lemma {:induction false} FractionPass(u: Platform, s: string, open: string)
    requires Lawful(u)
    ensures Closed(u, s, open) <==> Closed(u, s[FractionWidth(s)..], open)
  {
    if s != [] && s[0] == '.' {
      assert FrameStep(u, s) == Pass(1);
      PassOne(u, s, open);
      DigitsPass(u, s[1..], open);
      assert s[1..][DigitsWidth(s[1..])..] == s[FractionWidth(s)..];
    } else {
      assert s[FractionWidth(s)..] == s;
    }
  }

  /** The run of word runes at the head of `s` is as long as its digits when no word rune follows those. */
  lemma {:induction false} DigitsAreWord(u: Platform, s: string)
    requires Lawful(u)
    requires DigitsWidth(s) < |s| ==> !IsWordChar(u, s[DigitsWidth(s)])
    ensures WordWidth(u, s) == DigitsWidth(s)
  {
    if s != [] && AsciiDigit(s[0]) {
      DigitsAreWord(u, s[1..]);
    }
  }

  lemma {:induction false} HexIsWord(u: Platform, s: string)
    requires Lawful(u)
    requires HexWidth(s) < |s| ==> !IsWordChar(u, s[HexWidth(s)])
    ensures WordWidth(u, s) == HexWidth(s)
  {
    if s != [] && HexDigit(s[0]) {
      HexIsWord(u, s[1..]);
    }
  }

  /** Neither a letter, a digit, "_" nor "$" continues at the head of `s`. */
  predicate WordBreak(u: Platform, s: string) {
    s == [] || !IsWordChar(u, s[0])
  }

  lemma ExponentPass(u: Platform, s: string, open: string)
    requires Lawful(u) && ExponentWidth(s).Some? && WordBreak(u, s[ExponentWidth(s).value..])
    ensures Closed(u, s, open) <==> Closed(u, s[ExponentWidth(s).value..], open)
  {
    var n := ExponentWidth(s).value;
    if n == 0 {
      assert s[0..] == s;
    } else {
      var sign := SignWidth(s[1..]);
      var tail := s[1 + sign..];
      assert tail[DigitsWidth(tail)..] == s[n..];
      if sign == 0 {
        DigitsAreWord(u, tail);
        assert FrameStep(u, s) == Pass(n);
      } else {
        assert s[1..][1..] == tail;
        assert tail[0] == s[2] && AsciiDigit(s[2]);
        assert WordWidth(u, s[1..]) == 0;
        PassOne(u, s, open);
        SignPass(u, s[1..], open);
        DigitsPass(u, tail, open);
      }
    }
  }

  lemma SignPass(u: Platform, s: string, open: string)
    requires Lawful(u) && |s| > 1 && (s[0] == '+' || s[0] == '-') && AsciiDigit(s[1])
    ensures Closed(u, s, open) <==> Closed(u, s[1..], open)
  {
  }

  /** The word framing sees in a hexadecimal number, from its "x" on. */
  lemma HexWord(u: Platform, s: string)
    requires Lawful(u) && s != [] && (s[0] == 'x' || s[0] == 'X')
    requires HexWidth(s[1..]) > 0 && WordBreak(u, s[1 + HexWidth(s[1..])..])
    ensures FrameStep(u, s) == Pass(1 + HexWidth(s[1..]))
  {
    hide LineWidth, BlockWidth, QuotedWidth, Find2;
    HexIsWord(u, s[1..]);
  }

  lemma HexPass(u: Platform, s: string, open: string)
    requires Lawful(u) && StartsHex(s) && HexWidth(s[2..]) > 0 && WordBreak(u, s[2 + HexWidth(s[2..])..])
    ensures Closed(u, s, open) <==> Closed(u, s[2 + HexWidth(s[2..])..], open)
  {
    var n := HexWidth(s[2..]);
    assert FrameStep(u, s) == Pass(1);
    hide FrameStep;
    PassOne(u, s, open);
    assert s[1..][1..] == s[2..];
    assert s[1..][1 + n..] == s[2 + n..];
    HexWord(u, s[1..]);
  }

  lemma NumberPass(u: Platform, s: string, open: string)
    requires Lawful(u) && StartsNumber(s) && UnboundedNumberWidth(s).Some?
    requires WordBreak(u, s[UnboundedNumberWidth(s).value..])
    ensures Closed(u, s, open) <==> Closed(u, s[UnboundedNumberWidth(s).value..], open)
  {
    hide Closed, ExponentWidth, FrameStep;
    if StartsHex(s) {
      HexPass(u, s, open);
    } else {
      var whole := DigitsWidth(s);
      var mantissa := MantissaWidth(s);
      DigitsPass(u, s, open);
      FractionPass(u, s[whole..], open);
      assert s[whole..][FractionWidth(s[whole..])..] == s[mantissa..];
      assert s[mantissa..][ExponentWidth(s[mantissa..]).value..] == s[UnboundedNumberWidth(s).value..];
      ExponentPass(u, s[mantissa..], open);
    }
  }

  lemma RejectsWordTail(u: Platform, s: string)
    requires Lawful(u) && s != [] && (s[0] == '$' || (u.digit(s[0]) && !AsciiDigit(s[0])))
    ensures LexStep(u, s).Reject?
  {
    hide LineWidth, BlockWidth, QuotedWidth, Find2, NumberWidth, WordWidth;
  }

  /** After a number the lexer only goes on at a word break: it rejects "$" and the other digits of Unicode. */
  lemma NumberThenBreak(u: Platform, s: string, count: nat, open: string)
    requires Lawful(u) && StartsNumber(s) && NumberWidth(u, s).Some?
    requires LexFrom(u, s[NumberWidth(u, s).value..], count, open).Some?
    ensures WordBreak(u, s[NumberWidth(u, s).value..])
  {
    hide LexStep, UnboundedNumberWidth;
    var rest := s[NumberWidth(u, s).value..];
    NumberIsGreedy(s);
    if rest != [] {
      assert rest[0] == s[NumberWidth(u, s).value];
      if rest[0] == '$' || (u.digit(rest[0]) && !AsciiDigit(rest[0])) {
        RejectsWordTail(u, rest);
      }
    }
  }

  lemma NumberIsGreedy(s: string)
    requires StartsNumber(s) && UnboundedNumberWidth(s).Some?
    ensures var n := UnboundedNumberWidth(s).value; n < |s| ==> !AsciiDigit(s[n])
  {
    var n := UnboundedNumberWidth(s).value;
    if StartsHex(s) {
      HexGreedy(s[2..]);
    } else {
      MantissaGreedy(s);
      ExponentGreedy(s[MantissaWidth(s)..]);
    }
  }

  lemma {:induction false} HexGreedy(s: string)
    ensures HexWidth(s) < |s| ==> !HexDigit(s[HexWidth(s)])
  {
    if s != [] && HexDigit(s[0]) {
      HexGreedy(s[1..]);
    }
  }

  lemma {:induction false} DigitsGreedy(s: string)
    ensures DigitsWidth(s) < |s| ==> !AsciiDigit(s[DigitsWidth(s)])
  {
    if s != [] && AsciiDigit(s[0]) {
      DigitsGreedy(s[1..]);
    }
  }

  lemma MantissaGreedy(s: string)
    ensures MantissaWidth(s) < |s| ==> !AsciiDigit(s[MantissaWidth(s)])
  {
    DigitsGreedy(s);
    var rest := s[DigitsWidth(s)..];
    if rest != [] && rest[0] == '.' {
      DigitsGreedy(rest[1..]);
    }
  }

  lemma ExponentGreedy(s: string)
    requires ExponentWidth(s).Some? && (s == [] || !AsciiDigit(s[0]))
    ensures var n := ExponentWidth(s).value; n < |s| ==> !AsciiDigit(s[n])
  {
    if ExponentWidth(s).value > 0 {
      DigitsGreedy(s[1 + SignWidth(s[1..])..]);
    }
  }

  /** Apart from numbers and x-literals, an item of the lexer is an item of framing. */
  lemma SameItem(u: Platform, s: string)
    requires Lawful(u) && s != [] && !LexStep(u, s).Reject?
    requires !StartsNumber(s) && !StartsHexLiteral(s)
    ensures FrameStep(u, s) == match s[0]
      case '(' => Open('(')
      case '[' => Open('[')
      case ')' => Close(')')
      case ']' => Close(']')
      case _ => Pass(LexStep(u, s).width)
  {
    hide LineWidth, BlockWidth, QuotedWidth, Find2, NumberWidth, WordWidth, UpperCase;
  }

  lemma HexLiteralPass(u: Platform, s: string, open: string)
    requires Lawful(u) && StartsHexLiteral(s) && LexStep(u, s).Emit?
    ensures Closed(u, s, open) <==> Closed(u, s[LexStep(u, s).width..], open)
  {
  }

  predicate IsBracket(c: char) { c == '(' || c == '[' || c == ')' || c == ']' }

  /** What the lexer makes of the brackets at the head of `s`. */
  lemma SameBracket(u: Platform, s: string)
    requires Lawful(u) && s != [] && !LexStep(u, s).Reject?
    requires !StartsNumber(s) && !StartsHexLiteral(s)
    ensures IsBracket(s[0]) ==> LexStep(u, s) == Emit(1, Token([s[0]], false))
    ensures !IsBracket(s[0]) && LexStep(u, s).Emit? ==> forall open :: Nest(open, LexStep(u, s).token) == Some(open)
  {
    hide LineWidth, BlockWidth, QuotedWidth, Find2, NumberWidth, WordWidth, UpperCase;
  }

  lemma NumberItem(u: Platform, s: string)
    requires Lawful(u) && StartsNumber(s)
    ensures LexStep(u, s) == LiteralLexeme(NumberWidth(u, s))
  {
    hide NumberWidth;
  }

  /** One item of the lexer takes framing from the same state to the same state. */
  lemma ItemPass(u: Platform, s: string, count: nat, open: string)
    requires Lawful(u) && s != [] && LexFrom(u, s, count, open).Some?
    ensures var item := LexStep(u, s);
      Closed(u, s, open) <==> Closed(u, s[item.width..], if item.Emit? then Nest(open, item.token).value else open)
  {
    hide LexStep, FrameStep, NumberWidth;
    var item := LexStep(u, s);
    if StartsNumber(s) {
      NumberItem(u, s);
      NumberThenBreak(u, s, count + 1, open);
      assert NumberWidth(u, s) == UnboundedNumberWidth(s) by { BoundedNumber(u, s); }
      NumberPass(u, s, open);
    } else if StartsHexLiteral(s) {
      HexLiteralItem(u, s);
      HexLiteralPass(u, s, open);
    } else {
      SameItem(u, s);
      SameBracket(u, s);
      if IsBracket(s[0]) {
        BracketPass(u, s, open);
      }
    }
  }

  lemma BracketPass(u: Platform, s: string, open: string)
    requires s != [] && IsBracket(s[0]) && Nest(open, Token([s[0]], false)).Some?
    requires FrameStep(u, s) == if s[0] == '(' || s[0] == '[' then Open(s[0]) else Close(s[0])
    ensures Closed(u, s, open) <==> Closed(u, s[1..], Nest(open, Token([s[0]], false)).value)
  {
  }

  lemma BoundedNumber(u: Platform, s: string)
    requires StartsNumber(s) && NumberWidth(u, s).Some?
    ensures NumberWidth(u, s) == UnboundedNumberWidth(s)
  {
  }

  lemma HexLiteralItem(u: Platform, s: string)
    requires StartsHexLiteral(s)
    ensures LexStep(u, s) == LiteralLexeme(Plus(2, QuotedWidth(s[2..], '\'')))
  {
    hide QuotedWidth;
  }

  /** The lexer accepts only lexically closed text. */
  lemma {:induction false} LexedIsClosed(u: Platform, s: string, count: nat, open: string)
    requires Lawful(u) && LexFrom(u, s, count, open).Some?
    ensures Closed(u, s, open)
    decreases |s|
  {
    hide LexStep, FrameStep;
    if s != [] {
      var item := LexStep(u, s);
      ItemPass(u, s, count, open);
      if item.Skip? {
        LexedIsClosed(u, s[item.width..], count, open);
      } else {
        LexedIsClosed(u, s[item.width..], count + 1, Nest(open, item.token).value);
      }
    }
  }

  /** The sanitizer never describes a text that framing still holds open. */
  lemma LexedIsComplete(u: Platform, sql: Bytes)
    requires Lawful(u) && |sql| <= MAX_INPUT && Valid(sql) && Tokens(u, Decode(sql)).Some?
    ensures Complete(u, sql)
  {
    LexedIsClosed(u, Decode(sql), 0, "");
  }
}
