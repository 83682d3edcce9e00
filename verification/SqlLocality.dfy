/**
 * How far the lexer looks ahead: when an item ends inside `a` whichever of two texts follows, it is the same item. It
 * is enough that it ends there in front of one text when the other starts with the same rune.
 */
module SqlLocality {
  import opened Options
  import opened SqlScan
  import opened SqlLexer

  predicate EndsBy(n: Option<nat>, k: nat) {
    n.Some? && n.value <= k
  }

  lemma Rest(a: string, t: string, n: nat)
    requires n <= |a|
    ensures (a + t)[n..] == a[n..] + t
  {
  }

  lemma {:induction false} LineLocal(a: string, t: string, t': string)
    requires t != [] && LineWidth(a + t) <= |a|
    ensures LineWidth(a + t') == LineWidth(a + t)
  {
    if a != [] {
      Rest(a, t, 1);
      Rest(a, t', 1);
      if a[0] != '\n' {
        LineLocal(a[1..], t, t');
      }
    }
  }

  lemma {:induction false} BlockLocal(a: string, t: string, t': string, depth: nat)
    requires t != [] && t' != [] && EndsBy(BlockWidth(a + t, depth), |a|)
    ensures BlockWidth(a + t', depth) == BlockWidth(a + t, depth)
  {
    if depth > 0 {
      var s, s' := a + t, a + t';
      BlockIsWide(s, depth);
      assert s[0] == s'[0] && s[1] == s'[1];
      if StartsWith2(s, '/', '*') {
        Rest(a, t, 2);
        Rest(a, t', 2);
        BlockLocal(a[2..], t, t', depth + 1);
      } else if StartsWith2(s, '*', '/') {
        Rest(a, t, 2);
        Rest(a, t', 2);
        BlockLocal(a[2..], t, t', depth - 1);
      } else {
        Rest(a, t, 1);
        Rest(a, t', 1);
        BlockLocal(a[1..], t, t', depth);
      }
    }
  }

  lemma {:induction false} BlockIsWide(s: string, depth: nat)
    requires depth > 0 && BlockWidth(s, depth).Some?
    ensures BlockWidth(s, depth).value >= 2
  {
    if !StartsWith2(s, '/', '*') && !StartsWith2(s, '*', '/') {
      BlockIsWide(s[1..], depth);
    }
  }

  lemma {:induction false} QuotedLocal(a: string, t: string, t': string, quote: char)
    requires t != [] && t' != [] && EndsBy(QuotedWidth(a + t, quote), |a|)
    requires t[0] == t'[0] || EndsBy(QuotedWidth(a + t', quote), |a|)
    ensures QuotedWidth(a + t', quote) == QuotedWidth(a + t, quote)
  {
    var s, s' := a + t, a + t';
    assert a != [];
    assert s[0] == s'[0];
    if s[0] != quote {
      Rest(a, t, 1);
      Rest(a, t', 1);
      QuotedLocal(a[1..], t, t', quote);
    } else if |a| > 1 && s[1] == quote {
      Rest(a, t, 2);
      Rest(a, t', 2);
      QuotedLocal(a[2..], t, t', quote);
    }
  }

  lemma {:induction false} FindLocal(a: string, t: string, t': string, x: char, y: char)
    requires Find2(a + t, x, y).Some? && Find2(a + t, x, y).value + 2 <= |a|
    ensures Find2(a + t', x, y) == Find2(a + t, x, y)
  {
    var s, s' := a + t, a + t';
    assert s[0] == s'[0] && s[1] == s'[1];
    if !StartsWith2(s, x, y) {
      Rest(a, t, 1);
      Rest(a, t', 1);
      FindLocal(a[1..], t, t', x, y);
    }
  }

  lemma {:induction false} WordLocal(u: Platform, a: string, t: string, t': string)
    requires t != [] && t' != [] && WordWidth(u, a + t) <= |a|
    requires t[0] == t'[0] || WordWidth(u, a + t') <= |a|
    ensures WordWidth(u, a + t') == WordWidth(u, a + t)
  {
    if a == [] {
      assert a + t == t && a + t' == t';
    } else {
      Rest(a, t, 1);
      Rest(a, t', 1);
      if IsWordChar(u, a[0]) {
        WordLocal(u, a[1..], t, t');
      }
    }
  }

  lemma {:induction false} DigitsLocal(a: string, t: string, t': string)
    requires t != [] && t' != [] && DigitsWidth(a + t) <= |a|
    requires t[0] == t'[0] || DigitsWidth(a + t') <= |a|
    ensures DigitsWidth(a + t') == DigitsWidth(a + t)
  {
    if a == [] {
      assert a + t == t && a + t' == t';
    } else {
      Rest(a, t, 1);
      Rest(a, t', 1);
      if AsciiDigit(a[0]) {
        DigitsLocal(a[1..], t, t');
      }
    }
  }

  lemma {:induction false} HexLocal(a: string, t: string, t': string)
    requires t != [] && t' != [] && HexWidth(a + t) <= |a|
    requires t[0] == t'[0] || HexWidth(a + t') <= |a|
    ensures HexWidth(a + t') == HexWidth(a + t)
  {
    if a == [] {
      assert a + t == t && a + t' == t';
    } else {
      Rest(a, t, 1);
      Rest(a, t', 1);
      if HexDigit(a[0]) {
        HexLocal(a[1..], t, t');
      }
    }
  }

  lemma FractionLocal(a: string, t: string, t': string)
    requires t != [] && t' != [] && FractionWidth(a + t) <= |a|
    requires t[0] == t'[0] || FractionWidth(a + t') <= |a|
    ensures FractionWidth(a + t') == FractionWidth(a + t)
  {
    if a == [] {
      assert a + t == t && a + t' == t';
    } else {
      Rest(a, t, 1);
      Rest(a, t', 1);
      if a[0] == '.' {
        DigitsLocal(a[1..], t, t');
      }
    }
  }

  lemma MantissaLocal(a: string, t: string, t': string)
    requires t != [] && t' != [] && MantissaWidth(a + t) <= |a|
    requires t[0] == t'[0] || MantissaWidth(a + t') <= |a|
    ensures MantissaWidth(a + t') == MantissaWidth(a + t)
  {
    hide DigitsWidth, FractionWidth;
    DigitsLocal(a, t, t');
    var whole := DigitsWidth(a + t);
    Rest(a, t, whole);
    Rest(a, t', whole);
    FractionLocal(a[whole..], t, t');
  }

  lemma ExponentLocal(a: string, t: string, t': string)
    requires t != [] && t' != [] && EndsBy(ExponentWidth(a + t), |a|)
    requires t[0] == t'[0] || EndsBy(ExponentWidth(a + t'), |a|)
    ensures ExponentWidth(a + t') == ExponentWidth(a + t)
  {
    var s, s' := a + t, a + t';
    if a == [] {
      assert s == t && s' == t';
    } else if a[0] == 'e' || a[0] == 'E' {
      assert |a| > 1;
      Rest(a, t, 1);
      Rest(a, t', 1);
      var sign := SignWidth(s[1..]);
      Rest(a, t, 1 + sign);
      Rest(a, t', 1 + sign);
      DigitsLocal(a[1 + sign..], t, t');
    }
  }

  lemma UnboundedNumberLocal(a: string, t: string, t': string)
    requires |t| >= 2 && |t'| >= 2 && a != [] && StartsNumber(a + t) && StartsNumber(a + t')
    requires EndsBy(UnboundedNumberWidth(a + t), |a|)
    requires t[0] == t'[0] || EndsBy(UnboundedNumberWidth(a + t'), |a|)
    ensures UnboundedNumberWidth(a + t') == UnboundedNumberWidth(a + t)
  {
    hide HexWidth, MantissaWidth, ExponentWidth;
    var s, s' := a + t, a + t';
    if |a| > 1 && StartsHex(s) {
      Rest(a, t, 2);
      Rest(a, t', 2);
      HexLocal(a[2..], t, t');
    } else {
      MantissaLocal(a, t, t');
      var m := MantissaWidth(s);
      Rest(a, t, m);
      Rest(a, t', m);
      ExponentLocal(a[m..], t, t');
    }
  }

  lemma NumberLocal(u: Platform, a: string, t: string, t': string)
    requires |t| >= 2 && |t'| >= 2 && a != [] && StartsNumber(a + t) && StartsNumber(a + t')
    requires EndsBy(NumberWidth(u, a + t), |a|)
    requires t[0] == t'[0] || EndsBy(NumberWidth(u, a + t'), |a|)
    ensures NumberWidth(u, a + t') == NumberWidth(u, a + t)
  {
    hide UnboundedNumberWidth;
    UnboundedNumberLocal(a, t, t');
    var n := NumberWidth(u, a + t).value;
    Rest(a, t, n);
    Rest(a, t', n);
    if n == |a| {
      assert a[n..] + t == t && a[n..] + t' == t';
    }
  }

  predicate StartsComment(s: string) {
    StartsWith2(s, '-', '-') || StartsWith2(s, '/', '*')
  }

  /** The item at the head of `s` is one, and ends within its first `k` runes. */
  predicate StepEndsBy(u: Platform, s: string, k: nat)
    requires s != []
  {
    !LexStep(u, s).Reject? && LexStep(u, s).width <= k
  }

  lemma CommentLocal(u: Platform, a: string, t: string, t': string)
    requires |t| >= 2 && |t'| >= 2 && a != [] && StartsComment(a + t) && !IsSpace(a[0]) && StepEndsBy(u, a + t, |a|)
    ensures LexStep(u, a + t') == LexStep(u, a + t)
  {
    hide LineWidth, BlockWidth;
    if StartsWith2(a + t, '-', '-') {
      LineIsWide(a + t);
      LineLocal(a, t, t');
    } else {
      Rest(a, t, 2);
      Rest(a, t', 2);
      BlockLocal(a[2..], t, t', 1);
    }
  }

  lemma LineIsWide(s: string)
    requires StartsWith2(s, '-', '-')
    ensures LineWidth(s) >= 2
  {
  }

  predicate StartsLiteral(s: string) {
    StartsAlternativeQuote(s) || StartsHexLiteral(s) || (s != [] && (s[0] == '"' || s[0] == '\''))
  }

  lemma LiteralInside(u: Platform, a: string, t: string)
    requires |t| >= 2 && a != [] && StartsLiteral(a + t) && !IsSpace(a[0]) && StepEndsBy(u, a + t, |a|)
    ensures |a| > 1 || a[0] == '"' || a[0] == '\''
    ensures StartsAlternativeQuote(a + t) ==> |a| > 2
  {
    hide QuotedWidth, Find2;
  }

  lemma LiteralLocal(u: Platform, a: string, t: string, t': string)
    requires |t| >= 2 && |t'| >= 2 && a != [] && StartsLiteral(a + t) && !IsSpace(a[0]) && StepEndsBy(u, a + t, |a|)
    requires t[0] == t'[0] || StepEndsBy(u, a + t', |a|)
    ensures LexStep(u, a + t') == LexStep(u, a + t)
  {
    hide QuotedWidth, Find2;
    LiteralInside(u, a, t);
    var s, s' := a + t, a + t';
    var w := LexStep(u, s).width;
    assert s[..w] == s'[..w];
    if StartsAlternativeQuote(s) {
      Rest(a, t, 3);
      Rest(a, t', 3);
      FindLocal(a[3..], t, t', ClosingDelimiter(s[2]), '\'');
    } else if s[0] == '"' || s[0] == '\'' {
      Rest(a, t, 1);
      Rest(a, t', 1);
      QuotedLocal(a[1..], t, t', s[0]);
    } else {
      Rest(a, t, 2);
      Rest(a, t', 2);
      QuotedLocal(a[2..], t, t', '\'');
    }
  }

  lemma DotInside(u: Platform, a: string, t: string)
    requires a != [] && t != [] && StartsNumber(a + t) && EndsBy(NumberWidth(u, a + t), |a|)
    ensures AsciiDigit(a[0]) || |a| > 1
  {
    if |a| == 1 && !AsciiDigit(a[0]) {
      var s := a + t;
      assert DigitsWidth(s) == 0 && s[0..] == s && s[1..] == t;
      assert DigitsWidth(t) >= 1;
      hide NumberWidth;
      assert MantissaWidth(s) >= 2;
      NumberIsWide(u, s);
    }
  }

  lemma NumberIsWide(u: Platform, s: string)
    requires StartsNumber(s) && !StartsHex(s) && NumberWidth(u, s).Some?
    ensures NumberWidth(u, s).value >= MantissaWidth(s)
  {
    hide MantissaWidth, ExponentWidth;
  }

  /** An item that ends inside `a` in front of both texts, or of one when they start alike, is the same item. */
  lemma LexLocal(u: Platform, a: string, t: string, t': string)
    requires |t| >= 2 && |t'| >= 2 && a != [] && StepEndsBy(u, a + t, |a|)
    requires t[0] == t'[0] || StepEndsBy(u, a + t', |a|)
    ensures LexStep(u, a + t') == LexStep(u, a + t)
  {
    hide LineWidth, BlockWidth, QuotedWidth, Find2, NumberWidth, WordWidth;
    var s, s' := a + t, a + t';
    assert s[0] == s'[0] == a[0];
    if IsSpace(s[0]) {
    } else if StartsComment(s) {
      CommentLocal(u, a, t, t');
    } else if StartsComment(s') {
      CommentLocal(u, a, t', t);
    } else if StartsLiteral(s) {
      LiteralLocal(u, a, t, t');
    } else if StartsLiteral(s') {
      LiteralLocal(u, a, t', t);
    } else if StartsNumber(s) {
      DotInside(u, a, t);
      NumberLocal(u, a, t, t');
    } else if StartsNumber(s') {
      DotInside(u, a, t');
      NumberLocal(u, a, t', t);
    } else if StartsWord(u, s) {
      Rest(a, t, 1);
      Rest(a, t', 1);
      WordLocal(u, a[1..], t, t');
      var w := LexStep(u, s).width;
      assert s[..w] == s'[..w];
    }
  }
}
