/** The sanitizing lexer (internal/sqltext/sql.go, lex): a bounded token list in which every literal is "?". */
module SqlLexer {
  import opened Options
  import opened SqlScan
  import opened SqlLoops

  const MAX_TOKENS: nat := 4096
  const MAX_NESTING: nat := 128

  datatype Token = Token(text: string, identifier: bool)
  const PLACEHOLDER := Token("?", false)

  datatype Lexeme = Skip(width: nat) | Emit(width: nat, token: Token) | Reject

  predicate IsSymbol(c: char) {
    || c == '(' || c == ')' || c == '[' || c == ']' || c == ',' || c == '.' || c == ';' || c == '?'
    || c == '=' || c == '<' || c == '>' || c == '!' || c == '^' || c == '~' || c == '+' || c == '-'
    || c == '*' || c == '/' || c == '|' || c == ':' || c == '%'
  }

  predicate IsHiddenWord(w: string) { w == "NULL" || w == "TRUE" || w == "FALSE" || w == "UNKNOWN" }

  function WordToken(u: Platform, raw: string): Token {
    var word := UpperCase(u, raw);
    if IsHiddenWord(word) then PLACEHOLDER else Token(word, true)
  }

  function LiteralLexeme(n: Option<nat>): Lexeme {
    match n
    case None => Reject
    case Some(w) => Emit(w, PLACEHOLDER)
  }

  predicate StartsHexLiteral(s: string) {
    |s| > 1 && (s[0] == 'x' || s[0] == 'X') && s[1] == '\''
  }

  /** The item at the head of `s`. */
  function LexStep(u: Platform, s: string): (item: Lexeme)
    requires s != []
    ensures !item.Reject? ==> 0 < item.width <= |s|
  {
    var c := s[0];
    if IsSpace(c) then Skip(1)
    else if StartsWith2(s, '-', '-') then Skip(LineWidth(s))
    else if StartsWith2(s, '/', '*') then
      (match Plus(2, BlockWidth(s[2..], 1)) case None => Reject case Some(w) => Skip(w))
    else if StartsAlternativeQuote(s) then
      if IsSpace(s[2]) || s[2] == '\'' then Reject else LiteralLexeme(AlternativeQuoteWidth(s))
    else if c == '"' then
      (match Plus(1, QuotedWidth(s[1..], '"')) case None => Reject case Some(w) => Emit(w, Token(s[..w], true)))
    else if c == '\'' then LiteralLexeme(Plus(1, QuotedWidth(s[1..], '\'')))
    else if StartsHexLiteral(s) then LiteralLexeme(Plus(2, QuotedWidth(s[2..], '\'')))
    else if StartsNumber(s) then LiteralLexeme(NumberWidth(u, s))
    else if u.letter(c) || c == '_' then
      var w := 1 + WordWidth(u, s[1..]);
      Emit(w, WordToken(u, s[..w]))
    else if IsSymbol(c) then Emit(1, Token([c], false))
    else Reject
  }

  predicate Closes(opening: char, c: char) {
    (c == ')' && opening == '(') || (c == ']' && opening == '[')
  }

  /** The open brackets after a token; None when it closes none of them or opens one too many. */
  function Nest(open: string, t: Token): Option<string> {
    if t.identifier then Some(open)
    else if t.text == "(" || t.text == "[" then
      if |open| < MAX_NESTING then Some(open + t.text) else None
    else if t.text == ")" || t.text == "]" then
      if open != [] && Closes(open[|open| - 1], t.text[0]) then Some(open[..|open| - 1]) else None
    else Some(open)
  }

  function Prepend(t: Token, more: Option<seq<Token>>): Option<seq<Token>> {
    match more
    case None => None
    case Some(ts) => Some([t] + ts)
  }

  /** The tokens of `s` when `count` tokens precede it and the brackets `open` are open. */
  function LexFrom(u: Platform, s: string, count: nat, open: string): Option<seq<Token>>
    decreases |s|
  {
    if s == [] then
      if open == [] then Some([]) else None
    else if count >= MAX_TOKENS then None
    else match LexStep(u, s)
      case Reject => None
      case Skip(w) => LexFrom(u, s[w..], count, open)
      case Emit(w, t) =>
        match Nest(open, t)
        case None => None
        case Some(nested) => Prepend(t, LexFrom(u, s[w..], count + 1, nested))
  }

  /** The token list of a valid SQL text. */
  function Tokens(u: Platform, s: string): Option<seq<Token>> {
    LexFrom(u, s, 0, "")
  }

  function Concat(out: seq<Token>, more: Option<seq<Token>>): Option<seq<Token>> {
    match more
    case None => None
    case Some(ts) => Some(out + ts)
  }

  lemma ConcatUnits(out: seq<Token>, more: Option<seq<Token>>)
    ensures Concat([], more) == more && Concat(out, Some([])) == Some(out)
  {
    assert out + [] == out;
    if more.Some? {
      assert [] + more.value == more.value;
    }
  }

  lemma ConcatPrepend(out: seq<Token>, t: Token, more: Option<seq<Token>>)
    ensures Concat(out + [t], more) == Concat(out, Prepend(t, more))
  {
    if more.Some? {
      assert out + [t] + more.value == out + ([t] + more.value);
    }
  }

  method ScanMantissa(s: string) returns (i: nat)
    ensures i == MantissaWidth(s)
  {
    i := ScanDigits(s, 0, false);
    assert s[0..] == s;
    if i < |s| && s[i] == '.' {
      assert s[i..][1..] == s[i + 1..];
      i := ScanDigits(s, i + 1, false);
    }
  }

  method ScanExponent(s: string) returns (end: Option<nat>)
    ensures end == ExponentWidth(s)
  {
    if s != [] && (s[0] == 'e' || s[0] == 'E') {
      var i := 1;
      if i < |s| && (s[i] == '+' || s[i] == '-') {
        i := i + 1;
      }
      var start := i;
      i := ScanDigits(s, start, false);
      return if i == start then None else Some(i);
    }
    return Some(0);
  }

  method ScanNumber(u: Platform, s: string) returns (end: Option<nat>)
    requires StartsNumber(s)
    ensures end == NumberWidth(u, s)
  {
    hide HexWidth, DigitsWidth, MantissaWidth, ExponentWidth;
    var i: nat;
    if StartsHex(s) {
      i := ScanDigits(s, 2, true);
      if i == 2 {
        return None;
      }
    } else {
      i := ScanMantissa(s);
      var exponent := ScanExponent(s[i..]);
      if exponent == None {
        return None;
      }
      i := i + exponent.value;
    }
    if i < |s| && (u.letter(s[i]) || s[i] == '_') {
      return None;
    }
    return Some(i);
  }

  /** One round of the loop of lex: the item at the head of what is left. */
  method LexItem(u: Platform, s: string) returns (item: Lexeme)
    requires s != []
    ensures item == LexStep(u, s)
  {
    hide BlockWidth, QuotedWidth, WordWidth, NumberWidth, LineWidth, Find2, UpperCase;
    var c := s[0];
    if IsSpace(c) {
      return Skip(1);
    }
    if StartsWith2(s, '-', '-') {
      return Skip(LineWidth(s));
    }
    if StartsWith2(s, '/', '*') {
      var i, closed := ScanBlock(s, 2);
      return if closed then Skip(i) else Reject;
    }
    if (c == 'q' || c == 'Q') && 2 < |s| && s[1] == '\'' {
      if IsSpace(s[2]) || s[2] == '\'' {
        return Reject;
      }
      var end := Find2(s[3..], ClosingDelimiter(s[2]), '\'');
      return if end == None then Reject else Emit(3 + end.value + 2, PLACEHOLDER);
    }
    if c == '\'' || c == '"' || ((c == 'x' || c == 'X') && 1 < |s| && s[1] == '\'') {
      var hex := c == 'x' || c == 'X';
      var quote := if hex then '\'' else c;
      var i, closed := ScanQuoted(s, if hex then 2 else 1, quote);
      return if !closed then Reject else if quote == '"' then Emit(i, Token(s[..i], true)) else Emit(i, PLACEHOLDER);
    }
    if AsciiDigit(c) || (c == '.' && 1 < |s| && AsciiDigit(s[1])) {
      var end := ScanNumber(u, s);
      return if end == None then Reject else Emit(end.value, PLACEHOLDER);
    }
    if u.letter(c) || c == '_' {
      var i := ScanWord(u, s, 1);
      var word := UpperCase(u, s[..i]);
      return if IsHiddenWord(word) then Emit(i, PLACEHOLDER) else Emit(i, Token(word, true));
    }
    return if IsSymbol(c) then Emit(1, Token([c], false)) else Reject;
  }

  lemma LexUnfold(u: Platform, s: string, i: nat, out: seq<Token>, open: string, item: Lexeme)
    requires i < |s| && |out| < MAX_TOKENS && item == LexStep(u, s[i..])
    ensures item.Reject? ==> LexFrom(u, s[i..], |out|, open) == None
    ensures item.Skip? ==> LexFrom(u, s[i..], |out|, open) == LexFrom(u, s[i + item.width..], |out|, open)
    ensures item.Emit? && Nest(open, item.token) == None ==> LexFrom(u, s[i..], |out|, open) == None
    ensures item.Emit? && Nest(open, item.token).Some? ==>
      Concat(out, LexFrom(u, s[i..], |out|, open))
        == Concat(out + [item.token], LexFrom(u, s[i + item.width..], |out| + 1, Nest(open, item.token).value))
  {
    hide LexStep;
    if !item.Reject? {
      assert s[i..][item.width..] == s[i + item.width..];
    }
    if item.Emit? && Nest(open, item.token).Some? {
      ConcatPrepend(out, item.token, LexFrom(u, s[i + item.width..], |out| + 1, Nest(open, item.token).value));
    }
  }

  /** The lexer returns a token list exactly when the text has one, and then that one. */
  method Lex(u: Platform, s: string) returns (tokens: Option<seq<Token>>)
    ensures tokens == Tokens(u, s)
  {
    hide LexStep, LexFrom;
    var out: seq<Token>, delimiters := [], "";
    var i := 0;
    assert s[0..] == s;
    ConcatUnits(out, LexFrom(u, s, 0, ""));
    while i < |s|
      invariant i <= |s|
      invariant Tokens(u, s) == Concat(out, LexFrom(u, s[i..], |out|, delimiters))
    {
      if |out| >= MAX_TOKENS {
        assert LexFrom(u, s[i..], |out|, delimiters) == None by { LexFull(u, s[i..], |out|, delimiters); }
        return None;
      }
      var item := LexItem(u, s[i..]);
      LexUnfold(u, s, i, out, delimiters, item);
      if item.Reject? {
        return None;
      }
      if item.Emit? {
        var t := item.token;
        if !t.identifier && (t.text == "(" || t.text == "[") {
          delimiters := delimiters + t.text;
          if |delimiters| > MAX_NESTING {
            return None;
          }
        } else if !t.identifier && (t.text == ")" || t.text == "]") {
          if |delimiters| == 0 {
            return None;
          }
          var opening := delimiters[|delimiters| - 1];
          if (t.text == ")" && opening != '(') || (t.text == "]" && opening != '[') {
            return None;
          }
          delimiters := delimiters[..|delimiters| - 1];
        }
        out := out + [t];
      }
      i := i + item.width;
    }
    ConcatUnits(out, None);
    LexEnd(u, s[i..], |out|, delimiters);
    return if |delimiters| == 0 then Some(out) else None;
  }

  lemma LexFull(u: Platform, s: string, count: nat, open: string)
    requires s != [] && count >= MAX_TOKENS
    ensures LexFrom(u, s, count, open) == None
  {
  }

  lemma LexEnd(u: Platform, s: string, count: nat, open: string)
    requires s == []
    ensures LexFrom(u, s, count, open) == if open == [] then Some([]) else None
  {
  }
}
