/**
 The lexical items of Firebird SQL, as internal/sqltext/sql.go and internal/sqltext/framing.go recognise them.
 Every function looks at the head of the text that is left and says how many runes the item takes.
 */
module SqlScan {
  import opened Options
  import opened Utf8

  /** What the scanners take from the Go library: Unicode classes, upper-casing, case folding and a digest. */
  datatype Platform = Platform(
    letter: char -> bool,
    digit: char -> bool,
    upper: char -> char,
    equalFold: (string, string) -> bool,
    digest: Bytes -> string)

  predicate IsSpace(c: char) {
    || '\t' <= c <= '\r' || c == ' ' || c == '\U{85}' || c == '\U{A0}' || c == '\U{1680}'
    || '\U{2000}' <= c <= '\U{200A}' || c == '\U{2028}' || c == '\U{2029}' || c == '\U{202F}'
    || c == '\U{205F}' || c == '\U{3000}'
  }

  predicate AsciiDigit(c: char) { '0' <= c <= '9' }

  predicate AsciiLetter(c: char) { 'A' <= c <= 'Z' || 'a' <= c <= 'z' }

  function AsciiUpper(c: char): char {
    if 'a' <= c <= 'z' then (c as int - 32) as char else c
  }

  /** Facts about the Unicode tables that the theorems use. */
  ghost predicate Lawful(u: Platform) {
    && (forall c :: c < '\U{80}' ==> (u.letter(c) <==> AsciiLetter(c)))
    && (forall c :: c < '\U{80}' ==> (u.digit(c) <==> AsciiDigit(c)))
    && (forall c :: c < '\U{80}' ==> u.upper(c) == AsciiUpper(c))
    && (forall c :: u.letter(c) ==> !u.digit(c) && !IsSpace(c) && u.letter(u.upper(c)))
    && (forall c :: u.digit(c) ==> u.upper(c) == c && !IsSpace(c))
    && (forall c :: u.upper(u.upper(c)) == u.upper(c))
  }

  /** The laws can be met: texts of ASCII alone meet them. */
  lemma AsciiIsLawful(equalFold: (string, string) -> bool, digest: Bytes -> string)
    ensures Lawful(Platform(AsciiLetter, AsciiDigit, AsciiUpper, equalFold, digest))
  {
  }

  function Plus(n: nat, more: Option<nat>): Option<nat> {
    match more
    case None => None
    case Some(m) => Some(n + m)
  }

  predicate StartsWith2(s: string, a: char, b: char) {
    |s| >= 2 && s[0] == a && s[1] == b
  }

  /** Runes up to and including the first newline, or all of them. */
  function LineWidth(s: string): (n: nat)
    ensures n <= |s|
  {
    if s == [] then 0 else if s[0] == '\n' then 1 else 1 + LineWidth(s[1..])
  }

  /** Runes until `depth` open block comments are closed. */
  function BlockWidth(s: string, depth: nat): (n: Option<nat>)
    ensures n.Some? ==> n.value <= |s|
  {
    if depth == 0 then Some(0)
    else if s == [] then None
    else if StartsWith2(s, '/', '*') then Plus(2, BlockWidth(s[2..], depth + 1))
    else if StartsWith2(s, '*', '/') then Plus(2, BlockWidth(s[2..], depth - 1))
    else Plus(1, BlockWidth(s[1..], depth))
  }

  /** Runes up to and including the quote that closes a literal; a doubled quote does not. */
  function QuotedWidth(s: string, quote: char): (n: Option<nat>)
    ensures n.Some? ==> 0 < n.value <= |s|
  {
    if s == [] then None
    else if s[0] != quote then Plus(1, QuotedWidth(s[1..], quote))
    else if |s| > 1 && s[1] == quote then Plus(2, QuotedWidth(s[2..], quote))
    else Some(1)
  }

  /** The position of the first `a` followed by `b`. */
  function Find2(s: string, a: char, b: char): (n: Option<nat>)
    ensures n.Some? ==> n.value + 2 <= |s|
  {
    if s == [] then None
    else if StartsWith2(s, a, b) then Some(0)
    else Plus(1, Find2(s[1..], a, b))
  }

  function ClosingDelimiter(c: char): char {
    match c
    case '{' => '}'
    case '[' => ']'
    case '(' => ')'
    case '<' => '>'
    case _ => c
  }

  predicate StartsAlternativeQuote(s: string) {
    |s| > 2 && (s[0] == 'q' || s[0] == 'Q') && s[1] == '\''
  }

  /** The width of a literal such as q'{...}'. */
  function AlternativeQuoteWidth(s: string): (n: Option<nat>)
    requires |s| > 2
    ensures n.Some? ==> 3 < n.value <= |s|
  {
    Plus(5, Find2(s[3..], ClosingDelimiter(s[2]), '\''))
  }

  predicate IsWordChar(u: Platform, c: char) {
    u.letter(c) || u.digit(c) || c == '_' || c == '$'
  }

  function WordWidth(u: Platform, s: string): (n: nat)
    ensures n <= |s|
  {
    if s != [] && IsWordChar(u, s[0]) then 1 + WordWidth(u, s[1..]) else 0
  }

  function DigitsWidth(s: string): (n: nat)
    ensures n <= |s|
  {
    if s != [] && AsciiDigit(s[0]) then 1 + DigitsWidth(s[1..]) else 0
  }

  predicate HexDigit(c: char) {
    AsciiDigit(c) || 'a' <= c <= 'f' || 'A' <= c <= 'F'
  }

  function HexWidth(s: string): (n: nat)
    ensures n <= |s|
  {
    if s != [] && HexDigit(s[0]) then 1 + HexWidth(s[1..]) else 0
  }

  predicate StartsNumber(s: string) {
    s != [] && (AsciiDigit(s[0]) || (s[0] == '.' && |s| > 1 && AsciiDigit(s[1])))
  }

  predicate StartsHex(s: string) {
    |s| > 2 && s[0] == '0' && (s[1] == 'x' || s[1] == 'X')
  }

  function FractionWidth(s: string): (n: nat)
    ensures n <= |s|
  {
    if s != [] && s[0] == '.' then 1 + DigitsWidth(s[1..]) else 0
  }

  function SignWidth(s: string): (n: nat)
    ensures n <= |s|
  {
    if s != [] && (s[0] == '+' || s[0] == '-') then 1 else 0
  }

  /** The width of an exponent, 0 when there is none, None when it has no digits. */
  function ExponentWidth(s: string): (n: Option<nat>)
    ensures n.Some? ==> n.value <= |s|
  {
    if s != [] && (s[0] == 'e' || s[0] == 'E') then
      var sign := SignWidth(s[1..]);
      var digits := DigitsWidth(s[1 + sign..]);
      if digits == 0 then None else Some(1 + sign + digits)
    else
      Some(0)
  }

  function MantissaWidth(s: string): (n: nat)
    ensures n <= |s|
  {
    var whole := DigitsWidth(s);
    whole + FractionWidth(s[whole..])
  }

  function UnboundedNumberWidth(s: string): (n: Option<nat>)
    requires StartsNumber(s)
    ensures n.Some? ==> 0 < n.value <= |s|
  {
    if StartsHex(s) then
      var digits := HexWidth(s[2..]);
      if digits == 0 then None else Some(2 + digits)
    else
      Plus(MantissaWidth(s), ExponentWidth(s[MantissaWidth(s)..]))
  }

  predicate StartsWord(u: Platform, s: string) {
    s != [] && (u.letter(s[0]) || s[0] == '_')
  }

  /** The width of a number; None for a malformed one and for one that runs into a word. */
  function NumberWidth(u: Platform, s: string): (n: Option<nat>)
    requires StartsNumber(s)
    ensures n.Some? ==> 0 < n.value <= |s|
  {
    var width := UnboundedNumberWidth(s);
    if width.Some? && StartsWord(u, s[width.value..]) then None else width
  }

  function UpperCase(u: Platform, s: string): (t: string)
    ensures |t| == |s|
    ensures forall i :: 0 <= i < |s| ==> t[i] == u.upper(s[i])
  {
    seq(|s|, i requires 0 <= i < |s| => u.upper(s[i]))
  }
}
