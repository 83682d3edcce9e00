/** The index loops that lex and LexicallyComplete share, with the bounds tests both of them make. */
module SqlLoops {
  import opened Options
  import opened SqlScan

  predicate At2(s: string, i: nat, a: char, b: char)
    requires i <= |s|
  {
    i + 2 <= |s| && s[i] == a && s[i + 1] == b
  }

  lemma BlockUnfold(s: string, i: nat, depth: nat)
    requires i < |s| && depth > 0
    ensures BlockWidth(s[i..], depth) ==
      if At2(s, i, '/', '*') then Plus(2, BlockWidth(s[i + 2..], depth + 1))
      else if At2(s, i, '*', '/') then Plus(2, BlockWidth(s[i + 2..], depth - 1))
      else Plus(1, BlockWidth(s[i + 1..], depth))
  {
    assert s[i..][1..] == s[i + 1..];
    if i + 2 <= |s| {
      assert s[i..][2..] == s[i + 2..];
    }
  }

  method ScanBlock(s: string, start: nat) returns (i: nat, closed: bool)
    requires start <= |s|
    ensures i <= |s|
    ensures BlockWidth(s[start..], 1) == if closed then Some(i - start) else None
  {
    hide BlockWidth;
    i := start;
    var depth: nat := 1;
    while i < |s| && depth > 0
      invariant start <= i <= |s|
      invariant BlockWidth(s[start..], 1) == Plus(i - start, BlockWidth(s[i..], depth))
      decreases |s| - i
    {
      BlockUnfold(s, i, depth);
      if At2(s, i, '/', '*') {
        depth, i := depth + 1, i + 2;
      } else if At2(s, i, '*', '/') {
        depth, i := depth - 1, i + 2;
      } else {
        i := i + 1;
      }
    }
    closed := depth == 0;
    BlockEnd(s[i..], depth);
  }

  lemma BlockEnd(rest: string, depth: nat)
    requires rest == [] || depth == 0
    ensures BlockWidth(rest, depth) == if depth == 0 then Some(0) else None
  {
  }

  lemma QuotedUnfold(s: string, i: nat, quote: char)
    requires i < |s|
    ensures QuotedWidth(s[i..], quote) ==
      if s[i] != quote then Plus(1, QuotedWidth(s[i + 1..], quote))
      else if At2(s, i, quote, quote) then Plus(2, QuotedWidth(s[i + 2..], quote))
      else Some(1)
  {
    assert s[i..][1..] == s[i + 1..];
    if i + 2 <= |s| {
      assert s[i..][2..] == s[i + 2..];
    }
  }

  lemma QuotedEnd(rest: string, quote: char)
    requires rest == []
    ensures QuotedWidth(rest, quote) == None
  {
  }

  method ScanQuoted(s: string, start: nat, quote: char) returns (i: nat, closed: bool)
    requires start <= |s|
    ensures i <= |s|
    ensures QuotedWidth(s[start..], quote) == if closed then Some(i - start) else None
  {
    hide QuotedWidth;
    i, closed := start, false;
    while i < |s|
      invariant start <= i <= |s|
      invariant !closed
      invariant QuotedWidth(s[start..], quote) == Plus(i - start, QuotedWidth(s[i..], quote))
    {
      QuotedUnfold(s, i, quote);
      if s[i] == quote {
        i := i + 1;
        if i < |s| && s[i] == quote {
          i := i + 1;
          continue;
        }
        closed := true;
        return;
      }
      i := i + 1;
    }
    QuotedEnd(s[i..], quote);
  }

  /** Runes of a run of ASCII digits, or of hexadecimal ones. */
  method ScanDigits(s: string, start: nat, hex: bool) returns (i: nat)
    requires start <= |s|
    ensures i == start + if hex then HexWidth(s[start..]) else DigitsWidth(s[start..])
  {
    i := start;
    while i < |s| && if hex then HexDigit(s[i]) else AsciiDigit(s[i])
      invariant start <= i <= |s|
      invariant hex ==> HexWidth(s[start..]) == i - start + HexWidth(s[i..])
      invariant !hex ==> DigitsWidth(s[start..]) == i - start + DigitsWidth(s[i..])
    {
      assert s[i..][1..] == s[i + 1..];
      i := i + 1;
    }
  }

  method ScanWord(u: Platform, s: string, start: nat) returns (i: nat)
    requires start <= |s|
    ensures i == start + WordWidth(u, s[start..])
  {
    i := start;
    while i < |s|
      invariant start <= i <= |s|
      invariant WordWidth(u, s[start..]) == i - start + WordWidth(u, s[i..])
    {
      if !IsWordChar(u, s[i]) {
        break;
      }
      assert s[i..][1..] == s[i + 1..];
      i := i + 1;
    }
  }
}
