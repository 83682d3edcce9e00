/** The helpers of Go's strings package that the code applies to raw bytes, valid UTF-8 or not. */
module ByteText {
  import opened Utf8

  const SPACE: byte := 0x20
  const NEWLINE: byte := 0x0A
  const RETURN: byte := 0x0D

  predicate HasPrefix(s: Bytes, p: Bytes) { |p| <= |s| && s[..|p|] == p }

  predicate HasSuffix(s: Bytes, p: Bytes) { |p| <= |s| && s[|s| - |p|..] == p }

  predicate AsciiSpace(b: byte) { 0x09 <= b <= 0x0D || b == SPACE }

  /** The three bytes of a white-space rune from U+0800 on. */
  predicate WideSpace(s: Bytes) {
    || s == [0xE1, 0x9A, 0x80]
    || (|s| == 3 && s[0] == 0xE2 && s[1] == 0x80
        && (0x80 <= s[2] <= 0x8A || s[2] == 0xA8 || s[2] == 0xA9 || s[2] == 0xAF))
    || s == [0xE2, 0x81, 0x9F]
    || s == [0xE3, 0x80, 0x80]
  }

  /** Bytes of the white-space rune `s` starts with, 0 if there is none. */
  function SpaceWidth(s: Bytes): (n: nat)
    ensures n <= |s|
  {
    if s != [] && AsciiSpace(s[0]) then 1
    else if |s| >= 2 && s[0] == 0xC2 && (s[1] == 0x85 || s[1] == 0xA0) then 2
    else if |s| >= 3 && WideSpace(s[..3]) then 3
    else 0
  }

  /** Bytes of the white-space rune `s` ends with, 0 if there is none. */
  function LastSpaceWidth(s: Bytes): (n: nat)
    ensures n <= |s|
  {
    if s != [] && AsciiSpace(s[|s| - 1]) then 1
    else if |s| >= 2 && s[|s| - 2] == 0xC2 && (s[|s| - 1] == 0x85 || s[|s| - 1] == 0xA0) then 2
    else if |s| >= 3 && WideSpace(s[|s| - 3..]) then 3
    else 0
  }

  function TrimLeft(s: Bytes): (t: Bytes)
    ensures |t| <= |s|
  {
    var n := SpaceWidth(s);
    if n > 0 then TrimLeft(s[n..]) else s
  }

  function TrimRight(s: Bytes): (t: Bytes)
    ensures |t| <= |s|
  {
    var n := LastSpaceWidth(s);
    if n > 0 then TrimRight(s[..|s| - n]) else s
  }

  /** strings.TrimSpace. */
  function TrimSpace(s: Bytes): Bytes {
    TrimRight(TrimLeft(s))
  }

  /** strings.TrimSuffix(line, "\r"). */
  function TrimReturn(s: Bytes): Bytes {
    if s != [] && s[|s| - 1] == RETURN then s[..|s| - 1] else s
  }

  /** The bytes of an ASCII text; anything else becomes a question mark. */
  function Ascii(s: string): (b: Bytes)
    ensures |b| == |s|
  {
    seq(|s|, i requires 0 <= i < |s| => if s[i] < '\U{80}' then s[i] as int else 0x3F)
  }
}
