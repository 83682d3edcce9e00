/** Byte strings, runes (Unicode scalar values, Dafny's `char`) and UTF-8 as RFC 3629, section 4 defines it. */
module Utf8 {
  type byte = b: int | 0 <= b < 0x100
  type Bytes = seq<byte>

  predicate Cont(b: byte) { 0x80 <= b < 0xC0 }

  /** The range of the second byte after lead byte `b`: no overlong form, no surrogate, nothing above U+10FFFF. */
  predicate Second(lead: byte, b: byte) {
    && Cont(b)
    && (lead == 0xE0 ==> 0xA0 <= b)
    && (lead == 0xED ==> b < 0xA0)
    && (lead == 0xF0 ==> 0x90 <= b)
    && (lead == 0xF4 ==> b < 0x90)
  }

  /** The number of bytes of the well-formed sequence `s` starts with, 0 if there is none. */
  function Width(s: Bytes): (w: nat)
    ensures w <= |s| && w <= 4
  {
    if s == [] then 0
    else if s[0] < 0x80 then 1
    else if 0xC2 <= s[0] < 0xE0 && |s| >= 2 && Cont(s[1]) then 2
    else if 0xE0 <= s[0] < 0xF0 && |s| >= 3 && Second(s[0], s[1]) && Cont(s[2]) then 3
    else if 0xF0 <= s[0] < 0xF5 && |s| >= 4 && Second(s[0], s[1]) && Cont(s[2]) && Cont(s[3]) then 4
    else 0
  }

  predicate Valid(s: Bytes)
    decreases |s|
  {
    s == [] || (Width(s) > 0 && Valid(s[Width(s)..]))
  }

  function Encode(c: char): (b: Bytes)
    ensures 1 <= |b| <= 4
  {
    var r := c as int;
    if r < 0x80 then [r]
    else if r < 0x800 then [0xC0 + r / 64, 0x80 + r % 64]
    else if r < 0x10000 then [0xE0 + r / 64 / 64, 0x80 + r / 64 % 64, 0x80 + r % 64]
    else [0xF0 + r / 64 / 64 / 64, 0x80 + r / 64 / 64 % 64, 0x80 + r / 64 % 64, 0x80 + r % 64]
  }

  /** Appends the six payload bits of continuation byte `b`. */
  function Shift(high: int, b: byte): int {
    64 * high + (b as int - 0x80)
  }

  function Scalar(s: Bytes): (r: int)
    requires Width(s) > 0
    ensures 0 <= r < 0xD800 || 0xE000 <= r < 0x110000
  {
    var lead: int := s[0];
    match Width(s)
    case 1 => lead
    case 2 => Shift(lead - 0xC0, s[1])
    case 3 => Shift(Shift(lead - 0xE0, s[1]), s[2])
    case _ => Shift(Shift(Shift(lead - 0xF0, s[1]), s[2]), s[3])
  }

  function Head(s: Bytes): char
    requires Width(s) > 0
  {
    Scalar(s) as char
  }

  function EncodeAll(t: string): Bytes {
    if t == [] then [] else Encode(t[0]) + EncodeAll(t[1..])
  }

  function Decode(s: Bytes): string
    requires Valid(s)
    decreases |s|
  {
    if s == [] then [] else [Head(s)] + Decode(s[Width(s)..])
  }

  lemma SplitShift(r: int, high: int, b: byte)
    requires Cont(b) && r == Shift(high, b)
    ensures r / 64 == high && 0x80 + r % 64 == b
  {
  }

  lemma HeadOfEncode(c: char, rest: Bytes)
    ensures Width(Encode(c) + rest) == |Encode(c)|
    ensures Head(Encode(c) + rest) == c
  {
    var r, b, s := c as int, Encode(c), Encode(c) + rest;
    if r < 0x80 {
    } else if r < 0x800 {
      assert s[0] == b[0] && s[1] == b[1];
    } else if r < 0x10000 {
      assert s[0] == b[0] && s[1] == b[1] && s[2] == b[2];
    } else {
      assert s[0] == b[0] && s[1] == b[1] && s[2] == b[2] && s[3] == b[3];
    }
  }

  lemma EncodeOfHead(s: Bytes)
    requires Width(s) > 0
    ensures Encode(Head(s)) == s[..Width(s)]
  {
    var lead: int := s[0];
    match Width(s)
    case 1 =>
    case 2 =>
      SplitShift(Scalar(s), lead - 0xC0, s[1]);
    case 3 =>
      var top := Shift(lead - 0xE0, s[1]);
      SplitShift(top, lead - 0xE0, s[1]);
      SplitShift(Scalar(s), top, s[2]);
    case _ =>
      var top := Shift(lead - 0xF0, s[1]);
      var middle := Shift(top, s[2]);
      SplitShift(top, lead - 0xF0, s[1]);
      SplitShift(middle, top, s[2]);
      SplitShift(Scalar(s), middle, s[3]);
  }

  /** Decoding undoes encoding; together with `EncodeOfDecode`, encoding is a bijection onto the valid byte strings. */
  lemma {:induction false} DecodeOfEncode(t: string)
    ensures Valid(EncodeAll(t)) && Decode(EncodeAll(t)) == t
  {
    if t != [] {
      HeadOfEncode(t[0], EncodeAll(t[1..]));
      assert EncodeAll(t)[|Encode(t[0])|..] == EncodeAll(t[1..]);
      DecodeOfEncode(t[1..]);
    }
  }

  lemma EncodeAllCons(r: char, t: string)
    ensures EncodeAll([r] + t) == Encode(r) + EncodeAll(t)
  {
    assert ([r] + t)[1..] == t;
  }

  lemma {:induction false} EncodeOfDecode(s: Bytes)
    requires Valid(s)
    ensures EncodeAll(Decode(s)) == s
    decreases |s|
  {
    hide Head, Encode, Width;
    if s != [] {
      var w, r, rest := Width(s), Head(s), s[Width(s)..];
      EncodeOfHead(s);
      EncodeOfDecode(rest);
      EncodeAllCons(r, Decode(rest));
      assert Decode(s) == [r] + Decode(rest);
      assert s[..w] + rest == s;
    }
  }

  lemma {:induction false} EncodeAllAppend(a: string, b: string)
    ensures EncodeAll(a + b) == EncodeAll(a) + EncodeAll(b)
  {
    if a == [] {
      assert a + b == b;
    } else {
      assert (a + b)[1..] == a[1..] + b;
      EncodeAllAppend(a[1..], b);
    }
  }

  lemma WidthExtends(a: Bytes, b: Bytes)
    requires Width(a) > 0
    ensures Width(a + b) == Width(a)
  {
  }

  lemma {:induction false} ValidAppend(a: Bytes, b: Bytes)
    requires Valid(a)
    ensures Valid(a + b) <==> Valid(b)
    decreases |a|
  {
    if a == [] {
      assert a + b == b;
    } else {
      WidthExtends(a, b);
      assert (a + b)[Width(a)..] == a[Width(a)..] + b;
      ValidAppend(a[Width(a)..], b);
    }
  }

  lemma FirstRuneValid(s: Bytes)
    requires Width(s) > 0
    ensures Valid(s[..Width(s)])
  {
    var first := s[..Width(s)];
    assert Width(first) == |first|;
    assert first[|first|..] == [];
  }

  lemma PrependRune(s: Bytes, k: nat)
    requires 0 < Width(s) <= k <= |s| && Valid(s[Width(s)..][..k - Width(s)])
    ensures Valid(s[..k])
  {
    FirstRuneValid(s);
    hide Width, Valid;
    var w := Width(s);
    ValidAppend(s[..w], s[w..][..k - w]);
    assert s[..w] + s[w..][..k - w] == s[..k];
  }

  /** Every four consecutive cut points of a valid string include a rune boundary. */
  lemma {:induction false} BoundaryNear(s: Bytes, n: nat) returns (k: nat)
    requires Valid(s) && n <= |s|
    ensures k <= n < k + 4 && Valid(s[..k])
    decreases |s|
  {
    k := 0;
    if n >= 4 {
      var w := Width(s);
      k := BoundaryNear(s[w..], n - w);
      k := w + k;
      hide Width;
      PrependRune(s, k);
    }
  }

  lemma NoAsciiInside(s: Bytes, k: nat)
    requires 0 < k < Width(s)
    ensures s[k - 1] >= 0x80
  {
  }

  /** The position after an ASCII byte of a valid string is a rune boundary. */
  lemma {:induction false} BoundaryAfterAscii(s: Bytes, k: nat)
    requires Valid(s) && 0 < k <= |s| && s[k - 1] < 0x80
    ensures Valid(s[..k])
    decreases |s|
  {
    hide Width;
    var w := Width(s);
    if k < w {
      NoAsciiInside(s, k);
    } else if k == w {
      FirstRuneValid(s);
    } else {
      BoundaryAfterAscii(s[w..], k - w);
      PrependRune(s, k);
    }
  }
}
