/**
 The parser of cJSON as the source runs it: loops over a NUL-terminated text, a string decoder
 that writes into an allocation measured beforehand, and child lists built in order.
 */
module JsonParse {

  import opened Base
  import opened ModularCounters
  import opened Bits
  import opened JsonText
  import opened JsonPrint

  // ---------------------------------------------------------------------
  // Writing a code point
  // ---------------------------------------------------------------------

  function FirstByteMark(len: nat): nat
  {
    if len == 2 then 0xC0 else if len == 3 then 0xE0 else if len == 4 then 0xF0 else 0
  }

  /** The lead byte: the mark does not overlap what is left of the code point. */
  lemma LeadByte(uc: nat, len: nat)
    requires (len == 1 && uc < 0x80) || (len == 2 && uc < 0x20) || (len == 3 && uc < 0x10) || (len == 4 && uc < 8)
    ensures Or(uc, FirstByteMark(len)) == FirstByteMark(len) + uc < 0x100
  {
    assert Pow2(3) == 8 && Pow2(4) == 0x10 && Pow2(5) == 0x20;
    assert Shl(30, 3) == 0xF0;
    assert Shl(14, 2) == 56;
    assert Shl(14, 4) == 0xE0;
    assert Shl(6, 2) == 24;
    assert Shl(6, 4) == 0x60;
    assert Shl(6, 5) == 0xC0;
    match len
    case 2 => OrDisjoint(uc, 6, 5);
    case 3 => OrDisjoint(uc, 14, 4);
    case 4 => OrDisjoint(uc, 30, 3);
    case _ =>
  }

  /** *--ptr2 = ((uc | 0x80) & 0xBF); uc >>= 6; */
  method PutContinuation(out: array<byte>, at: nat, uc: nat) returns (rest: nat)
    requires at < out.Length
    modifies out
    ensures out[..] == old(out[..])[at := 0x80 + uc % 0x40] && rest == uc / 0x40
  {
    LowSixBits(uc);
    SixBits(uc);
    out[at] := And(Or(uc, 0x80), 0xBF) % 0x100;
    rest := Shr(uc, 6);
  }

  /** The continuation bytes that carry the n lowest groups of six bits. */
  function Continuations(c: nat, n: nat): seq<byte>
  {
    if n == 0 then [] else Continuations(c / 0x40, n - 1) + [0x80 + c % 0x40]
  }

  function DropSixes(c: nat, n: nat): nat
  {
    if n == 0 then c else DropSixes(c / 0x40, n - 1)
  }

  function Utf8Length(c: nat): nat
  {
    if c < 0x80 then 1 else if c < 0x800 then 2 else if c < 0x10000 then 3 else 4
  }

  /** The bytes that a lead byte and the continuations make. */
  predicate Shaped(c: nat, len: nat)
    requires c < 0x110000 && len > 0
  {
    var lead := FirstByteMark(len) + DropSixes(c, len - 1);
    lead < 0x100 && Utf8(c) == [lead] + Continuations(c, len - 1)
  }

  lemma ThreeBytes(c: nat)
    requires 0x800 <= c < 0x10000
    ensures Shaped(c, 3) && DropSixes(c, 2) < 0x10
  {
    var d, e := c / 0x40, c / 0x40 / 0x40;
    assert c / 0x1000 == e;
    assert DropSixes(c, 2) == DropSixes(d, 1) == e;
    assert Continuations(d, 1) == [0x80 + d % 0x40];
    assert Continuations(c, 2) == [0x80 + d % 0x40, 0x80 + c % 0x40];
  }

  lemma FourBytes(c: nat)
    requires 0x10000 <= c < 0x110000
    ensures Shaped(c, 4) && DropSixes(c, 3) < 8
  {
    var d, e, f := c / 0x40, c / 0x40 / 0x40, c / 0x40 / 0x40 / 0x40;
    assert c / 0x1000 == e && c / 0x40000 == f;
    assert DropSixes(c, 3) == DropSixes(d, 2) == DropSixes(e, 1) == f;
    assert Continuations(e, 1) == [0x80 + e % 0x40];
    assert Continuations(d, 2) == [0x80 + e % 0x40, 0x80 + d % 0x40];
    assert Continuations(c, 3) == [0x80 + e % 0x40, 0x80 + d % 0x40, 0x80 + c % 0x40];
  }

  lemma FewBytes(c: nat)
    requires c < 0x800
    ensures c < 0x80 ==> Shaped(c, 1) && DropSixes(c, 0) < 0x80
    ensures c >= 0x80 ==> Shaped(c, 2) && DropSixes(c, 1) < 0x20
  {
    assert DropSixes(c, 1) == c / 0x40;
    assert Continuations(c, 1) == [0x80 + c % 0x40];
  }

  /** A UTF-8 sequence is a lead byte with its mark, and continuation bytes. */
  lemma Utf8Shape(c: nat)
    requires c < 0x110000
    ensures var len := Utf8Length(c);
      Shaped(c, len) && Or(DropSixes(c, len - 1), FirstByteMark(len)) == FirstByteMark(len) + DropSixes(c, len - 1)
  {
    hide Shaped, DropSixes, Or, FirstByteMark;
    if c < 0x800 {
      FewBytes(c);
    } else if c < 0x10000 {
      ThreeBytes(c);
    } else {
      FourBytes(c);
    }
    LeadByte(DropSixes(c, Utf8Length(c) - 1), Utf8Length(c));
  }

  /** The length of the UTF-8 form. */
  method LengthOf(point: nat) returns (len: nat)
    requires point < 0x110000
    ensures 1 <= len == Utf8Length(point) == |Utf8(point)|
  {
    len := 4;
    if point < 0x80 {
      len := 1;
    } else if point < 0x800 {
      len := 2;
    } else if point < 0x10000 {
      len := 3;
    }
  }

  /** Transcoding to UTF-8: the length first, then the bytes from the last to the first. */
  method WriteUtf8(out: array<byte>, at: nat, point: nat) returns (end: nat)
    requires point < 0x110000 && at + |Utf8(point)| <= out.Length
    modifies out
    ensures end == at + |Utf8(point)| && out[..][..end] == old(out[..])[..at] + Utf8(point)
  {
    hide Utf8, Utf8Length, Backwards, Continuations, DropSixes;
    var len := LengthOf(point);
    ghost var b := out[..];
    var uc, k := point, len;
    BackwardsStart(b, at, len, point);
    while k > 1
      invariant 1 <= k <= len && Backwards(b, out[..], at, len, k, point, uc)
    {
      BackwardsStep(b, out[..], at, len, k, point, uc);
      k := k - 1;
      uc := PutContinuation(out, at + k, uc);
    }
    PutLead(out, at, uc, len, b, point);
    end := at + len;
  }

  method PutLead(out: array<byte>, at: nat, uc: nat, len: nat, ghost b: seq<byte>, ghost point: nat)
    requires point < 0x110000 && len == Utf8Length(point) && Backwards(b, out[..], at, len, 1, point, uc)
    modifies out
    ensures at + len <= out.Length && out[..][..at + len] == b[..at] + Utf8(point)
  {
    hide Utf8, Or, Utf8Length, FirstByteMark, Continuations, DropSixes, Backwards;
    ghost var c := out[..];
    ghost var lead := LeadIs(point, len);
    BackwardsEnd(b, c, at, len, point, uc, lead);
    out[at] := Or(uc, FirstByteMark(len)) % 0x100;
    assert out[..] == c[at := lead];
  }

  lemma LeadIs(point: nat, len: nat) returns (lead: byte)
    requires point < 0x110000 && len == Utf8Length(point)
    ensures len >= 1 && Or(DropSixes(point, len - 1), FirstByteMark(len)) % 0x100 == lead
    ensures Utf8(point) == [lead] + Continuations(point, len - 1)
  {
    Utf8Shape(point);
    hide Utf8, Or, FirstByteMark, Continuations, DropSixes;
    lead := FirstByteMark(len) + DropSixes(point, len - 1);
  }

  /** The continuation bytes from k on are written; the others are still in uc. */
  ghost predicate Backwards(b: seq<byte>, b': seq<byte>, at: nat, len: nat, k: nat, point: nat, uc: nat)
  {
    && 1 <= k <= len && at + len <= |b| == |b'| && b'[..at] == b[..at]
    && DropSixes(point, len - 1) == DropSixes(uc, k - 1)
    && Continuations(point, len - 1) == Continuations(uc, k - 1) + b'[at + k..at + len]
  }

  lemma BackwardsStart(b: seq<byte>, at: nat, len: nat, point: nat)
    requires 1 <= len && at + len <= |b|
    ensures Backwards(b, b, at, len, len, point, point)
  {
    assert b[at + len..at + len] == [];
  }

  lemma BackwardsStep(b: seq<byte>, b': seq<byte>, at: nat, len: nat, k: nat, point: nat, uc: nat)
    requires Backwards(b, b', at, len, k, point, uc) && k > 1
    ensures at + len <= |b'|
    ensures Backwards(b, b'[at + k - 1 := 0x80 + uc % 0x40], at, len, k - 1, point, uc / 0x40)
  {
    var last: byte := 0x80 + uc % 0x40;
    var c := b'[at + k - 1 := last];
    assert c[at + k - 1..at + len] == [last] + b'[at + k..at + len];
    assert Continuations(uc, k - 1) == Continuations(uc / 0x40, k - 2) + [last];
  }

  lemma BackwardsEnd(b: seq<byte>, b': seq<byte>, at: nat, len: nat, point: nat, uc: nat, lead: byte)
    requires Backwards(b, b', at, len, 1, point, uc)
    ensures at + len <= |b'| && uc == DropSixes(point, len - 1)
    ensures b'[at := lead][..at + len] == b[..at] + ([lead] + Continuations(point, len - 1))
  {
    var c := b'[at := lead];
    assert c[..at + len] == c[..at] + [lead] + b'[at + 1..at + len];
  }

  // ---------------------------------------------------------------------
  // Strings
  // ---------------------------------------------------------------------

  /** The rounds of the measuring loop on the content of a literal: the room it asks for. */
  function Units(c: seq<byte>): nat
  {
    if |c| == 0 then 0
    else if c[0] == BACKSLASH && |c| > 1 then 1 + Units(c[2..])
    else 1 + Units(c[1..])
  }

  /** The content of a literal at the start of a text: n bytes up to its end. */
  predicate Content(t: seq<byte>, n: nat)
  {
    n <= |t| && LiteralEnd(t) == Some(n)
  }

  lemma PlainUnit(t: seq<byte>, n: nat)
    requires Content(t, n) && n > 0 && t[0] != BACKSLASH
    ensures Content(t[1..], n - 1)
    ensures Units(t[..n]) == 1 + Units(t[1..][..n - 1])
    ensures Decode(t[..n]) == Prefix([t[0]], Decode(t[1..][..n - 1]))
  {
    assert t[..n][1..] == t[1..][..n - 1];
  }

  lemma EscapeUnit(t: seq<byte>, n: nat)
    requires Content(t, n) && n > 0 && t[0] == BACKSLASH
    ensures n >= 2 && Content(t[2..], n - 2)
    ensures Units(t[..n]) == 1 + Units(t[2..][..n - 2])
    ensures t[1] != LETTER_U ==> Decode(t[..n]) == Prefix([Unescape(t[1])], Decode(t[2..][..n - 2]))
  {
    assert t[..n][2..] == t[2..][..n - 2];
  }

  /** Four hexadecimal digits are four rounds, and no part of the end of a literal. */
  lemma HexUnits(t: seq<byte>, n: nat)
    requires Content(t, n) && Hex4(t) != 0
    ensures n >= 4 && Content(t[4..], n - 4) && Units(t[..n]) == 4 + Units(t[4..][..n - 4])
    ensures t[..n][4..] == t[4..][..n - 4]
  {
    PlainUnit(t, n);
    PlainUnit(t[1..], n - 1);
    PlainUnit(t[2..], n - 2);
    PlainUnit(t[3..], n - 3);
  }

  /** A \u escape, or a pair, takes more rounds than the bytes it is decoded to. */
  lemma UnicodeUnit(t: seq<byte>, n: nat)
    requires Content(t, n) && n >= 2 && t[0] == BACKSLASH && t[1] == LETTER_U
    ensures EscapedPoint(t[2..][..n - 2]).None? ==> Decode(t[..n]).None?
    ensures EscapedPoint(t[2..][..n - 2]).Some? ==>
              var (point, k) := EscapedPoint(t[2..][..n - 2]).value;
              && 2 + k <= n && Content(t[2 + k..], n - 2 - k)
              && Units(t[..n]) >= |Utf8(point)| + Units(t[2 + k..][..n - 2 - k])
              && Decode(t[..n]) == Prefix(Utf8(point), Decode(t[2 + k..][..n - 2 - k]))
  {
    EscapeUnit(t, n);
    var s, m := t[2..], n - 2;
    assert t[..n][2..] == s[..m];
    var e := EscapedPoint(s[..m]);
    if e.Some? {
      var (point, k) := e.value;
      Hex4Local(s[..m]);
      Hex4Local(s);
      assert s[..m][..4] == s[..4];
      HexUnits(s, m);
      assert t[..n][2 + k..] == t[2 + k..][..n - 2 - k];
      assert t[6..] == s[4..];
      if k == 10 {
        SecondHalf(t, n, s, m);
      }
    }
  }

  lemma SecondHalf(t: seq<byte>, n: nat, s: seq<byte>, m: nat)
    requires 12 <= n <= |t| && s == t[2..] && m == n - 2 && Content(s[4..], m - 4)
    requires s[4] == BACKSLASH && s[5] == LETTER_U && LowSurrogate(Hex4(s[..m][6..]))
    ensures Content(t[12..], n - 12) && Units(s[4..][..m - 4]) == 5 + Units(t[12..][..n - 12])
  {
    EscapeUnit(s[4..], m - 4);
    var v := s[6..];
    assert s[4..][2..] == v && s[..m][6..] == v[..m - 6];
    Hex4Local(v[..m - 6]);
    Hex4Local(v);
    assert v[..m - 6][..4] == v[..4];
    HexUnits(v, m - 6);
    assert v[4..] == t[12..];
  }

  /** parse_hex4 cannot read past the end of a literal: the quote or the NUL there is no digit. */
  lemma HexClipped(t: seq<byte>, m: nat)
    requires m <= |t| && (m < |t| ==> t[m] == QUOTE)
    ensures Hex4(t[..m]) == Hex4(t)
  {
    if m >= 4 {
      Hex4Local(t);
      Hex4Local(t[..m]);
      assert t[..m][..4] == t[..4];
    }
  }

  /** The rounds of the measuring loop up to the end of the literal, if it has one. */
  function Rounds(t: seq<byte>): Option<nat>
  {
    match LiteralEnd(t)
    case None => None
    case Some(n) => Some(Units(t[..n]))
  }

  lemma RoundStep(t: seq<byte>)
    requires |t| > 0 && t[0] != QUOTE
    ensures t[0] == BACKSLASH && |t| == 1 ==> LiteralEnd(t) == None
    ensures t[0] == BACKSLASH && |t| > 1 ==>
              LiteralEnd(t) == Shift(LiteralEnd(t[2..]), 2) && Rounds(t) == Shift(Rounds(t[2..]), 1)
    ensures t[0] != BACKSLASH ==> LiteralEnd(t) == Shift(LiteralEnd(t[1..]), 1) && Rounds(t) == Shift(Rounds(t[1..]), 1)
  {
    EndStep(t);
    hide LiteralEnd, Units, Decode, EscapedPoint;
    if LiteralEnd(t).Some? {
      var n := LiteralEnd(t).value;
      if t[0] == BACKSLASH {
        EscapeRound(t, n);
      } else {
        PlainRound(t, n);
      }
    }
  }

  lemma PlainRound(t: seq<byte>, n: nat)
    requires LiteralEnd(t) == Some(n) && n > 0 && t[0] != BACKSLASH
    ensures Rounds(t) == Shift(Rounds(t[1..]), 1)
  {
    hide LiteralEnd, Units, Decode;
    PlainUnit(t, n);
  }

  lemma EscapeRound(t: seq<byte>, n: nat)
    requires LiteralEnd(t) == Some(n) && n > 0 && t[0] == BACKSLASH
    ensures |t| > 1 && Rounds(t) == Shift(Rounds(t[2..]), 1)
  {
    hide LiteralEnd, Units, Decode;
    EscapeUnit(t, n);
  }

  lemma EndStep(t: seq<byte>)
    requires |t| > 0 && t[0] != QUOTE
    ensures t[0] == BACKSLASH && |t| == 1 ==> LiteralEnd(t) == None
    ensures t[0] == BACKSLASH && |t| > 1 ==> LiteralEnd(t) == Shift(LiteralEnd(t[2..]), 2)
    ensures t[0] != BACKSLASH ==> LiteralEnd(t) == Shift(LiteralEnd(t[1..]), 1)
  {
  }

  /** After `len` rounds the measuring loop stands at `end`. */
  ghost predicate Scanning(str: seq<byte>, end: nat, len: nat)
    requires |str| > 0 && end > 0
  {
    if end > |str| then LiteralEnd(str[1..]) == None
    else
      && LiteralEnd(str[1..]) == Shift(LiteralEnd(str[end..]), end - 1)
      && Rounds(str[1..]) == Shift(Rounds(str[end..]), len)
  }

  lemma ScanStep(str: seq<byte>, end: nat, len: nat)
    requires |str| > 0 && 1 <= end < |str| && str[end] != QUOTE && Scanning(str, end, len)
    ensures Scanning(str, if str[end] == BACKSLASH then end + 2 else end + 1, len + 1)
  {
    var u := str[end..];
    hide LiteralEnd, Rounds;
    RoundStep(u);
    if str[end] != BACKSLASH {
      assert u[1..] == str[end + 1..];
      ScanMoved(str, end, end + 1, len);
    } else if |u| > 1 {
      assert u[2..] == str[end + 2..];
      ScanMoved(str, end, end + 2, len);
    }
  }

  lemma ScanMoved(str: seq<byte>, end: nat, end': nat, len: nat)
    requires |str| > 0 && 1 <= end <= end' <= |str| && Scanning(str, end, len)
    requires LiteralEnd(str[end..]) == Shift(LiteralEnd(str[end'..]), end' - end)
    requires Rounds(str[end..]) == Shift(Rounds(str[end'..]), 1)
    ensures Scanning(str, end', len + 1)
  {
    hide LiteralEnd, Rounds;
  }

  /** The measuring loop. */
  method ScanLiteral(str: seq<byte>) returns (end: nat, len: nat)
    requires NUL !in str && |str| > 0 && str[0] == QUOTE
    ensures LiteralEnd(str[1..]).None? ==> end > |str|
    ensures LiteralEnd(str[1..]).Some? ==> end == LiteralEnd(str[1..]).value + 1 && Rounds(str[1..]) == Some(len)
  {
    end, len := 1, 0;
    RoundsKnown(str[1..]);
    assert Scanning(str, end, len);
    hide Scanning, LiteralEnd, Rounds;
    while end <= |str| && ByteAt(str, end) != QUOTE && ByteAt(str, end) != NUL
      invariant 1 <= end <= |str| + 1 && Scanning(str, end, len)
      decreases |str| + 1 - end
    {
      ScanStep(str, end, len);
      len := len + 1;
      if str[end] == BACKSLASH {
        end := end + 2;
      } else {
        end := end + 1;
      }
    }
    ScanEnd(str, end, len);
  }

  lemma ScanEnd(str: seq<byte>, end: nat, len: nat)
    requires |str| > 0 && 1 <= end && Scanning(str, end, len) && (end < |str| ==> str[end] == QUOTE)
    ensures LiteralEnd(str[1..]).None? ==> end > |str|
    ensures LiteralEnd(str[1..]).Some? ==> end == LiteralEnd(str[1..]).value + 1 && Rounds(str[1..]) == Some(len)
  {
    if end <= |str| {
      RoundsDone(str[end..]);
    }
  }

  lemma RoundsKnown(t: seq<byte>)
    ensures LiteralEnd(t) == Shift(LiteralEnd(t), 0) && Rounds(t) == Shift(Rounds(t), 0)
  {
  }

  lemma RoundsDone(t: seq<byte>)
    requires |t| == 0 || t[0] == QUOTE
    ensures LiteralEnd(t) == Some(0) && Rounds(t) == Some(0)
  {
  }

  /** What the escape behind the u at start stands for: its code point and the position of its last digit, or 0. */
  predicate ReadsPoint(e: Option<(nat, nat)>, start: nat, point: nat, ptr: nat)
  {
    match e
    case None => point == 0
    case Some((p, k)) => point == p && ptr == start + k && p > 0
  }

  /** The code point at a \u escape whose u is at start, and the position of its last digit; 0 if it is invalid. */
  method ReadUnicode(str: seq<byte>, start: nat, end: nat) returns (point: nat, ptr: nat)
    requires start < end <= |str| && (end < |str| ==> str[end] == QUOTE)
    ensures ReadsPoint(EscapedPoint(str[start + 1..end]), start, point, ptr)
  {
    hide Hex4, Combine;
    ghost var s := str[start + 1..end];
    SliceOfSlice(str, start + 1, end);
    HexClipped(str[start + 1..], end - start - 1);
    ptr := start;
    var uc := Hex4(str[ptr + 1..]);
    ShortHex(s);
    ptr := ptr + 4;
    if ptr >= end {
      return 0, ptr;
    }
    if (0xDC00 <= uc <= 0xDFFF) || uc == 0 {
      return 0, ptr;
    }
    if 0xD800 <= uc <= 0xDBFF {
      point, ptr := ReadLow(str, start, end, uc);
      return;
    }
    return uc, ptr;
  }

  lemma ShortHex(s: seq<byte>)
    ensures |s| < 4 ==> Hex4(s) == 0
  {
  }

  /** The second half of a surrogate pair. */
  method ReadLow(str: seq<byte>, start: nat, end: nat, uc: nat) returns (point: nat, ptr: nat)
    requires start + 4 < end <= |str| && (end < |str| ==> str[end] == QUOTE)
    requires HighSurrogate(uc) && Hex4(str[start + 1..end]) == uc
    ensures ReadsPoint(EscapedPoint(str[start + 1..end]), start, point, ptr)
  {
    hide Hex4, LiteralEnd, Or, Shl, And, Combine;
    ptr := start + 4;
    if ptr + 6 > end {
      return 0, ptr;
    }
    if str[ptr + 1] != BACKSLASH || str[ptr + 2] != LETTER_U {
      return 0, ptr;
    }
    SliceOfSlice(str, start + 7, end);
    SliceTail(str, start + 1, end, 6);
    HexClipped(str[ptr + 3..], end - ptr - 3);
    ShortHex(str[start + 7..end]);
    var uc2 := Hex4(str[ptr + 3..]);
    ptr := ptr + 6;
    if uc2 < 0xDC00 || uc2 > 0xDFFF {
      return 0, ptr;
    }
    SurrogateBits(uc, uc2);
    CombineAbove(uc, uc2);
    return 0x10000 + Or(Shl(And(uc, 0x3FF), 10), And(uc2, 0x3FF)), ptr;
  }

  lemma CombineAbove(high: nat, low: nat)
    requires HighSurrogate(high) && LowSurrogate(low)
    ensures Combine(high, low) > 0
  {
  }

  lemma SliceOfSlice(s: seq<byte>, a: nat, b: nat)
    requires a <= b <= |s|
    ensures s[a..][..b - a] == s[a..b]
  {
  }

  lemma SliceTail(s: seq<byte>, a: nat, b: nat, k: nat)
    requires a + k <= b <= |s|
    ensures s[a..b][k..] == s[a + k..b]
  {
  }

  lemma SurrogateBits(high: nat, low: nat)
    requires HighSurrogate(high) && LowSurrogate(low)
    ensures 0x10000 + Or(Shl(And(high, 0x3FF), 10), And(low, 0x3FF)) == Combine(high, low)
  {
    assert Pow2(10) == 0x400;
    LowMaskIsRemainder(high, 10);
    LowMaskIsRemainder(low, 10);
    ModUnique(high, 0x400, 54, high - 0xD800);
    ModUnique(low, 0x400, 55, low - 0xDC00);
    ShlTen(high % 0x400);
    OrDisjoint(low % 0x400, high % 0x400, 10);
    OrCommutes(Shl(high % 0x400, 10), low % 0x400);
  }

  lemma ShlTen(x: nat)
    ensures Shl(x, 10) == 0x400 * x
  {
    assert Shl(x, 1) == 2 * x;
    assert Shl(x, 3) == 8 * x;
    assert Shl(x, 5) == 32 * x;
    assert Shl(x, 7) == 128 * x;
    assert Shl(x, 9) == 512 * x;
  }

  lemma {:induction false} OrCommutes(x: nat, y: nat)
    ensures Or(x, y) == Or(y, x)
  {
    if x > 0 && y > 0 {
      OrCommutes(x / 2, y / 2);
    }
  }

  // --- decoding

  /** What has been written, and what the rest of the content decodes to, make up the whole. */
  ghost predicate Decoding(all: Option<seq<byte>>, out: seq<byte>, rest: seq<byte>)
  {
    all == Prefix(out, Decode(rest))
  }

  /** The decoder at a position: what is written, what is left, and that it fits the room that is left. */
  ghost predicate DecoderAt(str: seq<byte>, ptr: nat, end: nat, all: Option<seq<byte>>, b: seq<byte>, at: nat)
  {
    && ptr <= end <= |str| && Content(str[ptr..], end - ptr)
    && at + Units(str[ptr..][..end - ptr]) < |b|
    && Decoding(all, b[..at], str[ptr..][..end - ptr])
  }

  lemma DecoderMoves(str: seq<byte>, ptr: nat, ptr': nat, end: nat, all: Option<seq<byte>>, b: seq<byte>, b': seq<byte>,
          at: nat, s: seq<byte>)
    requires DecoderAt(str, ptr, end, all, b, at) && ptr <= ptr' <= end && Content(str[ptr'..], end - ptr')
    requires Units(str[ptr..][..end - ptr]) >= |s| + Units(str[ptr'..][..end - ptr'])
    requires Decode(str[ptr..][..end - ptr]) == Prefix(s, Decode(str[ptr'..][..end - ptr']))
    requires |b'| == |b| && at + |s| <= |b| && b'[..at + |s|] == b[..at] + s
    ensures DecoderAt(str, ptr', end, all, b', at + |s|)
  {
    hide Decode, Units;
    var r := Decode(str[ptr'..][..end - ptr']);
    if r.Some? {
      assert b[..at] + (s + r.value) == b[..at] + s + r.value;
    }
  }

  /** Write one byte for the k bytes read. */
  method PutDecoded(str: seq<byte>, ptr: nat, k: nat, end: nat, out: array<byte>, at: nat, b: byte,
          ghost all: Option<seq<byte>>)
    requires DecoderAt(str, ptr, end, all, out[..], at) && k > 0 && ptr + k <= end <= |str|
        && Content(str[ptr + k..], end - ptr - k)
    requires Units(str[ptr..][..end - ptr]) == 1 + Units(str[ptr + k..][..end - ptr - k])
    requires Decode(str[ptr..][..end - ptr]) == Prefix([b], Decode(str[ptr + k..][..end - ptr - k]))
    modifies out
    ensures DecoderAt(str, ptr + k, end, all, out[..], at + 1)
  {
    hide Decode, Units, LiteralEnd, Decoding;
    ghost var before := out[..];
    out[at] := b;
    assert out[..at + 1] == before[..at] + [b];
    DecoderMoves(str, ptr, ptr + k, end, all, before, out[..], at, [b]);
  }

  method DecodeUnicode(str: seq<byte>, ptr: nat, end: nat, out: array<byte>, at: nat, ghost all: Option<seq<byte>>)
    returns (ok: bool, ptr': nat, at': nat)
    requires DecoderAt(str, ptr, end, all, out[..], at) && ptr + 2 <= end && str[ptr] == BACKSLASH
        && str[ptr + 1] == LETTER_U
    modifies out
    ensures !ok ==> all == None
    ensures ok ==> ptr < ptr' && DecoderAt(str, ptr', end, all, out[..], at')
  {
    hide Decode, Units, LiteralEnd, Utf8, EscapedPoint, DecoderAt, Content, Prefix, Decoding;
    ghost var b := out[..];
    EscapeAhead(str, ptr, end, all, b, at);
    var point, last := ReadUnicode(str, ptr + 1, end);
    if point == 0 {
      DecoderFails(str, ptr, end, all, b, at);
      return false, ptr, at;
    }
    at' := WriteUtf8(out, at, point);
    DecoderMoves(str, ptr, last + 1, end, all, b, out[..], at, Utf8(point));
    return true, last + 1, at';
  }

  lemma EscapeAhead(str: seq<byte>, ptr: nat, end: nat, all: Option<seq<byte>>, b: seq<byte>, at: nat)
    requires DecoderAt(str, ptr, end, all, b, at) && ptr + 2 <= end && str[ptr] == BACKSLASH && str[ptr + 1] == LETTER_U
    ensures end <= |str| && (end < |str| ==> str[end] == QUOTE) && at + Units(str[ptr..][..end - ptr]) < |b|
    ensures EscapedPoint(str[ptr + 2..end]).None? ==> Decode(str[ptr..][..end - ptr]).None?
    ensures EscapedPoint(str[ptr + 2..end]).Some? ==>
              var (point, k) := EscapedPoint(str[ptr + 2..end]).value;
              var next := ptr + 2 + k;
              && point < 0x110000 && next <= end && Content(str[next..], end - next)
              && Units(str[ptr..][..end - ptr]) >= |Utf8(point)| + Units(str[next..][..end - next])
              && Decode(str[ptr..][..end - ptr]) == Prefix(Utf8(point), Decode(str[next..][..end - next]))
  {
    hide Decode, Units, LiteralEnd, Utf8, EscapedPoint, Prefix, Decoding;
    UnicodeAhead(str, ptr, end);
    DecoderInRange(str, ptr, end, all, b, at);
  }

  lemma DecoderInRange(str: seq<byte>, ptr: nat, end: nat, all: Option<seq<byte>>, b: seq<byte>, at: nat)
    requires DecoderAt(str, ptr, end, all, b, at)
    ensures ptr <= end <= |str| && (end < |str| ==> str[end] == QUOTE)
    ensures at + Units(str[ptr..][..end - ptr]) < |b|
  {
  }

  lemma DecoderFails(str: seq<byte>, ptr: nat, end: nat, all: Option<seq<byte>>, b: seq<byte>, at: nat)
    requires DecoderAt(str, ptr, end, all, b, at) && Decode(str[ptr..][..end - ptr]) == None
    ensures all == None
  {
  }

  /** What a \u escape at ptr decodes to, and where the decoder goes on. */
  lemma UnicodeAhead(str: seq<byte>, ptr: nat, end: nat)
    requires ptr + 2 <= end <= |str| && Content(str[ptr..], end - ptr) && str[ptr] == BACKSLASH
        && str[ptr + 1] == LETTER_U
    ensures EscapedPoint(str[ptr + 2..end]).None? ==> Decode(str[ptr..][..end - ptr]).None?
    ensures EscapedPoint(str[ptr + 2..end]).Some? ==>
              var (point, k) := EscapedPoint(str[ptr + 2..end]).value;
              var next := ptr + 2 + k;
              && next <= end && Content(str[next..], end - next)
              && Units(str[ptr..][..end - ptr]) >= |Utf8(point)| + Units(str[next..][..end - next])
              && Decode(str[ptr..][..end - ptr]) == Prefix(Utf8(point), Decode(str[next..][..end - next]))
  {
    hide Decode, Units, LiteralEnd, Utf8, EscapedPoint;
    var t, n := str[ptr..], end - ptr;
    UnicodeUnit(t, n);
    SliceTail2(str, ptr, end);
    var e := EscapedPoint(str[ptr + 2..end]);
    if e.Some? {
      var k := e.value.1;
      assert t[2 + k..] == str[ptr + 2 + k..];
    }
  }

  /** One character, escape, or pair of escapes. */
  method DecodeUnit(str: seq<byte>, ptr: nat, end: nat, out: array<byte>, at: nat, ghost all: Option<seq<byte>>)
    returns (ok: bool, ptr': nat, at': nat)
    requires ptr < end && DecoderAt(str, ptr, end, all, out[..], at)
    modifies out
    ensures !ok ==> all == None
    ensures ok ==> ptr < ptr' && DecoderAt(str, ptr', end, all, out[..], at')
  {
    ghost var t, n := str[ptr..], end - ptr;
    assert ptr < end <= |str| && Content(t, n);
    if str[ptr] != BACKSLASH {
      PlainUnit(t, n);
      assert t[1..] == str[ptr + 1..];
      hide Decode, Units, LiteralEnd, DecoderAt;
      PutDecoded(str, ptr, 1, end, out, at, str[ptr], all);
      return true, ptr + 1, at + 1;
    }
    EscapeUnit(t, n);
    assert t[2..] == str[ptr + 2..];
    hide Decode, Units, LiteralEnd, DecoderAt;
    if str[ptr + 1] != LETTER_U {
      PutDecoded(str, ptr, 2, end, out, at, Unescape(str[ptr + 1]), all);
      return true, ptr + 2, at + 1;
    }
    ok, ptr', at' := DecodeUnicode(str, ptr, end, out, at, all);
  }

  lemma SliceTail2(s: seq<byte>, a: nat, b: nat)
    requires a + 2 <= b <= |s|
    ensures s[a..][2..][..b - a - 2] == s[a + 2..b]
  {
  }

  /** parse_string: the decoded string and the position behind the literal; it fits what was measured. */
  method ReadString(str: seq<byte>) returns (p: Parsed<seq<byte>>, out: array<byte>)
    requires NUL !in str
    ensures p == ParseString(str)
    ensures p.Ok? ==> IsText(out, p.value)
  {
    out := new byte[0];
    if ByteAt(str, 0) != QUOTE {
      return Bad, out;
    }
    var end, len := ScanLiteral(str);
    if end > |str| {
      return Unmodelled, out;
    }
    out := new byte[len + 1];
    var ptr: nat, at: nat := 1, 0;
    ghost var all := Decode(str[1..][..end - 1]);
    StartDecoding(str, end, len, out[..]);
    while ptr < end
      invariant ptr <= end && DecoderAt(str, ptr, end, all, out[..], at) && fresh(out)
      decreases end - ptr
    {
      var ok;
      ok, ptr, at := DecodeUnit(str, ptr, end, out, at, all);
      if !ok {
        return Bad, out;
      }
    }
    EndDecoding(str, ptr, end, all, out[..], at);
    ghost var s := out[..at];
    out[at] := NUL;
    assert out[..at] == s;
    if ByteAt(str, ptr) == QUOTE {
      ptr := ptr + 1;
    }
    assert str[1..][ptr - 1..] == str[ptr..];
    return Ok(out[..at], str[ptr..]), out;
  }

  lemma StartDecoding(str: seq<byte>, end: nat, len: nat, b: seq<byte>)
    requires 1 <= end <= |str| && LiteralEnd(str[1..]) == Some(end - 1) && Rounds(str[1..]) == Some(len)
        && |b| == len + 1
    ensures DecoderAt(str, 1, end, Decode(str[1..][..end - 1]), b, 0)
  {
    var r := Decode(str[1..][..end - 1]);
    if r.Some? {
      assert b[..0] + r.value == r.value;
    }
  }

  lemma EndDecoding(str: seq<byte>, ptr: nat, end: nat, all: Option<seq<byte>>, b: seq<byte>, at: nat)
    requires DecoderAt(str, ptr, end, all, b, at) && ptr == end
    ensures at < |b| && all == Some(b[..at])
  {
    assert b[..at] + [] == b[..at];
  }

  // ---------------------------------------------------------------------
  // Values
  // ---------------------------------------------------------------------

  method SkipBlanks(text: seq<byte>) returns (rest: seq<byte>)
    requires NUL !in text
    ensures rest == Skip(text) && NUL !in rest
  {
    var i := 0;
    assert text[0..] == text;
    while ByteAt(text, i) != NUL && text[i] <= 32
      invariant 0 <= i <= |text| && Skip(text[i..]) == Skip(text)
      decreases |text| - i
    {
      assert text[i..][1..] == text[i + 1..];
      i := i + 1;
    }
    rest := text[i..];
  }

  /** parse_number, on integers. */
  method ReadNumber(num: seq<byte>) returns (p: Parsed<Json>)
    requires NUL !in num && |num| > 0 && (num[0] == MINUS || IsDigit(num[0]))
    ensures p == ParseNumber(num)
  {
    hide EndNumber;
    var i, sign, n := 0, 1, 0;
    if num[i] == MINUS {
      sign, i := -1, i + 1;
    }
    ghost var u := num[i..];
    if ByteAt(num, i) == ZERO {
      i := i + 1;
    }
    ghost var u' := num[i..];
    assert u' == if Head(u) == ZERO then u[1..] else u;
    if ByteAt(num, i) > ZERO && IsDigit(ByteAt(num, i)) {
      while IsDigit(ByteAt(num, i))
        invariant 0 <= i <= |num| && n >= 0 && Digits(num[i..], n) == Digits(u', 0)
        decreases |num| - i
      {
        assert num[i..][1..] == num[i + 1..];
        n := n * 10 + (num[i] - ZERO);
        i := i + 1;
      }
    }
    p := FinishNumber(num, i, if sign == -1 then -n else n);
  }

  /** A fraction or a power behind the integer, or its range. */
  method FinishNumber(num: seq<byte>, i: nat, n: int) returns (p: Parsed<Json>)
    requires NUL !in num && i <= |num|
    ensures p == EndNumber(n, num[i..])
  {
    var rest := num[i..];
    assert i + 1 < |num| ==> rest[1] == num[i + 1];
    if (ByteAt(num, i) == DOT && i + 1 < |num| && IsDigit(num[i + 1])) || ByteAt(num, i) == LETTER_E
        || ByteAt(num, i) == CAPITAL_E {
      return Unmodelled;
    }
    p := if INT_MIN <= n <= INT_MAX then Ok(Number(n), rest) else Unmodelled;
  }

  /** strncmp(value, text, |text|) == 0 */
  predicate StartsWith(value: seq<byte>, text: seq<byte>)
  {
    text <= value
  }

  method ReadValue(value: seq<byte>) returns (p: Parsed<Json>)
    requires NUL !in value
    ensures p == ParseValue(value) && (p.Ok? ==> NUL !in p.rest)
    decreases |value|, 1
  {
    if StartsWith(value, NULL_TEXT) {
      return Ok(Null, value[4..]);
    }
    if StartsWith(value, FALSE_TEXT) {
      return Ok(False, value[5..]);
    }
    if StartsWith(value, TRUE_TEXT) {
      return Ok(True, value[4..]);
    }
    if ByteAt(value, 0) == QUOTE {
      var s, out := ReadString(value);
      RestKept(value);
      match s
      case Ok(str, rest) => return Ok(String(str), rest);
      case Bad => return Bad;
      case Unmodelled => return Unmodelled;
    }
    if ByteAt(value, 0) == MINUS || IsDigit(ByteAt(value, 0)) {
      p := ReadNumber(value);
      NumberRestKept(value);
      return;
    }
    if ByteAt(value, 0) == OPEN_BRACKET {
      p := ReadArray(value);
      return;
    }
    if ByteAt(value, 0) == OPEN_BRACE {
      p := ReadObject(value);
      return;
    }
    return Bad;
  }

  lemma RestKept(t: seq<byte>)
    requires NUL !in t
    ensures ParseString(t).Ok? ==> NUL !in ParseString(t).rest
  {
  }

  lemma {:induction false} DigitsRestKept(t: seq<byte>, v: nat)
    requires NUL !in t
    ensures NUL !in Digits(t, v).1
  {
    if |t| > 0 && IsDigit(t[0]) {
      DigitsRestKept(t[1..], v * 10 + (t[0] - ZERO));
    }
  }

  lemma NumberRestKept(t: seq<byte>)
    requires NUL !in t && |t| > 0 && (t[0] == MINUS || IsDigit(t[0]))
    ensures ParseNumber(t).Ok? ==> NUL !in ParseNumber(t).rest
  {
    var u := if t[0] == MINUS then t[1..] else t;
    var u' := if Head(u) == ZERO then u[1..] else u;
    DigitsRestKept(u', 0);
  }

  /** The child list in order. */
  function ToElements(children: seq<Json>, tail: Elements): Elements
  {
    if |children| == 0 then tail else Element(children[0], ToElements(children[1..], tail))
  }

  lemma {:induction false} AddElement(children: seq<Json>, v: Json, tail: Elements)
    ensures ToElements(children + [v], tail) == ToElements(children, Element(v, tail))
  {
    if |children| > 0 {
      AddElement(children[1..], v, tail);
      assert (children + [v])[1..] == children[1..] + [v];
    } else {
      assert ([] + [v])[1..] == [];
    }
  }

  /** The array that the children and what follows them make. */
  function WithChildren(children: seq<Json>, p: Parsed<Elements>): Parsed<Json>
  {
    match p
    case Ok(es, rest) => Ok(Array(ToElements(children, es)), rest)
    case Bad => Bad
    case Unmodelled => Unmodelled
  }

  /** What the array is once its first children are read and r stands behind the last of them. */
  function AfterChildren(children: seq<Json>, r: seq<byte>): Parsed<Json>
  {
    if Head(r) == COMMA then WithChildren(children, ParseElements(r[1..]))
    else if Head(r) == CLOSE_BRACKET then Ok(Array(ToElements(children, NoElement)), r[1..])
    else Bad
  }

  /** One round of the loop: read a value, and skip what follows. */
  lemma ChildStep(children: seq<Json>, t: seq<byte>)
    ensures WithChildren(children, ParseElements(t)) ==
            match ParseValue(Skip(t))
            case Bad => Bad
            case Unmodelled => Unmodelled
            case Ok(v, rest) => AfterChildren(children + [v], Skip(rest))
  {
    hide ParseValue, Skip;
    var p := ParseValue(Skip(t));
    if p.Ok? {
      var r := Skip(p.rest);
      AddElement(children, p.value, NoElement);
      if Head(r) == COMMA && ParseElements(r[1..]).Ok? {
        AddElement(children, p.value, ParseElements(r[1..]).value);
      }
    }
  }

  method ReadArray(value: seq<byte>) returns (p: Parsed<Json>)
    requires NUL !in value && Head(value) == OPEN_BRACKET
    ensures p == ParseValue(value) && (p.Ok? ==> NUL !in p.rest)
    decreases |value|, 0
  {
    ghost var goal := ParseValue(value);
    var r := SkipBlanks(value[1..]);
    if ByteAt(r, 0) == CLOSE_BRACKET {
      return Ok(Array(NoElement), r[1..]);
    }
    var children := [];
    ArrayStarts(value, r);
    ChildStep(children, r);
    hide ParseValue, ParseElements, Skip, AfterChildren, WithChildren;
    r := SkipBlanks(r);
    var v := ReadValue(r);
    if !v.Ok? {
      return if v.Bad? then Bad else Unmodelled;
    }
    children := children + [v.value];
    r := SkipBlanks(v.rest);
    while ByteAt(r, 0) == COMMA
      invariant NUL !in r && |r| < |value| && goal == AfterChildren(children, r)
      decreases |r|
    {
      CommaStep(children, r);
      ChildStep(children, r[1..]);
      r := SkipBlanks(r[1..]);
      v := ReadValue(r);
      if !v.Ok? {
        return if v.Bad? then Bad else Unmodelled;
      }
      children := children + [v.value];
      r := SkipBlanks(v.rest);
    }
    ChildrenEnd(children, r);
    if ByteAt(r, 0) == CLOSE_BRACKET {
      return Ok(Array(ToElements(children, NoElement)), r[1..]);
    }
    return Bad;
  }

  lemma ArrayStarts(value: seq<byte>, r: seq<byte>)
    requires Head(value) == OPEN_BRACKET && r == Skip(value[1..]) && Head(r) != CLOSE_BRACKET
    ensures ParseValue(value) == WithChildren([], ParseElements(r))
  {
    hide ParseElements, Skip;
  }

  lemma CommaStep(children: seq<Json>, r: seq<byte>)
    requires Head(r) == COMMA
    ensures AfterChildren(children, r) == WithChildren(children, ParseElements(r[1..]))
  {
  }

  lemma ChildrenEnd(children: seq<Json>, r: seq<byte>)
    requires Head(r) != COMMA
    ensures AfterChildren(children, r) == if Head(r) == CLOSE_BRACKET
        then Ok(Array(ToElements(children, NoElement)), r[1..]) else Bad
  {
  }

  datatype Pair = Pair(key: seq<byte>, value: Json)

  function ToMembers(children: seq<Pair>, tail: Members): Members
  {
    if |children| == 0 then tail else Member(children[0].key, children[0].value, ToMembers(children[1..], tail))
  }

  lemma {:induction false} AddMember(children: seq<Pair>, c: Pair, tail: Members)
    ensures ToMembers(children + [c], tail) == ToMembers(children, Member(c.key, c.value, tail))
  {
    if |children| > 0 {
      AddMember(children[1..], c, tail);
      assert (children + [c])[1..] == children[1..] + [c];
    } else {
      assert ([] + [c])[1..] == [];
    }
  }

  function WithMembers(children: seq<Pair>, p: Parsed<Members>): Parsed<Json>
  {
    match p
    case Ok(ms, rest) => Ok(Object(ToMembers(children, ms)), rest)
    case Bad => Bad
    case Unmodelled => Unmodelled
  }

  function AfterMembers(children: seq<Pair>, r: seq<byte>): Parsed<Json>
  {
    if Head(r) == COMMA then WithMembers(children, ParseMembers(r[1..]))
    else if Head(r) == CLOSE_BRACE then Ok(Object(ToMembers(children, NoMember)), r[1..])
    else Bad
  }

  /** A key, a colon and a value, and the text skipped to behind them. */
  function ParsePair(t: seq<byte>): (p: Parsed<Pair>)
    ensures p.Ok? ==> |p.rest| < |t|
  {
    match ParseString(Skip(t))
    case Bad => Bad
    case Unmodelled => Unmodelled
    case Ok(key, rest) =>
      var r := Skip(rest);
      if Head(r) != COLON then Bad
      else
        match ParseValue(Skip(r[1..]))
        case Bad => Bad
        case Unmodelled => Unmodelled
        case Ok(value, rest') => Ok(Pair(key, value), Skip(rest'))
  }

  lemma MemberRound(children: seq<Pair>, t: seq<byte>)
    ensures WithMembers(children, ParseMembers(t)) ==
            match ParsePair(t)
            case Bad => Bad
            case Unmodelled => Unmodelled
            case Ok(c, r) => AfterMembers(children + [c], r)
  {
    hide ParseValue, ParseString, Skip;
    var p := ParsePair(t);
    if p.Ok? {
      var r := p.rest;
      AddMember(children, p.value, NoMember);
      if Head(r) == COMMA && ParseMembers(r[1..]).Ok? {
        AddMember(children, p.value, ParseMembers(r[1..]).value);
      }
    }
  }

  method ReadPair(text: seq<byte>) returns (p: Parsed<Pair>)
    requires NUL !in text
    ensures p == ParsePair(text) && (p.Ok? ==> NUL !in p.rest)
    decreases |text|, 2
  {
    var r := SkipBlanks(text);
    var key, out := ReadString(r);
    RestKept(r);
    hide ParseValue, ParseString, Skip;
    if !key.Ok? {
      return if key.Bad? then Bad else Unmodelled;
    }
    r := SkipBlanks(key.rest);
    if ByteAt(r, 0) != COLON {
      return Bad;
    }
    r := SkipBlanks(r[1..]);
    var v := ReadValue(r);
    if !v.Ok? {
      return if v.Bad? then Bad else Unmodelled;
    }
    r := SkipBlanks(v.rest);
    return Ok(Pair(key.value, v.value), r);
  }

  method ReadObject(value: seq<byte>) returns (p: Parsed<Json>)
    requires NUL !in value && Head(value) == OPEN_BRACE
    ensures p == ParseValue(value) && (p.Ok? ==> NUL !in p.rest)
    decreases |value|, 0
  {
    ghost var goal := ParseValue(value);
    var r := SkipBlanks(value[1..]);
    if ByteAt(r, 0) == CLOSE_BRACE {
      return Ok(Object(NoMember), r[1..]);
    }
    var children := [];
    ObjectStarts(value, r);
    MemberRound(children, r);
    hide ParseValue, ParseMembers, ParsePair, Skip, AfterMembers, WithMembers;
    var c := ReadPair(r);
    if !c.Ok? {
      return if c.Bad? then Bad else Unmodelled;
    }
    children := children + [c.value];
    r := c.rest;
    while ByteAt(r, 0) == COMMA
      invariant NUL !in r && |r| < |value| && goal == AfterMembers(children, r)
      decreases |r|
    {
      MemberComma(children, r);
      MemberRound(children, r[1..]);
      c := ReadPair(r[1..]);
      if !c.Ok? {
        return if c.Bad? then Bad else Unmodelled;
      }
      children := children + [c.value];
      r := c.rest;
    }
    MembersEnd(children, r);
    if ByteAt(r, 0) == CLOSE_BRACE {
      return Ok(Object(ToMembers(children, NoMember)), r[1..]);
    }
    return Bad;
  }

  lemma ObjectStarts(value: seq<byte>, r: seq<byte>)
    requires Head(value) == OPEN_BRACE && r == Skip(value[1..]) && Head(r) != CLOSE_BRACE
    ensures ParseValue(value) == WithMembers([], ParseMembers(r))
  {
    hide ParseMembers, Skip;
  }

  lemma MemberComma(children: seq<Pair>, r: seq<byte>)
    requires Head(r) == COMMA
    ensures AfterMembers(children, r) == WithMembers(children, ParseMembers(r[1..]))
  {
  }

  lemma MembersEnd(children: seq<Pair>, r: seq<byte>)
    requires Head(r) != COMMA
    ensures AfterMembers(children, r) == if Head(r) == CLOSE_BRACE
        then Ok(Object(ToMembers(children, NoMember)), r[1..]) else Bad
  {
  }

  /** cJSON_Parse of a printed tree gives the tree back, formatted or not. */
  method ParsePrinted(j: Json, fmt: bool) returns (p: Parsed<Json>)
    requires WellFormed(j)
    ensures p == Ok(j, [])
  {
    PrintHasNoNul(j, 0, fmt);
    RoundTrip(j, fmt);
    var value := SkipBlanks(Print(j, 0, fmt));
    p := ReadValue(value);
  }
}
