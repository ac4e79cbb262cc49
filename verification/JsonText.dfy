/**
 JSON trees, the text the printer gives them, and the trees the parser reads from a text.

 Numbers are 32-bit integers and strings are NUL-free byte strings. Arrays and objects are the
 source's child lists: a first child and its `next` chain.
 */
module JsonText {

  import opened Base

  datatype Json =
    | Null
    | False
    | True
    | Number(n: int)
    | String(str: seq<byte>)
    | Array(elements: Elements)
    | Object(members: Members)

  datatype Elements = NoElement | Element(value: Json, next: Elements)

  datatype Members = NoMember | Member(key: seq<byte>, value: Json, next: Members)

  const INT_MAX: int := 0x7fff_ffff
  const INT_MIN: int := -0x8000_0000

  const QUOTE: byte := 34
  const BACKSLASH: byte := 92
  const SLASH: byte := 47
  const STAR: byte := 42
  const COMMA: byte := 44
  const COLON: byte := 58
  const OPEN_BRACKET: byte := 91
  const CLOSE_BRACKET: byte := 93
  const OPEN_BRACE: byte := 123
  const CLOSE_BRACE: byte := 125
  const MINUS: byte := 45
  const PLUS: byte := 43
  const DOT: byte := 46
  const ZERO: byte := 48
  const SPACE: byte := 32
  const TAB: byte := 9
  const NEWLINE: byte := 10
  const RETURN: byte := 13
  const BACKSPACE: byte := 8
  const FORMFEED: byte := 12
  const LETTER_B: byte := 98
  const LETTER_E: byte := 101
  const LETTER_F: byte := 102
  const LETTER_N: byte := 110
  const LETTER_R: byte := 114
  const LETTER_T: byte := 116
  const LETTER_U: byte := 117
  const CAPITAL_E: byte := 69

  const NULL_TEXT: seq<byte> := [110, 117, 108, 108]
  const FALSE_TEXT: seq<byte> := [102, 97, 108, 115, 101]
  const TRUE_TEXT: seq<byte> := [116, 114, 117, 101]

  predicate WellFormed(j: Json)
  {
    match j
    case Number(n) => INT_MIN <= n <= INT_MAX
    case String(s) => NUL !in s
    case Array(es) => ElementsWellFormed(es)
    case Object(ms) => MembersWellFormed(ms)
    case _ => true
  }

  predicate ElementsWellFormed(es: Elements)
  {
    es.Element? ==> WellFormed(es.value) && ElementsWellFormed(es.next)
  }

  predicate MembersWellFormed(ms: Members)
  {
    ms.Member? ==> NUL !in ms.key && WellFormed(ms.value) && MembersWellFormed(ms.next)
  }

  // ---------------------------------------------------------------------
  // Printing
  // ---------------------------------------------------------------------

  function Decimal(n: nat): (s: seq<byte>)
    ensures |s| > 0
  {
    if n < 10 then [ZERO + n] else Decimal(n / 10) + [ZERO + n % 10]
  }

  function PrintNumber(n: int): seq<byte>
  {
    if n < 0 then [MINUS] + Decimal(-n) else Decimal(n)
  }

  function HexDigit(d: nat): byte
    requires d < 16
  {
    if d < 10 then ZERO + d else 87 + d
  }

  /** The escaped form of one byte. */
  function Escape(b: byte): (s: seq<byte>)
    ensures |s| > 0
  {
    if b == BACKSLASH || b == QUOTE then [BACKSLASH, b]
    else if b == BACKSPACE then [BACKSLASH, LETTER_B]
    else if b == FORMFEED then [BACKSLASH, LETTER_F]
    else if b == NEWLINE then [BACKSLASH, LETTER_N]
    else if b == RETURN then [BACKSLASH, LETTER_R]
    else if b == TAB then [BACKSLASH, LETTER_T]
    else if b < 32 then [BACKSLASH, LETTER_U, ZERO, ZERO, HexDigit(b / 16), HexDigit(b % 16)]
    else [b]
  }

  function EscapeAll(s: seq<byte>): seq<byte>
  {
    if |s| == 0 then [] else Escape(s[0]) + EscapeAll(s[1..])
  }

  function PrintString(s: seq<byte>): seq<byte>
  {
    [QUOTE] + EscapeAll(s) + [QUOTE]
  }

  function Tabs(depth: nat): seq<byte>
  {
    seq(depth, _ => TAB)
  }

  /** Layout bytes that appear only in formatted text. */
  function Layout(fmt: bool, s: seq<byte>): seq<byte>
  {
    if fmt then s else []
  }

  function Print(j: Json, depth: nat, fmt: bool): (s: seq<byte>)
    ensures |s| > 0
    decreases j, 2
  {
    match j
    case Null => NULL_TEXT
    case False => FALSE_TEXT
    case True => TRUE_TEXT
    case Number(n) => PrintNumber(n)
    case String(s) => PrintString(s)
    case Array(es) => [OPEN_BRACKET] + PrintElements(es, depth + 1, fmt) + [CLOSE_BRACKET]
    case Object(ms) =>
      [OPEN_BRACE] + Layout(fmt, [NEWLINE]) + PrintMembers(ms, depth + 1, fmt)
      + Layout(fmt, Tabs(depth)) + [CLOSE_BRACE]
  }

  function PrintElements(es: Elements, depth: nat, fmt: bool): seq<byte>
    decreases es, 1
  {
    if es.NoElement? then []
    else if es.next.NoElement? then Print(es.value, depth, fmt)
    else Print(es.value, depth, fmt) + [COMMA] + Layout(fmt, [SPACE]) + PrintElements(es.next, depth, fmt)
  }

  function PrintMembers(ms: Members, depth: nat, fmt: bool): seq<byte>
    decreases ms, 1
  {
    if ms.NoMember? then [] else Layout(fmt, Tabs(depth)) + MemberBody(ms, depth, fmt)
  }

  /** A member and the ones after it, without the indentation in front of its key. */
  function MemberBody(ms: Members, depth: nat, fmt: bool): (s: seq<byte>)
    requires ms.Member?
    ensures |s| > 0 && s[0] == QUOTE
    decreases ms, 0
  {
    PrintString(ms.key) + [COLON] + Layout(fmt, [TAB]) + Print(ms.value, depth, fmt)
    + (if ms.next.NoMember? then [] else [COMMA]) + Layout(fmt, [NEWLINE]) + PrintMembers(ms.next, depth, fmt)
  }

  // ---------------------------------------------------------------------
  // Parsing
  // ---------------------------------------------------------------------

  /** Unmodelled: a number that is not a 32-bit integer, or text that the source reads past its end. */
  datatype Parsed<T> = Ok(value: T, rest: seq<byte>) | Bad | Unmodelled

  /** The byte at the start of a text; a text ends in NUL. */
  function Head(t: seq<byte>): byte
  {
    if |t| == 0 then NUL else t[0]
  }

  function Skip(t: seq<byte>): (r: seq<byte>)
    ensures |r| <= |t|
  {
    if |t| > 0 && 0 < t[0] <= 32 then Skip(t[1..]) else t
  }

  predicate IsDigit(b: byte)
  {
    ZERO <= b < ZERO + 10
  }

  /** The digits at the start of a text, appended to v. */
  function Digits(t: seq<byte>, v: nat): (nat, seq<byte>)
  {
    if |t| > 0 && IsDigit(t[0]) then Digits(t[1..], v * 10 + (t[0] - ZERO)) else (v, t)
  }

  lemma DigitsShorter(t: seq<byte>, v: nat)
    ensures |Digits(t, v).1| <= |t|
    ensures |t| > 0 && IsDigit(t[0]) ==> |Digits(t, v).1| < |t|
  {
  }

  /** A number before the rest of the text: an integer, unless a fraction or a power follows or it is too large. */
  function EndNumber(n: int, rest: seq<byte>): Parsed<Json>
  {
    if (Head(rest) == DOT && |rest| > 1 && IsDigit(rest[1])) || Head(rest) == LETTER_E
        || Head(rest) == CAPITAL_E then Unmodelled
    else if INT_MIN <= n <= INT_MAX then Ok(Number(n), rest)
    else Unmodelled
  }

  /** An integer: sign, digits without leading zeros, and nothing that makes it a fraction or a power. */
  function ParseNumber(t: seq<byte>): (p: Parsed<Json>)
    requires |t| > 0 && (t[0] == MINUS || IsDigit(t[0]))
    ensures p.Ok? ==> |p.rest| < |t|
  {
    var u := if t[0] == MINUS then t[1..] else t;
    var u' := if Head(u) == ZERO then u[1..] else u;
    DigitsShorter(u', 0);
    var (v, rest) := if ZERO < Head(u') && IsDigit(Head(u')) then Digits(u', 0) else (0, u');
    var n: int := if t[0] == MINUS then -(v as int) else v;
    EndNumber(n, rest)
  }

  // --- strings

  /** Where the closing quote of a literal's content is, or the end of an unclosed one; None past a final backslash. */
  function LiteralEnd(u: seq<byte>): (r: Option<nat>)
    ensures r.Some? ==> r.value <= |u| && (r.value < |u| ==> u[r.value] == QUOTE)
  {
    if |u| == 0 || u[0] == QUOTE then Some(0)
    else if u[0] == BACKSLASH then
      if |u| == 1 then None
      else match LiteralEnd(u[2..]) case None => None case Some(n) => Some(n + 2)
    else match LiteralEnd(u[1..]) case None => None case Some(n) => Some(n + 1)
  }

  function HexValue(b: byte): (r: Option<nat>)
    ensures r.Some? ==> r.value < 16
  {
    if IsDigit(b) then Some(b - ZERO)
    else if 65 <= b <= 70 then Some(b - 55)
    else if 97 <= b <= 102 then Some(b - 87)
    else None
  }

  /** parse_hex4: 0 unless there are four hexadecimal digits. */
  function Hex4(s: seq<byte>): (r: nat)
    ensures r < 0x10000
  {
    if |s| < 4 then 0
    else
      match (HexValue(s[0]), HexValue(s[1]), HexValue(s[2]), HexValue(s[3]))
      case (Some(a), Some(b), Some(c), Some(d)) => ((a * 16 + b) * 16 + c) * 16 + d
      case _ => 0
  }

  predicate HighSurrogate(u: nat) { 0xD800 <= u <= 0xDBFF }

  predicate LowSurrogate(u: nat) { 0xDC00 <= u <= 0xDFFF }

  /** The code point of a surrogate pair. */
  function Combine(high: nat, low: nat): nat
    requires HighSurrogate(high) && LowSurrogate(low)
  {
    0x10000 + (high - 0xD800) * 0x400 + (low - 0xDC00)
  }

  /** The UTF-8 form of a code point, by the table in section 3 of RFC 3629. */
  function Utf8(c: nat): seq<byte>
    requires c < 0x110000
  {
    if c < 0x80 then [c]
    else if c < 0x800 then [0xC0 + c / 0x40, 0x80 + c % 0x40]
    else if c < 0x10000 then [0xE0 + c / 0x1000, 0x80 + c / 0x40 % 0x40, 0x80 + c % 0x40]
    else [0xF0 + c / 0x40000, 0x80 + c / 0x1000 % 0x40, 0x80 + c / 0x40 % 0x40, 0x80 + c % 0x40]
  }

  /** The code point of a \u escape whose digits start at s, and the bytes it takes from there; None if invalid. */
  function EscapedPoint(s: seq<byte>): (r: Option<(nat, nat)>)
    ensures r.Some? ==> r.value.0 < 0x110000 && 4 <= r.value.1 <= |s|
  {
    var u := Hex4(s);
    if u == 0 || LowSurrogate(u) then None
    else if !HighSurrogate(u) then Some((u, 4))
    else if |s| < 10 || s[4] != BACKSLASH || s[5] != LETTER_U then None
    else
      var v := Hex4(s[6..]);
      if LowSurrogate(v) then Some((Combine(u, v), 10)) else None
  }

  function Unescape(b: byte): byte
  {
    if b == LETTER_B then BACKSPACE
    else if b == LETTER_F then FORMFEED
    else if b == LETTER_N then NEWLINE
    else if b == LETTER_R then RETURN
    else if b == LETTER_T then TAB
    else b
  }

  /** The bytes that the content of a literal stands for. */
  function Decode(c: seq<byte>): Option<seq<byte>>
  {
    if |c| == 0 then Some([])
    else if c[0] != BACKSLASH then Prefix([c[0]], Decode(c[1..]))
    else if |c| == 1 then None
    else if c[1] != LETTER_U then Prefix([Unescape(c[1])], Decode(c[2..]))
    else
      match EscapedPoint(c[2..])
      case None => None
      case Some((point, k)) => Prefix(Utf8(point), Decode(c[2 + k..]))
  }

  function Prefix(s: seq<byte>, r: Option<seq<byte>>): Option<seq<byte>>
  {
    if r.None? then None else Some(s + r.value)
  }

  function ParseString(t: seq<byte>): (p: Parsed<seq<byte>>)
    ensures p.Ok? ==> |p.rest| < |t|
  {
    if Head(t) != QUOTE then Bad
    else
      match LiteralEnd(t[1..])
      case None => Unmodelled
      case Some(n) =>
        match Decode(t[1..][..n])
        case None => Bad
        case Some(s) => Ok(s, t[1..][if n < |t| - 1 then n + 1 else n..])
  }

  // --- values

  function ParseValue(t: seq<byte>): (p: Parsed<Json>)
    ensures p.Ok? ==> |p.rest| < |t|
    decreases |t|, 0
  {
    if NULL_TEXT <= t then Ok(Null, t[4..])
    else if FALSE_TEXT <= t then Ok(False, t[5..])
    else if TRUE_TEXT <= t then Ok(True, t[4..])
    else if Head(t) == QUOTE then
      match ParseString(t)
      case Ok(s, rest) => Ok(String(s), rest)
      case Bad => Bad
      case Unmodelled => Unmodelled
    else if Head(t) == MINUS || IsDigit(Head(t)) then ParseNumber(t)
    else if Head(t) == OPEN_BRACKET then
      var u := Skip(t[1..]);
      if Head(u) == CLOSE_BRACKET then Ok(Array(NoElement), u[1..])
      else
        match ParseElements(u)
        case Ok(es, rest) => Ok(Array(es), rest)
        case Bad => Bad
        case Unmodelled => Unmodelled
    else if Head(t) == OPEN_BRACE then
      var u := Skip(t[1..]);
      if Head(u) == CLOSE_BRACE then Ok(Object(NoMember), u[1..])
      else
        match ParseMembers(u)
        case Ok(ms, rest) => Ok(Object(ms), rest)
        case Bad => Bad
        case Unmodelled => Unmodelled
    else Bad
  }

  /** One or more elements up to the closing bracket. */
  function ParseElements(t: seq<byte>): (p: Parsed<Elements>)
    ensures p.Ok? ==> |p.rest| < |t|
    decreases |t|, 2
  {
    var u := Skip(t);
    match ParseValue(u)
    case Bad => Bad
    case Unmodelled => Unmodelled
    case Ok(value, rest) =>
      var r := Skip(rest);
      if Head(r) == COMMA then
        match ParseElements(r[1..])
        case Ok(next, rest') => Ok(Element(value, next), rest')
        case Bad => Bad
        case Unmodelled => Unmodelled
      else if Head(r) == CLOSE_BRACKET then Ok(Element(value, NoElement), r[1..])
      else Bad
  }

  /** One or more members up to the closing brace. */
  function ParseMembers(t: seq<byte>): (p: Parsed<Members>)
    ensures p.Ok? ==> |p.rest| < |t|
    decreases |t|, 2
  {
    var u := Skip(t);
    match ParseString(u)
    case Bad => Bad
    case Unmodelled => Unmodelled
    case Ok(key, rest) =>
      var r := Skip(rest);
      if Head(r) != COLON then Bad
      else
        var v := Skip(r[1..]);
        match ParseValue(v)
        case Bad => Bad
        case Unmodelled => Unmodelled
        case Ok(value, rest') =>
          var r' := Skip(rest');
          if Head(r') == COMMA then
            match ParseMembers(r'[1..])
            case Ok(next, rest'') => Ok(Member(key, value, next), rest'')
            case Bad => Bad
            case Unmodelled => Unmodelled
          else if Head(r') == CLOSE_BRACE then Ok(Member(key, value, NoMember), r'[1..])
          else Bad
  }

  /** cJSON_Parse: leading blanks are skipped, and what follows the value is ignored. */
  function Parse(t: seq<byte>): Parsed<Json>
  {
    ParseValue(Skip(t))
  }

  // ---------------------------------------------------------------------
  // A printed string reads back
  // ---------------------------------------------------------------------

  lemma HexRead(b: byte)
    requires b < 32
    ensures Hex4([ZERO, ZERO, HexDigit(b / 16), HexDigit(b % 16)]) == b
  {
    assert HexValue(HexDigit(b / 16)) == Some(b / 16) && HexValue(HexDigit(b % 16)) == Some(b % 16);
  }

  lemma Hex4Local(s: seq<byte>)
    requires |s| >= 4
    ensures Hex4(s) == Hex4(s[..4])
  {
  }

  /** The source decodes an escaped byte to that byte, whatever follows. */
  lemma DecodeEscape(b: byte, c: seq<byte>)
    requires b != NUL
    ensures Decode(Escape(b) + c) == Prefix([b], Decode(c))
  {
    var t := Escape(b) + c;
    if b == BACKSLASH || b == QUOTE || 8 <= b <= 10 || 12 <= b <= 13 {
      assert t[2..] == c;
    } else if b < 32 {
      HexRead(b);
      Hex4Local(t[2..]);
      assert t[2..][..4] == [ZERO, ZERO, HexDigit(b / 16), HexDigit(b % 16)];
      assert t[6..] == c;
      var point: nat := b;
      assert EscapedPoint(t[2..]) == Some((point, 4));
    } else {
      assert t[1..] == c;
    }
  }

  lemma {:induction false} DecodeAll(s: seq<byte>)
    requires NUL !in s
    ensures Decode(EscapeAll(s)) == Some(s)
  {
    if |s| > 0 {
      DecodeEscape(s[0], EscapeAll(s[1..]));
      DecodeAll(s[1..]);
      assert [s[0]] + s[1..] == s;
    }
  }

  function Shift(r: Option<nat>, n: nat): Option<nat>
  {
    if r.None? then None else Some(r.value + n)
  }

  lemma {:induction false} EndSteps(u: seq<byte>, v: seq<byte>)
    requires forall i :: 0 <= i < |u| ==> u[i] != QUOTE && u[i] != BACKSLASH
    ensures LiteralEnd(u + v) == Shift(LiteralEnd(v), |u|)
  {
    if |u| == 0 {
      assert u + v == v;
    } else {
      assert (u + v)[1..] == u[1..] + v;
      EndSteps(u[1..], v);
    }
  }

  /** An escaped byte is never taken for the end of its literal. */
  lemma EndEscape(b: byte, v: seq<byte>)
    ensures LiteralEnd(Escape(b) + v) == Shift(LiteralEnd(v), |Escape(b)|)
  {
    var e := Escape(b);
    if e[0] == BACKSLASH {
      assert (e + v)[2..] == e[2..] + v;
      EndSteps(e[2..], v);
    } else {
      EndSteps(e, v);
    }
  }

  lemma {:induction false} EndAll(s: seq<byte>, rest: seq<byte>)
    ensures LiteralEnd(EscapeAll(s) + ([QUOTE] + rest)) == Some(|EscapeAll(s)|)
  {
    if |s| == 0 {
      assert EscapeAll(s) + ([QUOTE] + rest) == [QUOTE] + rest;
    } else {
      var v := EscapeAll(s[1..]) + ([QUOTE] + rest);
      assert EscapeAll(s) + ([QUOTE] + rest) == Escape(s[0]) + v;
      EndEscape(s[0], v);
      EndAll(s[1..], rest);
    }
  }

  lemma StringReads(s: seq<byte>, rest: seq<byte>)
    requires NUL !in s
    ensures ParseString(PrintString(s) + rest) == Ok(s, rest)
  {
    var e := EscapeAll(s);
    var t := PrintString(s) + rest;
    assert t[1..] == e + ([QUOTE] + rest);
    EndAll(s, rest);
    DecodeAll(s);
    assert t[1..][..|e|] == e;
    assert t[1..][|e| + 1..] == rest;
  }

  // ---------------------------------------------------------------------
  // A printed number reads back
  // ---------------------------------------------------------------------

  /** What follows a number cannot be read as part of it. */
  predicate Delimits(rest: seq<byte>)
  {
    var b := Head(rest);
    !IsDigit(b) && b != DOT && b != LETTER_E && b != CAPITAL_E
  }

  lemma {:induction false} DigitsRead(n: nat, rest: seq<byte>)
    ensures Digits(Decimal(n) + rest, 0) == Digits(rest, n)
  {
    if n < 10 {
      assert ([ZERO + n] + rest)[1..] == rest;
    } else {
      var d := [ZERO + n % 10];
      assert Decimal(n) + rest == Decimal(n / 10) + (d + rest);
      DigitsRead(n / 10, d + rest);
      assert (d + rest)[1..] == rest;
    }
  }

  lemma {:induction false} DecimalHead(n: nat)
    ensures IsDigit(Decimal(n)[0]) && (n > 0 ==> Decimal(n)[0] != ZERO)
  {
    if n >= 10 {
      DecimalHead(n / 10);
    }
  }

  lemma NumberReads(n: int, rest: seq<byte>)
    requires INT_MIN <= n <= INT_MAX && Delimits(rest)
    ensures var t := PrintNumber(n) + rest;
            && |t| > 0 && (t[0] == MINUS || IsDigit(t[0])) && ParseNumber(t) == Ok(Number(n), rest)
  {
    var m := if n < 0 then -n else n;
    var t, u := PrintNumber(n) + rest, Decimal(m) + rest;
    DecimalHead(m);
    DigitsRead(m, rest);
    assert u[0] == Decimal(m)[0];
    assert n < 0 ==> t[1..] == u;
    assert n >= 0 ==> t == u;
    assert m == 0 ==> u[1..] == rest;
  }

  // ---------------------------------------------------------------------
  // A printed tree reads back
  // ---------------------------------------------------------------------

  predicate Blank(s: seq<byte>)
  {
    forall i :: 0 <= i < |s| ==> 0 < s[i] <= 32
  }

  lemma {:induction false} SkipBlank(s: seq<byte>, t: seq<byte>)
    requires Blank(s) && (Head(t) == NUL || Head(t) > 32)
    ensures Skip(s + t) == t
  {
    if |s| == 0 {
      assert s + t == t;
    } else {
      assert (s + t)[1..] == s[1..] + t;
      SkipBlank(s[1..], t);
    }
  }

  lemma SkipNothing(t: seq<byte>)
    requires Head(t) == NUL || Head(t) > 32
    ensures Skip(t) == t
  {
  }

  /** The first byte of a printed value decides how the parser goes on. */
  predicate StartsLike(j: Json, b: byte)
  {
    match j
    case Null => b == LETTER_N
    case False => b == LETTER_F
    case True => b == LETTER_T
    case Number(_) => b == MINUS || IsDigit(b)
    case String(_) => b == QUOTE
    case Array(_) => b == OPEN_BRACKET
    case Object(_) => b == OPEN_BRACE
  }

  lemma PrintHead(j: Json, depth: nat, fmt: bool)
    ensures StartsLike(j, Print(j, depth, fmt)[0]) && Print(j, depth, fmt)[0] > 32
  {
    if j.Number? {
      DecimalHead(if j.n < 0 then -j.n else j.n);
    }
  }

  /** Whatever the layout, a printed value reads back as itself and stops where it ends. */
  lemma {:induction false} ValueReads(j: Json, depth: nat, fmt: bool, rest: seq<byte>)
    requires WellFormed(j) && Delimits(rest)
    ensures ParseValue(Print(j, depth, fmt) + rest) == Ok(j, rest)
    decreases j, 0
  {
    var t := Print(j, depth, fmt) + rest;
    PrintHead(j, depth, fmt);
    match j
    case Number(n) => NumberReads(n, rest);
    case String(s) => StringReads(s, rest);
    case Array(es) => ArrayReads(es, depth, fmt, rest);
    case Object(ms) => ObjectReads(ms, depth, fmt, rest);
    case _ => assert t[|t| - |rest|..] == rest;
  }

  lemma {:induction false} ArrayReads(es: Elements, depth: nat, fmt: bool, rest: seq<byte>)
    requires ElementsWellFormed(es)
    ensures ParseValue(Print(Array(es), depth, fmt) + rest) == Ok(Array(es), rest)
    decreases es, 2
  {
    var t := Print(Array(es), depth, fmt) + rest;
    var u := PrintElements(es, depth + 1, fmt) + ([CLOSE_BRACKET] + rest);
    ArrayText(es, depth, fmt, rest);
    hide Print, ParseElements, Skip;
    if es.NoElement? {
      assert u == [CLOSE_BRACKET] + rest;
      assert u[1..] == rest;
    } else {
      ElementsHead(es, depth + 1, fmt, [CLOSE_BRACKET] + rest);
      ElementsRead(es, depth + 1, fmt, [], rest);
      assert [] + u == u;
    }
    hide PrintElements;
    SkipNothing(u);
    ArrayStep(t, u);
  }

  lemma ArrayText(es: Elements, depth: nat, fmt: bool, rest: seq<byte>)
    ensures var t := Print(Array(es), depth, fmt) + rest;
      t[0] == OPEN_BRACKET && t[1..] == PrintElements(es, depth + 1, fmt) + ([CLOSE_BRACKET] + rest)
  {
    hide PrintElements;
  }

  /** What ParseValue does with an array. */
  lemma ArrayStep(t: seq<byte>, u: seq<byte>)
    requires Head(t) == OPEN_BRACKET && Skip(t[1..]) == u
    ensures Head(u) == CLOSE_BRACKET ==> ParseValue(t) == Ok(Array(NoElement), u[1..])
    ensures Head(u) != CLOSE_BRACKET && ParseElements(u).Ok? ==>
              ParseValue(t) == Ok(Array(ParseElements(u).value), ParseElements(u).rest)
  {
    hide ParseMembers, ParseElements, Skip;
  }

  lemma ElementsHead(es: Elements, depth: nat, fmt: bool, close: seq<byte>)
    requires es.Element?
    ensures Head(PrintElements(es, depth, fmt) + close) > 32
    ensures Head(PrintElements(es, depth, fmt) + close) != CLOSE_BRACKET
  {
    PrintHead(es.value, depth, fmt);
  }

  /** A list of elements is its first value, then a comma and the others if there are any. */
  lemma ElementsText(es: Elements, depth: nat, fmt: bool, close: seq<byte>)
    requires es.Element?
    ensures PrintElements(es, depth, fmt) + close ==
            Print(es.value, depth, fmt)
            + if es.next.NoElement? then close
              else [COMMA] + (Layout(fmt, [SPACE]) + (PrintElements(es.next, depth, fmt) + close))
  {
    hide Print, Layout;
  }

  /** What ParseElements does once it has read a value. */
  lemma ElementsStep(t: seq<byte>, u: seq<byte>, v: Json, b: byte, r: seq<byte>)
    requires Skip(t) == u && ParseValue(u) == Ok(v, [b] + r) && (b == COMMA || b == CLOSE_BRACKET)
    ensures b == CLOSE_BRACKET ==> ParseElements(t) == Ok(Element(v, NoElement), r)
    ensures b == COMMA && ParseElements(r).Ok? ==>
              ParseElements(t) == Ok(Element(v, ParseElements(r).value), ParseElements(r).rest)
  {
    hide ParseValue;
    SkipNothing([b] + r);
    assert ([b] + r)[1..] == r;
  }

  lemma {:induction false} ElementsRead(es: Elements, depth: nat, fmt: bool, blank: seq<byte>, rest: seq<byte>)
    requires es.Element? && ElementsWellFormed(es) && Blank(blank)
    ensures ParseElements(blank + (PrintElements(es, depth, fmt) + ([CLOSE_BRACKET] + rest))) == Ok(es, rest)
    decreases es, 1
  {
    var close := [CLOSE_BRACKET] + rest;
    var t := PrintElements(es, depth, fmt) + close;
    ElementsHead(es, depth, fmt, close);
    ElementsText(es, depth, fmt, close);
    hide PrintElements, Print, ParseElements, ParseValue, Skip, Layout;
    SkipBlank(blank, t);
    if es.next.NoElement? {
      ValueReads(es.value, depth, fmt, close);
      ElementsStep(blank + t, t, es.value, CLOSE_BRACKET, rest);
    } else {
      var blank' := Layout(fmt, [SPACE]);
      LayoutBlank(fmt, [SPACE]);
      var more := blank' + (PrintElements(es.next, depth, fmt) + close);
      ValueReads(es.value, depth, fmt, [COMMA] + more);
      ElementsRead(es.next, depth, fmt, blank', rest);
      ElementsStep(blank + t, t, es.value, COMMA, more);
    }
  }

  lemma LayoutBlank(fmt: bool, s: seq<byte>)
    requires Blank(s)
    ensures Blank(Layout(fmt, s))
  {
  }

  lemma LayoutsBlank(fmt: bool, depth: nat)
    ensures Blank(Layout(fmt, [NEWLINE]) + Layout(fmt, Tabs(depth))) && Blank(Layout(fmt, [TAB]))
  {
  }

  lemma {:induction false} ObjectReads(ms: Members, depth: nat, fmt: bool, rest: seq<byte>)
    requires MembersWellFormed(ms)
    ensures ParseValue(Print(Object(ms), depth, fmt) + rest) == Ok(Object(ms), rest)
    decreases ms, 2
  {
    var t := Print(Object(ms), depth, fmt) + rest;
    var end := [CLOSE_BRACE] + rest;
    var close := Layout(fmt, Tabs(depth)) + end;
    ObjectText(ms, depth, fmt, rest);
    hide Print, ParseMembers, Skip, MemberBody, Layout, PrintMembers;
    assert end[1..] == rest;
    if ms.NoMember? {
      LayoutsBlank(fmt, depth);
      SkipBlank(Layout(fmt, [NEWLINE]) + Layout(fmt, Tabs(depth)), end);
      ObjectStep(t, end);
    } else {
      var body := MemberBody(ms, depth + 1, fmt) + close;
      LayoutsBlank(fmt, depth + 1);
      SkipBlank(Layout(fmt, [NEWLINE]) + Layout(fmt, Tabs(depth + 1)), body);
      MembersRead(ms, depth, fmt, [], rest);
      assert [] + body == body;
      ObjectStep(t, body);
    }
  }

  /** What ParseValue does with an object. */
  lemma ObjectStep(t: seq<byte>, u: seq<byte>)
    requires Head(t) == OPEN_BRACE && Skip(t[1..]) == u
    ensures Head(u) == CLOSE_BRACE ==> ParseValue(t) == Ok(Object(NoMember), u[1..])
    ensures Head(u) != CLOSE_BRACE && ParseMembers(u).Ok? ==>
              ParseValue(t) == Ok(Object(ParseMembers(u).value), ParseMembers(u).rest)
  {
    hide ParseMembers, ParseElements, Skip;
  }

  lemma ObjectText(ms: Members, depth: nat, fmt: bool, rest: seq<byte>)
    ensures var t := Print(Object(ms), depth, fmt) + rest;
      && t[0] == OPEN_BRACE
      && t[1..] ==
         if ms.NoMember? then Layout(fmt, [NEWLINE]) + Layout(fmt, Tabs(depth)) + ([CLOSE_BRACE] + rest)
         else Layout(fmt, [NEWLINE]) + Layout(fmt, Tabs(depth + 1))
              + (MemberBody(ms, depth + 1, fmt) + (Layout(fmt, Tabs(depth)) + ([CLOSE_BRACE] + rest)))
  {
    var newline, tabs := Layout(fmt, [NEWLINE]), Layout(fmt, Tabs(depth));
    if ms.Member? {
      hide Layout, MemberBody;
      FramedText(OPEN_BRACE, newline, Layout(fmt, Tabs(depth + 1)), MemberBody(ms, depth + 1, fmt), tabs, [CLOSE_BRACE],
          rest);
    } else {
      hide Layout;
      FramedText(OPEN_BRACE, newline, [], [], tabs, [CLOSE_BRACE], rest);
      assert newline + [] == newline && [] + (tabs + ([CLOSE_BRACE] + rest)) == tabs + ([CLOSE_BRACE] + rest);
      BlankRegroup(newline, tabs, [CLOSE_BRACE] + rest);
    }
  }

  lemma FramedText(open: byte, x: seq<byte>, y: seq<byte>, z: seq<byte>, w: seq<byte>, end: seq<byte>, rest: seq<byte>)
    ensures ([open] + x + (y + z) + w + end + rest)[1..] == x + y + (z + (w + (end + rest)))
  {
    var t := x + y + (z + (w + (end + rest)));
    assert [open] + x + (y + z) + w + end + rest == [open] + t;
  }

  /** A member's text in the pieces the parser meets: key, colon, value, and what ends it. */
  lemma BodyText(ms: Members, depth: nat, fmt: bool, close: seq<byte>)
    requires ms.Member?
    ensures MemberBody(ms, depth, fmt) + close ==
            PrintString(ms.key) + ([COLON] + (Layout(fmt, [TAB])
                + (Print(ms.value, depth, fmt) + AfterValue(ms, depth, fmt, close))))
  {
    hide Layout, PrintString, Print, PrintMembers;
    var k, l, v := PrintString(ms.key), Layout(fmt, [TAB]), Print(ms.value, depth, fmt);
    var c, n := if ms.next.NoMember? then [] else [COMMA], Layout(fmt, [NEWLINE]);
    SevenPieces(k, [COLON], l, v, c, n, PrintMembers(ms.next, depth, fmt), close);
  }

  lemma SevenPieces(a: seq<byte>, b: seq<byte>, c: seq<byte>, d: seq<byte>, e: seq<byte>, f: seq<byte>, g: seq<byte>,
          z: seq<byte>)
    ensures a + b + c + d + e + f + g + z == a + (b + (c + (d + (e + (f + (g + z))))))
  {
    assert f + g + z == f + (g + z);
    assert e + f + g + z == e + (f + (g + z));
    assert d + e + f + g + z == d + (e + (f + (g + z)));
    assert c + d + e + f + g + z == c + (d + (e + (f + (g + z))));
    assert b + c + d + e + f + g + z == b + (c + (d + (e + (f + (g + z)))));
  }

  function AfterValue(ms: Members, depth: nat, fmt: bool, close: seq<byte>): seq<byte>
    requires ms.Member?
  {
    (if ms.next.NoMember? then [] else [COMMA]) + (Layout(fmt, [NEWLINE]) + (PrintMembers(ms.next, depth, fmt) + close))
  }

  lemma AfterValueText(ms: Members, depth: nat, fmt: bool, close: seq<byte>)
    requires ms.Member?
    ensures AfterValue(ms, depth, fmt, close) ==
            if ms.next.NoMember? then Layout(fmt, [NEWLINE]) + close
            else
              [COMMA] + (Layout(fmt, [NEWLINE]) + Layout(fmt, Tabs(depth)) + (MemberBody(ms.next, depth, fmt) + close))
  {
    if ms.next.Member? {
      hide Layout, MemberBody;
      BlankRegroup(Layout(fmt, [NEWLINE]), Layout(fmt, Tabs(depth)), MemberBody(ms.next, depth, fmt) + close);
      BlankRegroup(Layout(fmt, Tabs(depth)), MemberBody(ms.next, depth, fmt), close);
    }
  }

  /** What ParseMembers does once it has read a key and a value. */
  lemma MembersStep(t: seq<byte>, u: seq<byte>, key: seq<byte>, v: seq<byte>, v': seq<byte>, value: Json, w: seq<byte>,
          b: byte, r: seq<byte>)
    requires Skip(t) == u && ParseString(u) == Ok(key, [COLON] + v)
    requires Skip(v) == v' && ParseValue(v') == Ok(value, w)
    requires Skip(w) == [b] + r && (b == COMMA || b == CLOSE_BRACE)
    ensures b == CLOSE_BRACE ==> ParseMembers(t) == Ok(Member(key, value, NoMember), r)
    ensures b == COMMA && ParseMembers(r).Ok? ==>
              ParseMembers(t) == Ok(Member(key, value, ParseMembers(r).value), ParseMembers(r).rest)
  {
    hide ParseValue, ParseString;
    SkipNothing([COLON] + v);
    assert ([COLON] + v)[1..] == v;
    assert ([b] + r)[1..] == r;
  }

  lemma {:induction false} MembersRead(ms: Members, depth: nat, fmt: bool, blank: seq<byte>, rest: seq<byte>)
    requires ms.Member? && MembersWellFormed(ms) && Blank(blank)
    ensures ParseMembers(blank + (MemberBody(ms, depth + 1, fmt) + (Layout(fmt, Tabs(depth)) + ([CLOSE_BRACE] + rest))))
            == Ok(ms, rest)
    decreases ms, 1
  {
    var end := [CLOSE_BRACE] + rest;
    var close := Layout(fmt, Tabs(depth)) + end;
    var body := MemberBody(ms, depth + 1, fmt) + close;
    var w := AfterValue(ms, depth + 1, fmt, close);
    var v' := Print(ms.value, depth + 1, fmt) + w;
    var v := Layout(fmt, [TAB]) + v';
    PrintHead(ms.value, depth + 1, fmt);
    assert Head(v') > 32;
    BodyText(ms, depth + 1, fmt, close);
    AfterValueText(ms, depth + 1, fmt, close);
    EndDelimits(ms, depth, fmt, end);
    hide MemberBody, Layout, PrintString, Print, AfterValue, ParseMembers, ParseValue, ParseString, Skip, Delimits;
    SkipBlank(blank, body);
    StringReads(ms.key, [COLON] + v);
    LayoutsBlank(fmt, depth);
    SkipBlank(Layout(fmt, [TAB]), v');
    ValueReads(ms.value, depth + 1, fmt, w);
    if ms.next.NoMember? {
      BlankRegroup(Layout(fmt, [NEWLINE]), Layout(fmt, Tabs(depth)), end);
      SkipBlank(Layout(fmt, [NEWLINE]) + Layout(fmt, Tabs(depth)), end);
      MembersStep(blank + body, body, ms.key, v, v', ms.value, w, CLOSE_BRACE, rest);
    } else {
      var blank' := Layout(fmt, [NEWLINE]) + Layout(fmt, Tabs(depth + 1));
      LayoutsBlank(fmt, depth + 1);
      var more := blank' + (MemberBody(ms.next, depth + 1, fmt) + close);
      SkipNothing([COMMA] + more);
      MembersRead(ms.next, depth, fmt, blank', rest);
      MembersStep(blank + body, body, ms.key, v, v', ms.value, w, COMMA, more);
    }
  }

  lemma BlankRegroup(x: seq<byte>, y: seq<byte>, z: seq<byte>)
    ensures x + y + z == x + (y + z)
  {
  }

  /** A value in an object is followed by a comma, a blank, or the closing brace. */
  lemma EndDelimits(ms: Members, depth: nat, fmt: bool, end: seq<byte>)
    requires ms.Member? && Head(end) == CLOSE_BRACE
    ensures Delimits(AfterValue(ms, depth + 1, fmt, Layout(fmt, Tabs(depth)) + end))
  {
    AfterValueText(ms, depth + 1, fmt, Layout(fmt, Tabs(depth)) + end);
    if ms.next.NoMember? && !fmt {
      assert Layout(fmt, [NEWLINE]) + (Layout(fmt, Tabs(depth)) + end) == end;
    }
  }

  /** Parsing the printed text of a tree gives the same tree, formatted or not. */
  lemma RoundTrip(j: Json, fmt: bool)
    requires WellFormed(j)
    ensures Parse(Print(j, 0, fmt)) == Ok(j, [])
  {
    PrintHead(j, 0, fmt);
    SkipNothing(Print(j, 0, fmt));
    ValueReads(j, 0, fmt, []);
    assert Print(j, 0, fmt) + [] == Print(j, 0, fmt);
  }

  // ---------------------------------------------------------------------
  // UTF-8
  // ---------------------------------------------------------------------

  predicate Continuation(b: byte)
  {
    0x80 <= b < 0xC0
  }

  /**
   The code point that a byte string encodes, if it is a well-formed UTF-8 sequence: the lead byte
   gives the length, every other byte is a continuation, the form is the shortest, and the code
   point is a Unicode scalar value (sections 3 and 4 of RFC 3629).
   */
  function Utf8Point(s: seq<byte>): Option<int>
  {
    if |s| == 1 && s[0] < 0x80 then Some(s[0])
    else if |s| == 2 && 0xC0 <= s[0] < 0xE0 && Continuation(s[1]) then
      AtLeast(0x80, Payload(s[0], 0xC0) * 0x40 + Payload(s[1], 0x80))
    else if |s| == 3 && 0xE0 <= s[0] < 0xF0 && Continuation(s[1]) && Continuation(s[2]) then
      AtLeast(0x800, Payload(s[0], 0xE0) * 0x1000 + Payload(s[1], 0x80) * 0x40 + Payload(s[2], 0x80))
    else if |s| == 4 && 0xF0 <= s[0] < 0xF8 && Continuation(s[1]) && Continuation(s[2]) && Continuation(s[3]) then
      AtLeast(0x10000, Payload(s[0], 0xF0) * 0x40000 + Payload(s[1], 0x80) * 0x1000
                       + Payload(s[2], 0x80) * 0x40 + Payload(s[3], 0x80))
    else None
  }

  /** The bits of a byte above its mark. */
  function Payload(b: byte, mark: int): int
  {
    b - mark
  }

  function AtLeast(low: int, c: int): Option<int>
  {
    if low <= c < 0x110000 && !(0xD800 <= c <= 0xDFFF) then Some(c) else None
  }

  /** Every Unicode scalar value is encoded as a well-formed sequence that stands for it. */
  lemma Utf8Correct(c: nat)
    requires c < 0x110000 && !HighSurrogate(c) && !LowSurrogate(c)
    ensures Utf8Point(Utf8(c)) == Some(c)
  {
    Base64Digits(c);
  }

  lemma Base64Digits(c: nat)
    ensures c == c / 0x40 * 0x40 + c % 0x40
    ensures c / 0x40 == c / 0x1000 * 0x40 + c / 0x40 % 0x40
    ensures c / 0x1000 == c / 0x40000 * 0x40 + c / 0x1000 % 0x40
  {
    assert c / 0x1000 == (c / 0x40) / 0x40;
    assert c / 0x40000 == (c / 0x1000) / 0x40;
  }

  /**
   A \u escape, or a pair of them, decodes to the UTF-8 form of its code point: the unit itself, or
   the scalar value beyond the basic plane that a surrogate pair stands for.
   */
  lemma EscapedPointScalar(s: seq<byte>)
    requires EscapedPoint(s).Some?
    ensures var (c, k) := EscapedPoint(s).value;
      && !HighSurrogate(c) && !LowSurrogate(c) && Utf8Point(Utf8(c)) == Some(c)
      && (k == 4 ==> c == Hex4(s))
      && (k == 10 ==>
          c >= 0x10000 && (c - 0x10000) / 0x400 == Hex4(s) - 0xD800 && (c - 0x10000) % 0x400 == Hex4(s[6..]) - 0xDC00)
  {
    hide Hex4;
    Utf8Correct(EscapedPoint(s).value.0);
  }
}
