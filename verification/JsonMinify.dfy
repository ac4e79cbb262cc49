/**
 cJSON_Minify: removing layout and comments from a JSON text in place.
 */
module JsonMinify {

  import opened Base
  import opened JsonText

  predicate IsBlank(b: byte)
  {
    b == SPACE || b == TAB || b == RETURN || b == NEWLINE
  }

  function SkipLine(t: seq<byte>): (r: seq<byte>)
    ensures |r| <= |t|
  {
    if |t| > 0 && t[0] != NEWLINE then SkipLine(t[1..]) else t
  }

  /** From the start of a block comment to the end mark it contains, if it has one. */
  function SkipComment(t: seq<byte>): (r: Option<seq<byte>>)
    ensures r.Some? ==> 2 <= |r.value| <= |t|
  {
    if |t| < 2 then None
    else if t[0] == STAR && t[1] == SLASH then Some(t)
    else SkipComment(t[1..])
  }

  /** The minified text; None where the source runs past the end, in an unclosed comment or literal. */
  function Minify(t: seq<byte>): Option<seq<byte>>
    decreases |t|
  {
    if |t| == 0 then Some([])
    else if IsBlank(t[0]) then Minify(t[1..])
    else if t[0] == SLASH && |t| > 1 && t[1] == SLASH then Minify(SkipLine(t[1..]))
    else if t[0] == SLASH && |t| > 1 && t[1] == STAR then
      match SkipComment(t[1..])
      case None => None
      case Some(u) => Minify(u[2..])
    else if t[0] == QUOTE then
      match LiteralEnd(t[1..])
      case None => None
      case Some(n) => if n == |t| - 1 then None else Prefix(t[..n + 2], Minify(t[n + 2..]))
    else Prefix([t[0]], Minify(t[1..]))
  }

  // ---------------------------------------------------------------------
  // The formatted text minifies to the unformatted one
  // ---------------------------------------------------------------------

  lemma PrefixTwice(x: seq<byte>, y: seq<byte>, r: Option<seq<byte>>)
    ensures Prefix(x, Prefix(y, r)) == Prefix(x + y, r)
  {
    if r.Some? {
      assert x + (y + r.value) == x + y + r.value;
    }
  }

  /** Minifying x and what follows gives y and what that minifies to. */
  ghost predicate MinifiesTo(x: seq<byte>, y: seq<byte>)
  {
    forall rest: seq<byte> :: Minify(x + rest) == Prefix(y, Minify(rest))
  }

  lemma Compose(x: seq<byte>, y: seq<byte>, x': seq<byte>, y': seq<byte>)
    requires MinifiesTo(x, y) && MinifiesTo(x', y')
    ensures MinifiesTo(x + x', y + y')
  {
    hide Minify;
    forall rest: seq<byte> ensures Minify(x + x' + rest) == Prefix(y + y', Minify(rest)) {
      assert x + x' + rest == x + (x' + rest);
      PrefixTwice(y, y', Minify(rest));
    }
  }

  lemma NothingMinifies()
    ensures MinifiesTo([], [])
  {
    hide Minify;
    forall rest: seq<byte> ensures Minify([] + rest) == Prefix([], Minify(rest)) {
      assert [] + rest == rest;
      if Minify(rest).Some? {
        assert [] + Minify(rest).value == Minify(rest).value;
      }
    }
  }

  predicate Plain(b: byte)
  {
    !IsBlank(b) && b != SLASH && b != QUOTE
  }

  lemma ByteMinifies(b: byte)
    ensures Plain(b) ==> MinifiesTo([b], [b])
    ensures IsBlank(b) ==> MinifiesTo([b], [])
  {
    forall rest: seq<byte>
      ensures Plain(b) ==> Minify([b] + rest) == Prefix([b], Minify(rest))
      ensures IsBlank(b) ==> Minify([b] + rest) == Prefix([], Minify(rest))
    {
      assert ([b] + rest)[1..] == rest;
      if Minify(rest).Some? {
        assert [] + Minify(rest).value == Minify(rest).value;
      }
    }
  }

  lemma {:induction false} PlainMinifies(s: seq<byte>)
    requires forall i :: 0 <= i < |s| ==> Plain(s[i])
    ensures MinifiesTo(s, s)
  {
    hide MinifiesTo;
    if |s| == 0 {
      NothingMinifies();
    } else {
      ByteMinifies(s[0]);
      PlainMinifies(s[1..]);
      Compose([s[0]], [s[0]], s[1..], s[1..]);
      assert [s[0]] + s[1..] == s;
    }
  }

  lemma {:induction false} BlankMinifies(s: seq<byte>)
    requires forall i :: 0 <= i < |s| ==> IsBlank(s[i])
    ensures MinifiesTo(s, [])
  {
    hide MinifiesTo;
    if |s| == 0 {
      NothingMinifies();
    } else {
      ByteMinifies(s[0]);
      BlankMinifies(s[1..]);
      Compose([s[0]], [], s[1..], []);
      assert [s[0]] + s[1..] == s;
      var none: seq<byte> := [];
      assert none + none == none;
    }
  }

  lemma StringMinifies(s: seq<byte>)
    ensures MinifiesTo(PrintString(s), PrintString(s))
  {
    forall rest: seq<byte> ensures Minify(PrintString(s) + rest) == Prefix(PrintString(s), Minify(rest)) {
      StringCopied(s, rest);
    }
  }

  /** A string in front of other text is copied as it is. */
  lemma StringCopied(s: seq<byte>, rest: seq<byte>)
    ensures Minify(PrintString(s) + rest) == Prefix(PrintString(s), Minify(rest))
  {
    hide EscapeAll, LiteralEnd, SkipLine, SkipComment;
    var e, t := EscapeAll(s), PrintString(s) + rest;
    assert t[0] == QUOTE && t[1..] == e + ([QUOTE] + rest);
    EndAll(s, rest);
    assert t[..|e| + 2] == PrintString(s) && t[|e| + 2..] == rest;
  }

  lemma {:induction false} DecimalPlain(n: nat)
    ensures forall i :: 0 <= i < |Decimal(n)| ==> IsDigit(Decimal(n)[i])
  {
    if n >= 10 {
      DecimalPlain(n / 10);
    }
  }

  lemma LayoutMinifies(s: seq<byte>)
    requires forall i :: 0 <= i < |s| ==> IsBlank(s[i])
    ensures MinifiesTo(Layout(true, s), Layout(false, s))
  {
    BlankMinifies(s);
  }

  lemma {:induction false} ValueMinifies(j: Json, depth: nat)
    ensures MinifiesTo(Print(j, depth, true), Print(j, depth, false))
    decreases j, 2
  {
    hide MinifiesTo;
    match j
    case Number(n) =>
      DecimalPlain(if n < 0 then -n else n);
      PlainMinifies(PrintNumber(n));
    case String(s) => StringMinifies(s);
    case Array(es) =>
      ElementsMinify(es, depth + 1);
      ByteMinifies(OPEN_BRACKET);
      ByteMinifies(CLOSE_BRACKET);
      hide PrintElements;
      Compose([OPEN_BRACKET], [OPEN_BRACKET], PrintElements(es, depth + 1, true), PrintElements(es, depth + 1, false));
      Compose([OPEN_BRACKET] + PrintElements(es, depth + 1, true), [OPEN_BRACKET] + PrintElements(es, depth + 1, false),
              [CLOSE_BRACKET], [CLOSE_BRACKET]);
    case Object(ms) => ObjectMinifies(ms, depth);
    case Null => PlainMinifies(NULL_TEXT);
    case False => PlainMinifies(FALSE_TEXT);
    case True => PlainMinifies(TRUE_TEXT);
  }

  lemma {:induction false} ElementsMinify(es: Elements, depth: nat)
    ensures MinifiesTo(PrintElements(es, depth, true), PrintElements(es, depth, false))
    decreases es, 1
  {
    hide MinifiesTo, Print, Layout;
    if es.NoElement? {
      NothingMinifies();
    } else {
      ValueMinifies(es.value, depth);
      if es.next.Element? {
        ElementsMinify(es.next, depth);
        ByteMinifies(COMMA);
        LayoutMinifies([SPACE]);
        var x, y := Print(es.value, depth, true), Print(es.value, depth, false);
        Compose(x, y, [COMMA], [COMMA]);
        Compose(x + [COMMA], y + [COMMA], Layout(true, [SPACE]), Layout(false, [SPACE]));
        Compose(x + [COMMA] + Layout(true, [SPACE]), y + [COMMA] + Layout(false, [SPACE]),
                PrintElements(es.next, depth, true), PrintElements(es.next, depth, false));
      }
    }
  }

  lemma {:induction false} ObjectMinifies(ms: Members, depth: nat)
    ensures MinifiesTo(Print(Object(ms), depth, true), Print(Object(ms), depth, false))
    decreases ms, 2
  {
    hide MinifiesTo, Layout;
    MembersMinify(ms, depth + 1);
    hide PrintMembers;
    ByteMinifies(OPEN_BRACE);
    ByteMinifies(CLOSE_BRACE);
    LayoutMinifies([NEWLINE]);
    LayoutMinifies(Tabs(depth));
    var x, y := [OPEN_BRACE] + Layout(true, [NEWLINE]), [OPEN_BRACE] + Layout(false, [NEWLINE]);
    Compose([OPEN_BRACE], [OPEN_BRACE], Layout(true, [NEWLINE]), Layout(false, [NEWLINE]));
    var x', y' := x + PrintMembers(ms, depth + 1, true), y + PrintMembers(ms, depth + 1, false);
    Compose(x, y, PrintMembers(ms, depth + 1, true), PrintMembers(ms, depth + 1, false));
    Compose(x', y', Layout(true, Tabs(depth)), Layout(false, Tabs(depth)));
    Compose(x' + Layout(true, Tabs(depth)), y' + Layout(false, Tabs(depth)), [CLOSE_BRACE], [CLOSE_BRACE]);
  }

  lemma {:induction false} MembersMinify(ms: Members, depth: nat)
    ensures MinifiesTo(PrintMembers(ms, depth, true), PrintMembers(ms, depth, false))
    decreases ms, 1
  {
    hide MinifiesTo, Layout;
    if ms.NoMember? {
      NothingMinifies();
    } else {
      BodyMinifies(ms, depth);
      hide MemberBody;
      LayoutMinifies(Tabs(depth));
      Compose(Layout(true, Tabs(depth)), Layout(false, Tabs(depth)), MemberBody(ms, depth, true),
          MemberBody(ms, depth, false));
    }
  }

  lemma {:induction false} BodyMinifies(ms: Members, depth: nat)
    requires ms.Member?
    ensures MinifiesTo(MemberBody(ms, depth, true), MemberBody(ms, depth, false))
    decreases ms, 0
  {
    hide MinifiesTo, Layout, PrintString, Print, PrintMembers;
    StringMinifies(ms.key);
    ByteMinifies(COLON);
    ByteMinifies(COMMA);
    NothingMinifies();
    LayoutMinifies([TAB]);
    LayoutMinifies([NEWLINE]);
    ValueMinifies(ms.value, depth);
    MembersMinify(ms.next, depth);
    var comma: seq<byte> := if ms.next.NoMember? then [] else [COMMA];
    var x1, y1 := PrintString(ms.key), PrintString(ms.key);
    Compose(x1, y1, [COLON], [COLON]);
    var x2, y2 := x1 + [COLON], y1 + [COLON];
    Compose(x2, y2, Layout(true, [TAB]), Layout(false, [TAB]));
    var x3, y3 := x2 + Layout(true, [TAB]), y2 + Layout(false, [TAB]);
    Compose(x3, y3, Print(ms.value, depth, true), Print(ms.value, depth, false));
    var x4, y4 := x3 + Print(ms.value, depth, true), y3 + Print(ms.value, depth, false);
    Compose(x4, y4, comma, comma);
    var x5, y5 := x4 + comma, y4 + comma;
    Compose(x5, y5, Layout(true, [NEWLINE]), Layout(false, [NEWLINE]));
    Compose(x5 + Layout(true, [NEWLINE]), y5 + Layout(false, [NEWLINE]),
            PrintMembers(ms.next, depth, true), PrintMembers(ms.next, depth, false));
  }

  /** Minifying the formatted text of a tree gives its unformatted text. */
  lemma MinifyFormatted(j: Json)
    ensures Minify(Print(j, 0, true)) == Some(Print(j, 0, false))
  {
    ValueMinifies(j, 0);
    assert Print(j, 0, true) + [] == Print(j, 0, true);
    assert Print(j, 0, false) + [] == Print(j, 0, false);
    assert Minify([]) == Some([]);
  }

  // ---------------------------------------------------------------------
  // In place
  // ---------------------------------------------------------------------

  /** The array holds the text from j on, and then a NUL. */
  ghost predicate Unread(json: seq<byte>, text: seq<byte>, j: nat)
  {
    |text| < |json| && j <= |text| && json[j..|text| + 1] == text[j..] + [NUL]
  }

  lemma UnreadFrom(json: seq<byte>, text: seq<byte>, j: nat, k: nat)
    requires Unread(json, text, j) && j <= k <= |text|
    ensures Unread(json, text, k) && json[k] == (if k < |text| then text[k] else NUL)
    ensures k < |text| ==> json[k + 1] == if k + 1 < |text| then text[k + 1] else NUL
  {
    var s := json[j..|text| + 1];
    assert s[k - j..] == json[k..|text| + 1];
    assert (text[j..] + [NUL])[k - j..] == text[k..] + [NUL];
    assert s[k - j] == json[k];
    assert k < |text| ==> s[k + 1 - j] == json[k + 1];
  }

  method PassLine(json: array<byte>, ghost text: seq<byte>, start: nat) returns (j: nat)
    requires NUL !in text && Unread(json[..], text, start) && start < |text| && text[start] == SLASH
    ensures start < j <= |text| && text[j..] == SkipLine(text[start + 1..]) && Unread(json[..], text, j)
  {
    j := start;
    UnreadFrom(json[..], text, start, j);
    while json[j] != NUL && json[j] != NEWLINE
      invariant start <= j <= |text| && (j == start ==> text[j] == json[j] == SLASH)
      invariant json[j] == if j < |text| then text[j] else NUL
      invariant SkipLine(text[start + 1..]) == SkipLine(text[if j == start then j + 1 else j..])
      decreases |text| - j
    {
      assert j > start ==> text[j..][1..] == text[j + 1..];
      j := j + 1;
      UnreadFrom(json[..], text, start, j);
    }
    UnreadFrom(json[..], text, start, j);
  }

  method PassComment(json: array<byte>, ghost text: seq<byte>, start: nat) returns (j: nat)
    requires NUL !in text && Unread(json[..], text, start) && start < |text| && text[start] == SLASH
    requires SkipComment(text[start + 1..]).Some?
    ensures start < j <= |text| && Unread(json[..], text, j)
    ensures text[j..] == SkipComment(text[start + 1..]).value[2..]
  {
    j := start;
    UnreadFrom(json[..], text, start, j);
    ghost var goal := SkipComment(text[start + 1..]);
    while json[j] != NUL && !(json[j] == STAR && json[j + 1] == SLASH)
      invariant start <= j <= |text| && Unread(json[..], text, j)
      invariant goal == SkipComment(text[if j == start then j + 1 else j..])
      decreases |text| - j
    {
      UnreadFrom(json[..], text, j, j);
      assert j > start ==> text[j..][1..] == text[j + 1..];
      j := j + 1;
      UnreadFrom(json[..], text, start, j);
    }
    UnreadFrom(json[..], text, j, j);
    j := j + 2;
    UnreadFrom(json[..], text, start, j);
  }

  /** The bytes written so far are `out` followed by the text from start to j. */
  ghost predicate Written(json: seq<byte>, into: nat, out: seq<byte>, text: seq<byte>, start: nat, j: nat)
  {
    into <= |json| && start <= j <= |text| && json[..into] == out + text[start..j]
  }

  ghost predicate Out(json: seq<byte>, into: nat, out: seq<byte>)
  {
    into <= |json| && json[..into] == out
  }

  lemma OutWritten(json: seq<byte>, into: nat, out: seq<byte>, text: seq<byte>, j: nat)
    requires Out(json, into, out) && j <= |text|
    ensures Written(json, into, out, text, j, j)
  {
  }

  lemma WrittenOut(json: seq<byte>, into: nat, out: seq<byte>, text: seq<byte>, start: nat, j: nat)
    requires Written(json, into, out, text, start, j)
    ensures start <= j <= |text| && Out(json, into, out + text[start..j])
  {
  }

  /** *into++ = *json++ */
  method CopyByte(json: array<byte>, ghost text: seq<byte>, into: nat, j: nat, ghost out: seq<byte>, ghost start: nat)
    requires into <= j < |text| && Unread(json[..], text, j) && Written(json[..], into, out, text, start, j)
    modifies json
    ensures Written(json[..], into + 1, out, text, start, j + 1) && Unread(json[..], text, j + 1)
  {
    UnreadFrom(json[..], text, j, j + 1);
    UnreadFrom(json[..], text, j, j);
    ghost var rest := json[j + 1..|text| + 1];
    json[into] := json[j];
    assert json[j + 1..|text| + 1] == rest;
    assert out + text[start..j] + [text[j]] == out + text[start..j + 1];
  }

  lemma LiteralStep(text: seq<byte>, j: nat)
    requires j < |text| && text[j] != QUOTE && LiteralEnd(text[j..]).Some?
    ensures text[j] == BACKSLASH ==> j + 1 < |text| && LiteralEnd(text[j..]) == Shift(LiteralEnd(text[j + 2..]), 2)
    ensures text[j] != BACKSLASH ==> LiteralEnd(text[j..]) == Shift(LiteralEnd(text[j + 1..]), 1)
  {
    var u := text[j..];
    assert u[1..] == text[j + 1..];
    assert |u| >= 2 ==> u[2..] == text[j + 2..];
  }

  lemma LiteralDone(text: seq<byte>, j: nat)
    requires j <= |text| && (j == |text| || text[j] == QUOTE)
    ensures LiteralEnd(text[j..]) == Some(0)
  {
  }

  /** Copy a byte of a literal, together with the backslash in front of it if there is one. */
  method CopyUnit(json: array<byte>, ghost text: seq<byte>, into: nat, j: nat, ghost out: seq<byte>, ghost start: nat)
    returns (into': nat, j': nat)
    requires into <= j < |text| && Unread(json[..], text, j) && Written(json[..], into, out, text, start, j)
    requires json[j] == text[j] != QUOTE && LiteralEnd(text[j..]).Some?
    modifies json
    ensures into' <= j' <= |text| && j < j'
    ensures Written(json[..], into', out, text, start, j') && Unread(json[..], text, j')
    ensures LiteralEnd(text[j..]) == Shift(LiteralEnd(text[j'..]), j' - j)
  {
    assert j < json.Length;
    hide Written, Unread, LiteralEnd;
    LiteralStep(text, j);
    ghost var next := if text[j] == BACKSLASH then j + 2 else j + 1;
    assert LiteralEnd(text[j..]) == Shift(LiteralEnd(text[next..]), next - j);
    hide Shift;
    into', j' := into, j;
    if json[j'] == BACKSLASH {
      CopyByte(json, text, into', j', out, start);
      into', j' := into' + 1, j' + 1;
    }
    CopyByte(json, text, into', j', out, start);
    into', j' := into' + 1, j' + 1;
    assert j' == next;
  }

  /** Copy a literal with its quotes; an escaped byte is copied with its backslash. */
  method CopyLiteral(json: array<byte>, ghost text: seq<byte>, into0: nat, start: nat, ghost out: seq<byte>)
      returns (into: nat, j: nat)
    requires NUL !in text && into0 <= start < |text| && Unread(json[..], text, start)
        && Written(json[..], into0, out, text, start, start)
    requires text[start] == QUOTE
    requires LiteralEnd(text[start + 1..]).Some? && LiteralEnd(text[start + 1..]).value < |text| - start - 1
    modifies json
    ensures var n := LiteralEnd(text[start + 1..]).value;
            j == start + n + 2 && into <= j <= |text|
    ensures Written(json[..], into, out, text, start, j) && Unread(json[..], text, j)
  {
    hide Written, Unread, LiteralEnd;
    into, j := into0, start;
    CopyByte(json, text, into, j, out, start);
    into, j := into + 1, j + 1;
    UnreadFrom(json[..], text, j, j);
    while json[j] != NUL && json[j] != QUOTE
      invariant start < j <= |text| && into <= j
      invariant Written(json[..], into, out, text, start, j) && Unread(json[..], text, j)
      invariant json[..][j] == if j < |text| then text[j] else NUL
      invariant LiteralEnd(text[j..]).Some?
      invariant LiteralEnd(text[start + 1..]).value == LiteralEnd(text[j..]).value + (j - start - 1)
      decreases |text| - j
    {
      into, j := CopyUnit(json, text, into, j, out, start);
      UnreadFrom(json[..], text, j, j);
    }
    LiteralDone(text, j);
    CopyByte(json, text, into, j, out, start);
    into, j := into + 1, j + 1;
  }

  /** What has been written and what is left to read make up the minified text. */
  ghost predicate Halfway(text: seq<byte>, out: seq<byte>, rest: seq<byte>)
  {
    Minify(text).Some? && Minify(rest).Some? && Minify(text) == Prefix(out, Minify(rest))
  }

  lemma BlankStep(text: seq<byte>, out: seq<byte>, j: nat)
    requires j < |text| && IsBlank(text[j]) && Halfway(text, out, text[j..])
    ensures Halfway(text, out, text[j + 1..])
  {
    assert text[j..][1..] == text[j + 1..];
  }

  lemma LineStep(text: seq<byte>, out: seq<byte>, j: nat)
    requires j + 1 < |text| && text[j] == SLASH && text[j + 1] == SLASH && Halfway(text, out, text[j..])
    ensures Halfway(text, out, SkipLine(text[j + 1..]))
  {
    assert text[j..][1..] == text[j + 1..];
  }

  lemma CommentStep(text: seq<byte>, out: seq<byte>, j: nat)
    requires j + 1 < |text| && text[j] == SLASH && text[j + 1] == STAR && Halfway(text, out, text[j..])
    ensures SkipComment(text[j + 1..]).Some? && Halfway(text, out, SkipComment(text[j + 1..]).value[2..])
  {
    assert text[j..][1..] == text[j + 1..];
  }

  lemma QuoteStep(text: seq<byte>, out: seq<byte>, j: nat)
    requires j < |text| && text[j] == QUOTE && Halfway(text, out, text[j..])
    ensures LiteralEnd(text[j + 1..]).Some? && LiteralEnd(text[j + 1..]).value < |text| - j - 1
    ensures var k := j + LiteralEnd(text[j + 1..]).value + 2; Halfway(text, out + text[j..k], text[k..])
  {
    assert text[j..][1..] == text[j + 1..];
    var k := j + LiteralEnd(text[j + 1..]).value + 2;
    assert text[j..][..k - j] == text[j..k] && text[j..][k - j..] == text[k..];
    PrefixTwice(out, text[j..k], Minify(text[k..]));
  }

  lemma OtherStep(text: seq<byte>, out: seq<byte>, j: nat)
    requires j < |text| && !IsBlank(text[j]) && text[j] != QUOTE && Halfway(text, out, text[j..])
    requires text[j] == SLASH ==> j + 1 == |text| || (text[j + 1] != SLASH && text[j + 1] != STAR)
    ensures Halfway(text, out + text[j..j + 1], text[j + 1..])
  {
    assert text[j..][1..] == text[j + 1..];
    assert text[j..j + 1] == [text[j]];
    PrefixTwice(out, text[j..j + 1], Minify(text[j + 1..]));
  }

  lemma StartMinify(text: seq<byte>)
    ensures Minify(text).Some? ==> Halfway(text, [], text[0..])
  {
    assert text[0..] == text;
    if Minify(text).Some? {
      assert [] + Minify(text).value == Minify(text).value;
    }
  }

  /** One round of the loop of cJSON_Minify: pass over a blank or a comment, or copy a literal or a byte. */
  method MinifyStep(json: array<byte>, ghost text: seq<byte>, into: nat, j: nat, ghost out: seq<byte>)
    returns (into': nat, j': nat, ghost out': seq<byte>)
    requires NUL !in text && into <= j < |text| < json.Length
    requires Out(json[..], into, out) && Unread(json[..], text, j) && Halfway(text, out, text[j..])
    modifies json
    ensures into' <= j' <= |text| && j < j'
    ensures Out(json[..], into', out') && Unread(json[..], text, j') && Halfway(text, out', text[j'..])
  {
    UnreadFrom(json[..], text, j, j);
    UnreadFrom(json[..], text, j, j + 1);
    hide Minify, Unread, Out, Written, LiteralEnd, SkipLine, SkipComment, Halfway;
    into', j', out' := into, j, out;
    if json[j] == SPACE || json[j] == TAB || json[j] == RETURN || json[j] == NEWLINE {
      BlankStep(text, out, j);
      j' := j + 1;
    } else if json[j] == SLASH && json[j + 1] == SLASH {
      LineStep(text, out, j);
      j' := PassLine(json, text, j);
    } else if json[j] == SLASH && json[j + 1] == STAR {
      CommentStep(text, out, j);
      j' := PassComment(json, text, j);
    } else if json[j] == QUOTE {
      into', j', out' := MinifyQuoted(json, text, into, j, out);
    } else {
      OtherStep(text, out, j);
      OutWritten(json[..], into, out, text, j);
      CopyByte(json, text, into, j, out, j);
      into', j' := into + 1, j + 1;
      WrittenOut(json[..], into', out, text, j, j');
      out' := out + text[j..j'];
    }
  }

  /** The round that copies a literal. */
  method MinifyQuoted(json: array<byte>, ghost text: seq<byte>, into: nat, j: nat, ghost out: seq<byte>)
    returns (into': nat, j': nat, ghost out': seq<byte>)
    requires NUL !in text && into <= j < |text| < json.Length && text[j] == QUOTE
    requires Out(json[..], into, out) && Unread(json[..], text, j) && Halfway(text, out, text[j..])
    modifies json
    ensures into' <= j' <= |text| && j < j'
    ensures Out(json[..], into', out') && Unread(json[..], text, j') && Halfway(text, out', text[j'..])
  {
    hide Minify, Unread, Out, Written, LiteralEnd, SkipLine, SkipComment, Halfway;
    QuoteStep(text, out, j);
    OutWritten(json[..], into, out, text, j);
    into', j' := CopyLiteral(json, text, into, j, out);
    WrittenOut(json[..], into', out, text, j, j');
    out' := out + text[j..j'];
  }

  /** cJSON_Minify: reading runs ahead of writing in the same array. */
  method MinifyInPlace(json: array<byte>, ghost text: seq<byte>)
    requires NUL !in text && Unread(json[..], text, 0) && Minify(text).Some?
    modifies json
    ensures var m := Minify(text).value;
            |m| < json.Length && json[..|m|] == m && json[|m|] == NUL
  {
    var into, j := 0, 0;
    ghost var out: seq<byte> := [];
    StartMinify(text);
    UnreadFrom(json[..], text, j, j);
    assert Out(json[..], into, out);
    hide Minify, Unread, Out, Halfway;
    while json[j] != NUL
      invariant 0 <= into <= j <= |text| < json.Length
      invariant Out(json[..], into, out) && Unread(json[..], text, j) && Halfway(text, out, text[j..])
      invariant json[..][j] == if j < |text| then text[j] else NUL
      decreases |text| - j
    {
      into, j, out := MinifyStep(json, text, into, j, out);
      UnreadFrom(json[..], text, j, j);
    }
    EndMinify(text, out);
    WriteEnd(json, into, out);
  }

  method WriteEnd(json: array<byte>, into: nat, ghost out: seq<byte>)
    requires into < json.Length && Out(json[..], into, out)
    modifies json
    ensures |out| == into && json[..into] == out && json[into] == NUL
  {
    json[into] := NUL;
  }

  lemma EndMinify(text: seq<byte>, out: seq<byte>)
    requires Halfway(text, out, text[|text|..])
    ensures Minify(text) == Some(out)
  {
    assert out + [] == out;
  }
}
