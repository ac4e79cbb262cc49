/**
 Printing into one growing buffer (the branches of the cJSON printers that are given a buffer).
 */
module JsonBuffered {

  import opened Base
  import opened JsonText
  import opened JsonPrint

  /** A size for the recursion along child lists. */
  function Size(j: Json): nat
  {
    match j
    case Array(es) => 1 + SizeOfElements(es)
    case Object(ms) => 1 + SizeOfMembers(ms)
    case _ => 0
  }

  function SizeOfElements(es: Elements): nat
  {
    if es.NoElement? then 0 else 1 + Size(es.value) + SizeOfElements(es.next)
  }

  function SizeOfMembers(ms: Members): nat
  {
    if ms.NoMember? then 0 else 1 + Size(ms.value) + SizeOfMembers(ms.next)
  }

  /** Behind the old contents, b' holds the text t and a NUL; the new offset is somewhere inside the text. */
  ghost predicate Printed(b: seq<byte>, b': seq<byte>, o: nat, o': nat, t: seq<byte>)
  {
    Wrote(b, b', o, t) && o <= o' <= o + |t|
  }

  /** The finished part of the buffer. */
  ghost predicate Holds(b: seq<byte>, offset: nat, s: seq<byte>)
  {
    offset <= |b| && b[..offset] == s
  }

  method PrintStringInto(str: seq<byte>, p: PrintBuffer)
    requires p.Valid() && NUL !in str
    modifies p, p.buffer
    ensures p.Valid() && (p.buffer == old(p.buffer) || fresh(p.buffer))
    ensures p.offset == old(p.offset) && Wrote(old(p.buffer[..]), p.buffer[..], p.offset, PrintString(str))
  {
    ghost var b := p.buffer[..];
    var flag, len := HasSpecial(str);
    if !flag {
      PlainEscapes(str);
    } else {
      len := EscapedLength(str);
    }
    p.Ensure(len + 3);
    assert p.buffer[..p.offset] == b[..p.offset];
    WriteString(p.buffer, p.offset, str, flag);
  }

  /** Every 32-bit number fits the 21 bytes that are ensured for it. */
  lemma {:induction false} DecimalShort(n: nat, k: nat)
    requires k > 0 && n < Power10(k)
    ensures |Decimal(n)| <= k
  {
    if n >= 10 {
      DecimalShort(n / 10, k - 1);
    }
  }

  function Power10(k: nat): nat
  {
    if k == 0 then 1 else 10 * Power10(k - 1)
  }

  lemma NumberShort(n: int)
    requires INT_MIN <= n <= INT_MAX
    ensures |PrintNumber(n)| <= 11
  {
    assert Power10(10) == 10000000000;
    DecimalShort(if n < 0 then -n else n, 10);
  }

  method PrintInto(j: Json, depth: nat, fmt: bool, p: PrintBuffer)
    requires p.Valid() && WellFormed(j)
    modifies p, p.buffer
    ensures p.Valid() && (p.buffer == old(p.buffer) || fresh(p.buffer))
    ensures Printed(old(p.buffer[..]), p.buffer[..], old(p.offset), p.offset, Print(j, depth, fmt))
    decreases Size(j), 1
  {
    match j
    case Null => p.Write(5, NULL_TEXT, true);
    case False => p.Write(6, FALSE_TEXT, true);
    case True => p.Write(5, TRUE_TEXT, true);
    case Number(n) =>
      if n == 0 {
        p.Write(2, [ZERO], true);
      } else {
        NumberShort(n);
        p.Write(21, PrintNumber(n), true);
      }
    case String(s) => PrintStringInto(s, p);
    case Array(es) => PrintArrayInto(es, depth, fmt, p);
    case Object(ms) => PrintObjectInto(ms, depth, fmt, p);
  }

  /** Print a child and step over it: print_value, then offset = update. */
  method PrintChild(j: Json, depth: nat, fmt: bool, p: PrintBuffer, ghost s: seq<byte>)
    requires p.Valid() && WellFormed(j) && Holds(p.buffer[..], p.offset, s)
    modifies p, p.buffer
    ensures p.Valid() && (p.buffer == old(p.buffer) || fresh(p.buffer))
    ensures Holds(p.buffer[..], p.offset, s + Print(j, depth, fmt))
    decreases Size(j), 2
  {
    ghost var o, t := p.offset, Print(j, depth, fmt);
    PrintInto(j, depth, fmt, p);
    PrintHasNoNul(j, depth, fmt);
    hide Print;
    p.offset := p.Update(RestOfText(p.buffer[..], s, o, p.offset, t));
  }

  /** What is left of a printed text from an offset inside it. */
  ghost function RestOfText(b: seq<byte>, s: seq<byte>, o: nat, o': nat, t: seq<byte>): (r: seq<byte>)
    requires |s| == o <= o' <= o + |t| < |b| && b[..o + |t|] == s + t && b[o + |t|] == NUL && NUL !in t
    ensures TextAt(b, o', r) && NUL !in r && o' + |r| == o + |t|
  {
    assert b[o'..o + |t|] == (s + t)[o'..] == t[o' - o..];
    t[o' - o..]
  }

  /** Write some bytes and step over them. */
  method Append(p: PrintBuffer, needed: nat, bytes: seq<byte>, terminate: bool, ghost s: seq<byte>)
    requires p.Valid() && |bytes| + (if terminate then 1 else 0) <= needed && Holds(p.buffer[..], p.offset, s)
    modifies p, p.buffer
    ensures p.Valid() && (p.buffer == old(p.buffer) || fresh(p.buffer))
    ensures Holds(p.buffer[..], p.offset, s + bytes)
  {
    p.Write(needed, bytes, terminate);
    p.offset := p.offset + |bytes|;
  }

  method PrintArrayInto(es: Elements, depth: nat, fmt: bool, p: PrintBuffer)
    requires p.Valid() && ElementsWellFormed(es)
    modifies p, p.buffer
    ensures p.Valid() && (p.buffer == old(p.buffer) || fresh(p.buffer))
    ensures Printed(old(p.buffer[..]), p.buffer[..], old(p.offset), p.offset, Print(Array(es), depth, fmt))
    decreases Size(Array(es)), 0
  {
    ghost var b, o, t := p.buffer[..], p.offset, Print(Array(es), depth, fmt);
    if es.NoElement? {
      p.Write(3, [OPEN_BRACKET, CLOSE_BRACKET], true);
      return;
    }
    ghost var s := b[..o];
    Append(p, 1, [OPEN_BRACKET], false, s);
    s := s + [OPEN_BRACKET];
    var child := es;
    ghost var all := s + PrintElements(es, depth + 1, fmt);
    hide PrintElements, Print, Holds;
    while child.Element?
      invariant p.Valid() && (p.buffer == old(p.buffer) || fresh(p.buffer))
      invariant ElementsWellFormed(child) && SizeOfElements(child) <= SizeOfElements(es)
      invariant Holds(p.buffer[..], p.offset, s) && s + PrintElements(child, depth + 1, fmt) == all
      decreases child
    {
      ElementStep(s, child, depth + 1, fmt);
      PrintChild(child.value, depth + 1, fmt, p, s);
      s := s + Print(child.value, depth + 1, fmt);
      if child.next.Element? {
        Append(p, if fmt then 3 else 2, Separator(fmt), true, s);
        s := s + Separator(fmt);
      }
      child := child.next;
    }
    p.Write(2, [CLOSE_BRACKET], true);
    ArrayDone(b, p.buffer[..], o, p.offset, es, depth, fmt, s);
  }

  /** The comma between two elements, with a space in formatted text. */
  function Separator(fmt: bool): seq<byte>
  {
    [COMMA] + Layout(fmt, [SPACE])
  }

  lemma ElementStep(s: seq<byte>, child: Elements, depth: nat, fmt: bool)
    requires child.Element?
    ensures s + PrintElements(child, depth, fmt) ==
            s + Print(child.value, depth, fmt) + (if child.next.Element? then Separator(fmt) else [])
            + PrintElements(child.next, depth, fmt)
  {
    hide Print;
  }

  lemma ArrayDone(b: seq<byte>, b': seq<byte>, o: nat, o': nat, es: Elements, depth: nat, fmt: bool, s: seq<byte>)
    requires o <= |b| && s + [] == b[..o] + [OPEN_BRACKET] + PrintElements(es, depth + 1, fmt)
    requires |s| == o' && o' + 1 < |b'| && b'[..o' + 1] == s + [CLOSE_BRACKET] && b'[o' + 1] == NUL
    ensures Printed(b, b', o, o', Print(Array(es), depth, fmt))
  {
    hide PrintElements;
    var e := PrintElements(es, depth + 1, fmt);
    assert b[..o] + [OPEN_BRACKET] + e + [CLOSE_BRACKET] == b[..o] + ([OPEN_BRACKET] + e + [CLOSE_BRACKET]);
  }

  method PrintObjectInto(ms: Members, depth: nat, fmt: bool, p: PrintBuffer)
    requires p.Valid() && MembersWellFormed(ms)
    modifies p, p.buffer
    ensures p.Valid() && (p.buffer == old(p.buffer) || fresh(p.buffer))
    ensures Printed(old(p.buffer[..]), p.buffer[..], old(p.offset), p.offset, Print(Object(ms), depth, fmt))
    decreases Size(Object(ms)), 0
  {
    ghost var b, o, t := p.buffer[..], p.offset, Print(Object(ms), depth, fmt);
    if ms.NoMember? {
      EmptyObject(depth, fmt);
      p.Write(if fmt then depth + 4 else 3, [OPEN_BRACE] + Layout(fmt, [NEWLINE]) + Layout(fmt, Tabs(depth))
          + [CLOSE_BRACE], true);
      return;
    }
    ghost var s := b[..o];
    Append(p, if fmt then 3 else 2, [OPEN_BRACE] + Layout(fmt, [NEWLINE]), true, s);
    s := s + ([OPEN_BRACE] + Layout(fmt, [NEWLINE]));
    hide PrintMembers, Print, Holds;
    PrintMembersInto(ms, depth + 1, fmt, p, s);
    s := s + PrintMembers(ms, depth + 1, fmt);
    WriteEnd(depth, fmt, p, s);
    ObjectDone(b, p.buffer[..], o, p.offset, ms, depth, fmt, s);
  }

  method WriteEnd(depth: nat, fmt: bool, p: PrintBuffer, ghost s: seq<byte>)
    requires p.Valid() && Holds(p.buffer[..], p.offset, s)
    modifies p, p.buffer
    ensures p.Valid() && p.offset == old(p.offset) == |s| && (p.buffer == old(p.buffer) || fresh(p.buffer))
    ensures Wrote(s, p.buffer[..], |s|, Layout(fmt, Tabs(depth)) + [CLOSE_BRACE])
  {
    p.Write(if fmt then depth + 2 else 2, Layout(fmt, Tabs(depth)) + [CLOSE_BRACE], true);
  }

  method PrintMembersInto(ms: Members, depth: nat, fmt: bool, p: PrintBuffer, ghost before: seq<byte>)
    requires p.Valid() && MembersWellFormed(ms) && Holds(p.buffer[..], p.offset, before)
    modifies p, p.buffer
    ensures p.Valid() && (p.buffer == old(p.buffer) || fresh(p.buffer))
    ensures Holds(p.buffer[..], p.offset, before + PrintMembers(ms, depth, fmt))
    decreases SizeOfMembers(ms), 4
  {
    var child := ms;
    ghost var s, all := before, before + PrintMembers(ms, depth, fmt);
    NoMembersPrinted(depth, fmt);
    hide PrintMembers, Print, Holds;
    while child.Member?
      invariant p.Valid() && (p.buffer == old(p.buffer) || fresh(p.buffer))
      invariant MembersWellFormed(child) && SizeOfMembers(child) <= SizeOfMembers(ms)
      invariant Holds(p.buffer[..], p.offset, s) && s + PrintMembers(child, depth, fmt) == all
      decreases child
    {
      MemberStep(s, child, depth, fmt);
      s := PrintMemberInto(child, depth, fmt, p, s);
      child := child.next;
    }
    assert s + [] == s;
  }

  lemma NoMembersPrinted(depth: nat, fmt: bool)
    ensures PrintMembers(NoMember, depth, fmt) == []
  {
  }

  /** The text of one member without the ones after it. */
  function MemberText(m: Members, depth: nat, fmt: bool): seq<byte>
    requires m.Member?
  {
    Layout(fmt, Tabs(depth)) + PrintString(m.key) + ([COLON] + Layout(fmt, [TAB])) + Print(m.value, depth, fmt)
    + ((if m.next.NoMember? then [] else [COMMA]) + Layout(fmt, [NEWLINE]))
  }

  lemma MemberStep(s: seq<byte>, child: Members, depth: nat, fmt: bool)
    requires child.Member?
    ensures s + PrintMembers(child, depth, fmt) == s + MemberText(child, depth, fmt)
        + PrintMembers(child.next, depth, fmt)
  {
    hide Layout, PrintString, Print;
    var rest := PrintMembers(child.next, depth, fmt);
    hide PrintMembers;
    assert MemberText(child, depth, fmt) + rest == Layout(fmt, Tabs(depth)) + MemberBody(child, depth, fmt) by {
      hide PrintMembers;
    }
    assert PrintMembers(child, depth, fmt) == MemberText(child, depth, fmt) + rest by {
      MembersUnfold(child, depth, fmt);
    }
  }

  lemma MembersUnfold(child: Members, depth: nat, fmt: bool)
    requires child.Member?
    ensures PrintMembers(child, depth, fmt) == Layout(fmt, Tabs(depth)) + MemberBody(child, depth, fmt)
  {
  }

  /** One round of the loop over an object's members. */
  method PrintMemberInto(m: Members, depth: nat, fmt: bool, p: PrintBuffer, ghost before: seq<byte>)
      returns (ghost s: seq<byte>)
    requires p.Valid() && m.Member? && NUL !in m.key && WellFormed(m.value) && Holds(p.buffer[..], p.offset, before)
    modifies p, p.buffer
    ensures p.Valid() && (p.buffer == old(p.buffer) || fresh(p.buffer))
    ensures s == before + MemberText(m, depth, fmt) && Holds(p.buffer[..], p.offset, s)
    decreases Size(m.value), 3
  {
    hide Holds, Print, PrintString, Layout;
    s := before;
    if fmt {
      Append(p, depth, Tabs(depth), false, s);
    }
    LayoutEither(fmt, Tabs(depth), s);
    s := s + Layout(fmt, Tabs(depth));
    PrintKey(m.key, p, s);
    s := s + PrintString(m.key);
    LayoutLength(fmt, TAB);
    LayoutLength(fmt, NEWLINE);
    Append(p, if fmt then 2 else 1, [COLON] + Layout(fmt, [TAB]), false, s);
    s := s + ([COLON] + Layout(fmt, [TAB]));
    PrintChild(m.value, depth, fmt, p, s);
    s := s + Print(m.value, depth, fmt);
    var comma: seq<byte> := if m.next.NoMember? then [] else [COMMA];
    Append(p, (if fmt then 1 else 0) + |comma| + 1, comma + Layout(fmt, [NEWLINE]), true, s);
    s := s + (comma + Layout(fmt, [NEWLINE]));
    MemberGrouped(before, m, depth, fmt);
  }

  lemma LayoutEither(fmt: bool, x: seq<byte>, s: seq<byte>)
    ensures fmt ==> Layout(fmt, x) == x
    ensures !fmt ==> s + Layout(fmt, x) == s
  {
  }

  lemma LayoutLength(fmt: bool, b: byte)
    ensures |Layout(fmt, [b])| == if fmt then 1 else 0
  {
  }

  lemma MemberGrouped(s: seq<byte>, m: Members, depth: nat, fmt: bool)
    requires m.Member?
    ensures s + Layout(fmt, Tabs(depth)) + PrintString(m.key) + ([COLON] + Layout(fmt, [TAB]))
        + Print(m.value, depth, fmt)
            + ((if m.next.NoMember? then [] else [COMMA]) + Layout(fmt, [NEWLINE]))
            == s + MemberText(m, depth, fmt)
  {
    hide Layout, PrintString, Print;
  }

  method PrintKey(key: seq<byte>, p: PrintBuffer, ghost s: seq<byte>)
    requires p.Valid() && NUL !in key && Holds(p.buffer[..], p.offset, s)
    modifies p, p.buffer
    ensures p.Valid() && (p.buffer == old(p.buffer) || fresh(p.buffer))
    ensures Holds(p.buffer[..], p.offset, s + PrintString(key))
  {
    ghost var o, t := p.offset, PrintString(key);
    PrintStringInto(key, p);
    EscapeHasNoNul(key);
    hide PrintString;
    p.offset := p.Update(RestOfText(p.buffer[..], s, o, p.offset, t));
  }

  lemma EmptyObject(depth: nat, fmt: bool)
    ensures Print(Object(NoMember), depth, fmt) == [OPEN_BRACE] + Layout(fmt, [NEWLINE]) + Layout(fmt, Tabs(depth))
        + [CLOSE_BRACE]
    ensures |Print(Object(NoMember), depth, fmt)| == if fmt then depth + 3 else 2
  {
    assert PrintMembers(NoMember, depth + 1, fmt) == [];
  }

  lemma ObjectDone(b: seq<byte>, b': seq<byte>, o: nat, o': nat, ms: Members, depth: nat, fmt: bool, s: seq<byte>)
    requires o <= |b| && s == b[..o] + ([OPEN_BRACE] + Layout(fmt, [NEWLINE])) + PrintMembers(ms, depth + 1, fmt)
    requires |s| == o' && Wrote(s, b', o', Layout(fmt, Tabs(depth)) + [CLOSE_BRACE])
    ensures Printed(b, b', o, o', Print(Object(ms), depth, fmt))
  {
    hide PrintMembers, Layout;
    var m, n, end := PrintMembers(ms, depth + 1, fmt), Layout(fmt, [NEWLINE]), Layout(fmt, Tabs(depth));
    assert b[..o] + ([OPEN_BRACE] + n) + m + (end + [CLOSE_BRACE]) == b[..o]
        + ([OPEN_BRACE] + n + m + end + [CLOSE_BRACE]);
  }

  /** cJSON_PrintBuffered: the text of the tree, whatever the initial size of the buffer. */
  method PrintBuffered(j: Json, prebuffer: nat, fmt: bool) returns (out: array<byte>)
    requires WellFormed(j)
    ensures fresh(out) && IsText(out, Print(j, 0, fmt))
  {
    var p := new PrintBuffer(prebuffer);
    PrintInto(j, 0, fmt, p);
    out := p.buffer;
  }
}
