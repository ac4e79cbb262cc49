/**
 Printing by assembling separately allocated pieces (the branches of the cJSON printers without
 a buffer): the pieces' lengths are added up first, and the sum is always enough.
 */
module JsonAssembled {

  import opened Base
  import opened JsonText
  import opened JsonPrint
  import opened JsonBuffered

  /** Append the text of an entry: strlen and memcpy. */
  method CopyEntry(out: array<byte>, at: nat, entry: array<byte>, ghost s: seq<byte>, ghost t: seq<byte>)
      returns (at': nat)
    requires entry != out && IsText(entry, t) && NUL !in t
    requires Holds(out[..], at, s) && at + |t| <= out.Length
    modifies out
    ensures at' == at + |t| && Holds(out[..], at', s + t)
  {
    var n := StrLen(entry, t);
    PutBytes(out, at, entry[..n]);
    at' := at + n;
  }

  method AppendBytes(out: array<byte>, at: nat, bytes: seq<byte>, ghost s: seq<byte>) returns (at': nat)
    requires Holds(out[..], at, s) && at + |bytes| <= out.Length
    modifies out
    ensures at' == at + |bytes| && Holds(out[..], at', s + bytes)
  {
    PutBytes(out, at, bytes);
    at' := at + |bytes|;
  }

  method Literal(bytes: seq<byte>, size: nat) returns (out: array<byte>)
    requires |bytes| < size
    ensures fresh(out) && IsText(out, bytes)
  {
    out := new byte[size];
    PutBytes(out, 0, bytes);
    out[|bytes|] := NUL;
  }

  method PrintStringNew(str: seq<byte>) returns (out: array<byte>)
    requires NUL !in str
    ensures fresh(out) && IsText(out, PrintString(str))
  {
    var flag, len := HasSpecial(str);
    if !flag {
      PlainEscapes(str);
    } else {
      len := EscapedLength(str);
    }
    out := new byte[len + 3];
    WriteString(out, 0, str, flag);
  }

  method PrintNew(j: Json, depth: nat, fmt: bool) returns (out: array<byte>)
    requires WellFormed(j)
    ensures fresh(out) && IsText(out, Print(j, depth, fmt))
    decreases Size(j), 1
  {
    match j
    case Null => out := Literal(NULL_TEXT, 5);
    case False => out := Literal(FALSE_TEXT, 6);
    case True => out := Literal(TRUE_TEXT, 5);
    case Number(n) =>
      if n == 0 {
        out := Literal([ZERO], 2);
      } else {
        NumberShort(n);
        out := Literal(PrintNumber(n), 21);
      }
    case String(s) => out := PrintStringNew(s);
    case Array(es) => out := PrintArrayNew(es, depth, fmt);
    case Object(ms) => out := PrintObjectNew(ms, depth, fmt);
  }

  // ---------------------------------------------------------------------
  // Arrays
  // ---------------------------------------------------------------------

  /** The texts of the elements, and their join with separators. */
  function Texts(es: Elements, depth: nat, fmt: bool): seq<seq<byte>>
  {
    if es.NoElement? then [] else [Print(es.value, depth, fmt)] + Texts(es.next, depth, fmt)
  }

  function Join(ts: seq<seq<byte>>, fmt: bool): seq<byte>
  {
    if |ts| == 0 then [] else if |ts| == 1 then ts[0] else ts[0] + Separator(fmt) + Join(ts[1..], fmt)
  }

  lemma {:induction false} JoinTexts(es: Elements, depth: nat, fmt: bool)
    ensures Join(Texts(es, depth, fmt), fmt) == PrintElements(es, depth, fmt)
    ensures es.Element? <==> |Texts(es, depth, fmt)| > 0
  {
    if es.Element? {
      JoinTexts(es.next, depth, fmt);
      var t, ts := Print(es.value, depth, fmt), Texts(es.next, depth, fmt);
      hide Print;
      assert ([t] + ts)[1..] == ts;
      assert t + [COMMA] + Layout(fmt, [SPACE]) == t + Separator(fmt);
    }
  }

  /** The room that the first pass adds up for the elements. */
  function RoomFor(ts: seq<seq<byte>>, fmt: bool): nat
  {
    if |ts| == 0 then 0 else RoomFor(ts[..|ts| - 1], fmt) + |ts[|ts| - 1]| + 2 + if fmt then 1 else 0
  }

  lemma {:induction false} JoinFits(ts: seq<seq<byte>>, fmt: bool)
    ensures |Join(ts, fmt)| <= RoomFor(ts, fmt)
  {
    if |ts| > 1 {
      JoinFits(ts[1..], fmt);
      RoomFirst(ts, fmt);
    } else if |ts| == 1 {
      assert RoomFor(ts[..0], fmt) == 0;
    }
  }

  lemma {:induction false} RoomFirst(ts: seq<seq<byte>>, fmt: bool)
    requires |ts| > 0
    ensures RoomFor(ts, fmt) == RoomFor(ts[1..], fmt) + |ts[0]| + 2 + if fmt then 1 else 0
  {
    if |ts| > 1 {
      var n := |ts| - 1;
      RoomFirst(ts[..n], fmt);
      assert ts[..n][1..] == ts[1..][..n - 1];
    } else {
      assert ts[..0] == ts[1..] == [];
    }
  }

  /** The entries are separate arrays that hold the texts. */
  ghost predicate AllTexts(entries: seq<array<byte>>, ts: seq<seq<byte>>)
    reads set k | 0 <= k < |entries| :: entries[k]
  {
    |entries| == |ts| && forall k :: 0 <= k < |entries| ==> IsText(entries[k], ts[k]) && NUL !in ts[k]
  }

  /** The first pass over an array: print every element, and add up the room they need. */
  method PrintEntries(es: Elements, depth: nat, fmt: bool) returns (entries: seq<array<byte>>, room: nat)
    requires ElementsWellFormed(es)
    ensures AllTexts(entries, Texts(es, depth, fmt)) && room == RoomFor(Texts(es, depth, fmt), fmt)
    decreases SizeOfElements(es), 2
  {
    entries, room := [], 0;
    var child := es;
    ghost var ts: seq<seq<byte>> := [];
    ghost var all := Texts(es, depth, fmt);
    assert [] + all == all;
    TextsStart(depth, fmt);
    hide Print, AllTexts, RoomFor;
    while child.Element?
      invariant ElementsWellFormed(child) && SizeOfElements(child) <= SizeOfElements(es)
      invariant AllTexts(entries, ts) && room == RoomFor(ts, fmt)
      invariant ts + Texts(child, depth, fmt) == all
      decreases child
    {
      var ret := PrintNew(child.value, depth, fmt);
      ghost var t := Print(child.value, depth, fmt);
      PrintHasNoNul(child.value, depth, fmt);
      var n := StrLen(ret, t);
      TextsAppend(entries, ts, ret, t);
      RoomLast(ts, t, fmt);
      SeqRegroup(ts, [t], Texts(child.next, depth, fmt));
      entries, room := entries + [ret], room + n + 2 + if fmt then 1 else 0;
      ts := ts + [t];
      child := child.next;
    }
    assert ts + [] == ts;
  }

  lemma TextsStart(depth: nat, fmt: bool)
    ensures AllTexts([], []) && RoomFor([], fmt) == 0 && RoomForMembers([], [], depth, fmt) == 0
  {
  }

  lemma RoomLast(ts: seq<seq<byte>>, t: seq<byte>, fmt: bool)
    ensures RoomFor(ts + [t], fmt) == RoomFor(ts, fmt) + |t| + 2 + if fmt then 1 else 0
  {
    assert (ts + [t])[..|ts|] == ts;
  }

  method PrintArrayNew(es: Elements, depth: nat, fmt: bool) returns (out: array<byte>)
    requires ElementsWellFormed(es)
    ensures fresh(out) && IsText(out, Print(Array(es), depth, fmt))
    decreases Size(Array(es)), 0
  {
    if es.NoElement? {
      out := Literal([OPEN_BRACKET, CLOSE_BRACKET], 3);
      return;
    }
    var entries, room := PrintEntries(es, depth + 1, fmt);
    ghost var ts := Texts(es, depth + 1, fmt);
    JoinTexts(es, depth + 1, fmt);
    JoinFits(ts, fmt);
    out := new byte[5 + room];
    var at := AppendBytes(out, 0, [OPEN_BRACKET], []);
    at := JoinEntries(out, at, entries, fmt, [OPEN_BRACKET], ts);
    at := AppendBytes(out, at, [CLOSE_BRACKET], [OPEN_BRACKET] + Join(ts, fmt));
    out[at] := NUL;
  }

  /** The second pass: copy the entries with separators between them. */
  method JoinEntries(out: array<byte>, start: nat, entries: seq<array<byte>>, fmt: bool, ghost before: seq<byte>,
          ghost ts: seq<seq<byte>>)
    returns (at: nat)
    requires out !in entries && AllTexts(entries, ts)
    requires Holds(out[..], start, before) && start + |Join(ts, fmt)| <= out.Length
    modifies out
    ensures at == start + |Join(ts, fmt)| && Holds(out[..], at, before + Join(ts, fmt))
  {
    at := start;
    var i := 0;
    ghost var s, all := before, before + Join(ts, fmt);
    assert ts[0..] == ts;
    while i < |entries|
      invariant 0 <= i <= |entries| && AllTexts(entries, ts)
      invariant Holds(out[..], at, s) && s + Join(ts[i..], fmt) == all && at == |s|
    {
      assert ts[i..][1..] == ts[i + 1..];
      JoinStep(s, ts[i..], fmt);
      at := CopyEntry(out, at, entries[i], s, ts[i]);
      s := s + ts[i];
      if i != |entries| - 1 {
        at := AppendBytes(out, at, Separator(fmt), s);
        s := s + Separator(fmt);
      }
      i := i + 1;
    }
    assert ts[i..] == [];
    assert s + [] == s;
  }

  lemma JoinStep(s: seq<byte>, ts: seq<seq<byte>>, fmt: bool)
    requires |ts| > 0
    ensures s + Join(ts, fmt) == s + ts[0] + (if |ts| > 1 then Separator(fmt) else []) + Join(ts[1..], fmt)
  {
    hide Separator;
  }

  // ---------------------------------------------------------------------
  // Objects
  // ---------------------------------------------------------------------

  function Names(ms: Members): seq<seq<byte>>
  {
    if ms.NoMember? then [] else [PrintString(ms.key)] + Names(ms.next)
  }

  function Values(ms: Members, depth: nat, fmt: bool): (vs: seq<seq<byte>>)
    ensures |vs| == |Names(ms)|
  {
    if ms.NoMember? then [] else [Print(ms.value, depth, fmt)] + Values(ms.next, depth, fmt)
  }

  /** The texts of names and values joined into the members of an object. */
  function JoinMembers(ns: seq<seq<byte>>, vs: seq<seq<byte>>, depth: nat, fmt: bool): seq<byte>
    requires |ns| == |vs|
  {
    if |ns| == 0 then []
    else
      Layout(fmt, Tabs(depth)) + ns[0] + ([COLON] + Layout(fmt, [TAB])) + vs[0] + MemberEnd(|ns| == 1, fmt)
      + JoinMembers(ns[1..], vs[1..], depth, fmt)
  }

  function MemberEnd(last: bool, fmt: bool): seq<byte>
  {
    (if last then [] else [COMMA]) + Layout(fmt, [NEWLINE])
  }

  lemma {:induction false} JoinMemberTexts(ms: Members, depth: nat, fmt: bool)
    ensures JoinMembers(Names(ms), Values(ms, depth, fmt), depth, fmt) == PrintMembers(ms, depth, fmt)
    ensures ms.Member? <==> |Names(ms)| > 0
  {
    if ms.Member? {
      JoinMemberTexts(ms.next, depth, fmt);
      var n, v, ns, vs := PrintString(ms.key), Print(ms.value, depth, fmt), Names(ms.next), Values(ms.next, depth, fmt);
      assert ([n] + ns)[1..] == ns && ([v] + vs)[1..] == vs;
      hide Print, PrintString, PrintMembers, Layout, JoinMembers;
      assert |[n] + ns| == 1 <==> ms.next.NoMember?;
      JoinMembersStep([], [n] + ns, [v] + vs, depth, fmt);
      MemberStep([], ms, depth, fmt);
      Nothing(JoinMembers([n] + ns, [v] + vs, depth, fmt));
      Nothing(PrintMembers(ms, depth, fmt));
    }
  }

  lemma Nothing(s: seq<byte>)
    ensures [] + s == s
  {
  }

  /** The room that the first pass adds up for the members. */
  function RoomForMembers(ns: seq<seq<byte>>, vs: seq<seq<byte>>, depth: nat, fmt: bool): nat
    requires |ns| == |vs|
  {
    if |ns| == 0 then 0
    else
      var k := |ns| - 1;
      RoomForMembers(ns[..k], vs[..k], depth, fmt) + |vs[k]| + |ns[k]| + 2 + if fmt then 2 + depth else 0
  }

  lemma {:induction false} RoomFirstMember(ns: seq<seq<byte>>, vs: seq<seq<byte>>, depth: nat, fmt: bool)
    requires |ns| == |vs| > 0
    ensures RoomForMembers(ns, vs, depth, fmt)
            == RoomForMembers(ns[1..], vs[1..], depth, fmt) + |vs[0]| + |ns[0]| + 2 + if fmt then 2 + depth else 0
  {
    if |ns| > 1 {
      var k := |ns| - 1;
      RoomFirstMember(ns[..k], vs[..k], depth, fmt);
      assert ns[..k][1..] == ns[1..][..k - 1] && vs[..k][1..] == vs[1..][..k - 1];
    } else {
      assert ns[..0] == ns[1..] == vs[1..] == vs[..0] == [];
    }
  }

  lemma {:induction false} JoinMembersFit(ns: seq<seq<byte>>, vs: seq<seq<byte>>, depth: nat, fmt: bool)
    requires |ns| == |vs|
    ensures |JoinMembers(ns, vs, depth, fmt)| <= RoomForMembers(ns, vs, depth, fmt)
  {
    if |ns| > 0 {
      JoinMembersFit(ns[1..], vs[1..], depth, fmt);
      RoomFirstMember(ns, vs, depth, fmt);
    }
  }

  /** The first pass over an object: print every name and value, and add up the room they need. */
  method PrintMemberEntries(ms: Members, depth: nat, fmt: bool)
      returns (names: seq<array<byte>>, entries: seq<array<byte>>, room: nat)
    requires MembersWellFormed(ms)
    ensures AllTexts(names, Names(ms)) && AllTexts(entries, Values(ms, depth, fmt))
    ensures room == RoomForMembers(Names(ms), Values(ms, depth, fmt), depth, fmt)
    decreases SizeOfMembers(ms), 2
  {
    names, entries, room := [], [], 0;
    var child := ms;
    ghost var ns: seq<seq<byte>>, vs: seq<seq<byte>> := [], [];
    ghost var allNames, allValues := Names(ms), Values(ms, depth, fmt);
    assert [] + allNames == allNames && [] + allValues == allValues;
    TextsStart(depth, fmt);
    hide Print, PrintString, RoomForMembers, AllTexts, IsText, Names, Values;
    while child.Member?
      invariant MembersWellFormed(child) && SizeOfMembers(child) <= SizeOfMembers(ms)
      invariant AllTexts(names, ns) && AllTexts(entries, vs) && |ns| == |vs|
          && room == RoomForMembers(ns, vs, depth, fmt)
      invariant ns + Names(child) == allNames && vs + Values(child, depth, fmt) == allValues
      decreases child
    {
      var str, ret, n := PrintMemberEntry(child, depth, fmt);
      ghost var s, t := PrintString(child.key), Print(child.value, depth, fmt);
      TextsAppend(names, ns, str, s);
      TextsAppend(entries, vs, ret, t);
      RoomAppend(ns, vs, s, t, depth, fmt);
      NamesStep(ns, vs, child, depth, fmt);
      names, entries, room := names + [str], entries + [ret], room + n + 2 + if fmt then 2 + depth else 0;
      ns, vs := ns + [s], vs + [t];
      child := child.next;
    }
    NamesEnd(ns, vs, depth, fmt);
  }

  lemma NamesStep(ns: seq<seq<byte>>, vs: seq<seq<byte>>, child: Members, depth: nat, fmt: bool)
    requires child.Member?
    ensures ns + Names(child) == ns + [PrintString(child.key)] + Names(child.next)
    ensures vs + Values(child, depth, fmt) == vs + [Print(child.value, depth, fmt)] + Values(child.next, depth, fmt)
  {
    hide Print, PrintString;
  }

  lemma NamesEnd(ns: seq<seq<byte>>, vs: seq<seq<byte>>, depth: nat, fmt: bool)
    ensures ns + Names(NoMember) == ns && vs + Values(NoMember, depth, fmt) == vs
  {
  }

  method PrintMemberEntry(m: Members, depth: nat, fmt: bool) returns (str: array<byte>, ret: array<byte>, n: nat)
    requires m.Member? && NUL !in m.key && WellFormed(m.value)
    ensures fresh(str) && fresh(ret)
    ensures IsText(str, PrintString(m.key)) && NUL !in PrintString(m.key)
    ensures IsText(ret, Print(m.value, depth, fmt)) && NUL !in Print(m.value, depth, fmt)
    ensures n == |Print(m.value, depth, fmt)| + |PrintString(m.key)|
    decreases Size(m.value), 3
  {
    str := PrintStringNew(m.key);
    ret := PrintNew(m.value, depth, fmt);
    NameHasNoNul(m.key);
    PrintHasNoNul(m.value, depth, fmt);
    n := StrLen(ret, Print(m.value, depth, fmt));
    var k := StrLen(str, PrintString(m.key));
    n := n + k;
  }

  lemma TextsAppend(entries: seq<array<byte>>, ts: seq<seq<byte>>, e: array<byte>, t: seq<byte>)
    requires AllTexts(entries, ts) && IsText(e, t) && NUL !in t
    ensures AllTexts(entries + [e], ts + [t])
  {
  }

  lemma SeqRegroup(x: seq<seq<byte>>, y: seq<seq<byte>>, z: seq<seq<byte>>)
    ensures x + y + z == x + (y + z)
  {
  }

  lemma NameHasNoNul(key: seq<byte>)
    requires NUL !in key
    ensures NUL !in PrintString(key)
  {
    EscapeHasNoNul(key);
  }

  lemma RoomAppend(ns: seq<seq<byte>>, vs: seq<seq<byte>>, s: seq<byte>, t: seq<byte>, depth: nat, fmt: bool)
    requires |ns| == |vs|
    ensures RoomForMembers(ns + [s], vs + [t], depth, fmt)
            == RoomForMembers(ns, vs, depth, fmt) + |t| + |s| + 2 + if fmt then 2 + depth else 0
  {
    assert (ns + [s])[..|ns|] == ns && (vs + [t])[..|ns|] == vs;
  }

  method PrintObjectNew(ms: Members, depth: nat, fmt: bool) returns (out: array<byte>)
    requires MembersWellFormed(ms)
    ensures fresh(out) && IsText(out, Print(Object(ms), depth, fmt))
    decreases Size(Object(ms)), 0
  {
    hide Print, PrintMembers, JoinMembers, RoomForMembers, AllTexts, IsText, Names, Values, MembersWellFormed;
    if ms.NoMember? {
      EmptyObject(depth, fmt);
      out := Literal([OPEN_BRACE] + Layout(fmt, [NEWLINE]) + Layout(fmt, Tabs(depth)) + [CLOSE_BRACE], if fmt
          then depth + 4 else 3);
      return;
    }
    var names, entries, room := PrintMemberEntries(ms, depth + 1, fmt);
    ghost var ns, vs := Names(ms), Values(ms, depth + 1, fmt);
    JoinMemberTexts(ms, depth + 1, fmt);
    JoinMembersFit(ns, vs, depth + 1, fmt);
    out := new byte[7 + (if fmt then depth + 1 else 0) + room];
    FillObject(out, names, entries, ms, depth, fmt, ns, vs);
  }

  method FillObject(out: array<byte>, names: seq<array<byte>>, entries: seq<array<byte>>, ms: Members, depth: nat,
          fmt: bool, ghost ns: seq<seq<byte>>, ghost vs: seq<seq<byte>>)
    requires out !in names && out !in entries && |ns| == |vs| && AllTexts(names, ns) && AllTexts(entries, vs)
    requires JoinMembers(ns, vs, depth + 1, fmt) == PrintMembers(ms, depth + 1, fmt)
    requires |JoinMembers(ns, vs, depth + 1, fmt)| + 7 + (if fmt then depth + 1 else 0) <= out.Length
    modifies out
    ensures IsText(out, Print(Object(ms), depth, fmt))
  {
    ghost var open := [OPEN_BRACE] + Layout(fmt, [NEWLINE]);
    ghost var all := JoinMembers(ns, vs, depth + 1, fmt);
    ObjectAssembled(ms, depth, fmt);
    HoldsNothing(out[..]);
    hide JoinMembers, AllTexts, PrintMembers, Holds, Layout, Print;
    var at := AppendBytes(out, 0, [OPEN_BRACE] + Layout(fmt, [NEWLINE]), []);
    at := JoinMemberEntries(out, at, names, entries, depth + 1, fmt, open, ns, vs);
    at := AppendBytes(out, at, Layout(fmt, Tabs(depth)) + [CLOSE_BRACE], open + all);
    Terminate(out, at, open + all + (Layout(fmt, Tabs(depth)) + [CLOSE_BRACE]));
  }

  lemma HoldsNothing(b: seq<byte>)
    ensures Holds(b, 0, [])
  {
  }

  method Terminate(out: array<byte>, at: nat, ghost s: seq<byte>)
    requires at < out.Length && Holds(out[..], at, s)
    modifies out
    ensures IsText(out, s)
  {
    assert |s| == at;
    out[at] := NUL;
  }

  lemma ObjectAssembled(ms: Members, depth: nat, fmt: bool)
    ensures [OPEN_BRACE] + Layout(fmt, [NEWLINE]) + PrintMembers(ms, depth + 1, fmt)
        + (Layout(fmt, Tabs(depth)) + [CLOSE_BRACE])
            == Print(Object(ms), depth, fmt)
    ensures |[OPEN_BRACE] + Layout(fmt, [NEWLINE])| == if fmt then 2 else 1
    ensures |Layout(fmt, Tabs(depth)) + [CLOSE_BRACE]| == if fmt then depth + 1 else 1
    ensures [] + ([OPEN_BRACE] + Layout(fmt, [NEWLINE])) == [OPEN_BRACE] + Layout(fmt, [NEWLINE])
  {
    hide PrintMembers;
  }

  /** The second pass: indentation, name, colon, value, comma and newline for every member. */
  method JoinMemberEntries(out: array<byte>, start: nat, names: seq<array<byte>>, entries: seq<array<byte>>, depth: nat,
          fmt: bool,
          ghost before: seq<byte>, ghost ns: seq<seq<byte>>, ghost vs: seq<seq<byte>>)
    returns (at: nat)
    requires out !in names && out !in entries && |ns| == |vs| && AllTexts(names, ns) && AllTexts(entries, vs)
    requires Holds(out[..], start, before) && start + |JoinMembers(ns, vs, depth, fmt)| <= out.Length
    modifies out
    ensures at == start + |JoinMembers(ns, vs, depth, fmt)|
    ensures Holds(out[..], at, before + JoinMembers(ns, vs, depth, fmt))
  {
    at := start;
    var i := 0;
    ghost var s, all := before, before + JoinMembers(ns, vs, depth, fmt);
    assert ns[0..] == ns && vs[0..] == vs;
    hide JoinMembers, Layout, MemberEnd;
    while i < |entries|
      invariant 0 <= i <= |entries| && AllTexts(names, ns) && AllTexts(entries, vs)
      invariant Holds(out[..], at, s) && at == |s| && s + JoinMembers(ns[i..], vs[i..], depth, fmt) == all
    {
      assert ns[i..][1..] == ns[i + 1..] && vs[i..][1..] == vs[i + 1..];
      JoinMembersStep(s, ns[i..], vs[i..], depth, fmt);
      at, s := JoinMember(out, at, names[i], entries[i], i == |entries| - 1, depth, fmt, s, ns[i], vs[i]);
      i := i + 1;
    }
    JoinMembersEmpty(ns[i..], vs[i..], depth, fmt);
    assert s + [] == s;
  }

  lemma JoinMembersEmpty(ns: seq<seq<byte>>, vs: seq<seq<byte>>, depth: nat, fmt: bool)
    requires |ns| == |vs| == 0
    ensures JoinMembers(ns, vs, depth, fmt) == []
  {
  }

  function JoinedMember(n: seq<byte>, v: seq<byte>, last: bool, depth: nat, fmt: bool): seq<byte>
  {
    Layout(fmt, Tabs(depth)) + n + ([COLON] + Layout(fmt, [TAB])) + v + MemberEnd(last, fmt)
  }

  lemma JoinMembersStep(s: seq<byte>, ns: seq<seq<byte>>, vs: seq<seq<byte>>, depth: nat, fmt: bool)
    requires |ns| == |vs| > 0
    ensures s + JoinMembers(ns, vs, depth, fmt)
            == s + JoinedMember(ns[0], vs[0], |ns| == 1, depth, fmt) + JoinMembers(ns[1..], vs[1..], depth, fmt)
  {
    hide Layout, MemberEnd;
  }

  method JoinMember(out: array<byte>, start: nat, name: array<byte>, entry: array<byte>, last: bool, depth: nat,
          fmt: bool, ghost before: seq<byte>, ghost n: seq<byte>, ghost v: seq<byte>)
    returns (at: nat, ghost s: seq<byte>)
    requires name != out && entry != out && IsText(name, n) && IsText(entry, v) && NUL !in n && NUL !in v
    requires Holds(out[..], start, before) && start + |JoinedMember(n, v, last, depth, fmt)| <= out.Length
    modifies out
    ensures s == before + JoinedMember(n, v, last, depth, fmt) && at == start + |JoinedMember(n, v, last, depth, fmt)|
    ensures Holds(out[..], at, s)
  {
    hide Holds, Layout, MemberEnd;
    s := before;
    at := AppendBytes(out, start, Layout(fmt, Tabs(depth)), s);
    s := s + Layout(fmt, Tabs(depth));
    at := CopyEntry(out, at, name, s, n);
    s := s + n;
    at := AppendBytes(out, at, [COLON] + Layout(fmt, [TAB]), s);
    s := s + ([COLON] + Layout(fmt, [TAB]));
    at := CopyEntry(out, at, entry, s, v);
    s := s + v;
    at := AppendBytes(out, at, MemberEnd(last, fmt), s);
    s := s + MemberEnd(last, fmt);
    JoinedGrouped(before, n, v, last, depth, fmt);
  }

  lemma JoinedGrouped(s: seq<byte>, n: seq<byte>, v: seq<byte>, last: bool, depth: nat, fmt: bool)
    ensures s + Layout(fmt, Tabs(depth)) + n + ([COLON] + Layout(fmt, [TAB])) + v + MemberEnd(last, fmt)
            == s + JoinedMember(n, v, last, depth, fmt)
  {
    hide Layout, MemberEnd;
  }

  // ---------------------------------------------------------------------
  // The two printers agree
  // ---------------------------------------------------------------------

  /** cJSON_Print, cJSON_PrintUnformatted */
  method PrintAssembled(j: Json, fmt: bool) returns (out: array<byte>)
    requires WellFormed(j)
    ensures fresh(out) && IsText(out, Print(j, 0, fmt))
  {
    out := PrintNew(j, 0, fmt);
  }

  /** A text is what a C string comparison sees: two arrays that hold the same text compare equal. */
  method PrintersAgree(j: Json, fmt: bool, prebuffer: nat) returns (n: nat, same: bool)
    requires WellFormed(j)
    ensures same && n == |Print(j, 0, fmt)|
  {
    var a := PrintAssembled(j, fmt);
    var b := PrintBuffered(j, prebuffer, fmt);
    ghost var t := Print(j, 0, fmt);
    PrintHasNoNul(j, 0, fmt);
    n := StrLen(a, t);
    var m := StrLen(b, t);
    same := n == m && a[..n] == b[..m];
  }
}
