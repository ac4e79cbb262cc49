/**
 The two printers of cJSON: one assembles freshly allocated pieces, the other writes into one
 buffer that grows. Both produce the text `Print`, and neither writes outside its allocations.

 A C string is an array that holds its bytes followed by a NUL; allocations do not fail.
 */
module JsonPrint {

  import opened Base
  import opened JsonText
  import opened Bits

  /** The array starts with the text s and a NUL. */
  ghost predicate IsText(a: array<byte>, s: seq<byte>)
    reads a
  {
    TextAt(a[..], 0, s)
  }

  /** The text s and a NUL stand at position i. */
  ghost predicate TextAt(b: seq<byte>, i: nat, s: seq<byte>)
  {
    i + |s| < |b| && b[i..i + |s|] == s && b[i + |s|] == NUL
  }

  /** Printed text contains no NUL, so its end can be found. */
  lemma {:induction false} PrintHasNoNul(j: Json, depth: nat, fmt: bool)
    requires WellFormed(j)
    ensures NUL !in Print(j, depth, fmt)
    decreases j, 2
  {
    hide PrintElements, PrintMembers, Decimal, EscapeAll;
    match j
    case Number(n) => DecimalHasNoNul(if n < 0 then -n else n);
    case String(s) => EscapeHasNoNul(s);
    case Array(es) => ElementsHaveNoNul(es, depth + 1, fmt);
    case Object(ms) => MembersHaveNoNul(ms, depth + 1, fmt);
    case _ =>
  }

  lemma {:induction false} DecimalHasNoNul(n: nat)
    ensures NUL !in Decimal(n)
  {
    if n >= 10 {
      DecimalHasNoNul(n / 10);
    }
  }

  lemma {:induction false} EscapeHasNoNul(s: seq<byte>)
    requires NUL !in s
    ensures NUL !in EscapeAll(s)
  {
    if |s| > 0 {
      EscapeHasNoNul(s[1..]);
      assert NUL !in Escape(s[0]);
    }
  }

  lemma {:induction false} ElementsHaveNoNul(es: Elements, depth: nat, fmt: bool)
    requires ElementsWellFormed(es)
    ensures NUL !in PrintElements(es, depth, fmt)
    decreases es, 1
  {
    if es.Element? {
      PrintHasNoNul(es.value, depth, fmt);
      ElementsHaveNoNul(es.next, depth, fmt);
      hide Print;
    }
  }

  lemma {:induction false} MembersHaveNoNul(ms: Members, depth: nat, fmt: bool)
    requires MembersWellFormed(ms)
    ensures NUL !in PrintMembers(ms, depth, fmt)
    decreases ms, 1
  {
    if ms.Member? {
      EscapeHasNoNul(ms.key);
      PrintHasNoNul(ms.value, depth, fmt);
      MembersHaveNoNul(ms.next, depth, fmt);
      hide Print, EscapeAll;
    }
  }

  // ---------------------------------------------------------------------
  // Writing a string
  // ---------------------------------------------------------------------

  /** A byte of a C string, which ends in a NUL. */
  function ByteAt(s: seq<byte>, i: nat): byte
    requires i <= |s|
  {
    if i < |s| then s[i] else NUL
  }

  /** b' is b with the text t and a NUL written at `at`, as far as the end of the text. */
  ghost predicate Wrote(b: seq<byte>, b': seq<byte>, at: nat, t: seq<byte>)
  {
    at <= |b| && at + |t| < |b'| && b'[..at + |t|] == b[..at] + t && b'[at + |t|] == NUL
  }

  method PutBytes(out: array<byte>, at: nat, bytes: seq<byte>)
    requires at + |bytes| <= out.Length
    modifies out
    ensures out[..at + |bytes|] == old(out[..at]) + bytes
  {
    var i := 0;
    while i < |bytes|
      invariant 0 <= i <= |bytes| && out[..at + i] == old(out[..at]) + bytes[..i]
    {
      out[at + i] := bytes[i];
      i := i + 1;
    }
  }

  predicate Special(b: byte)
  {
    (0 < b < 32) || b == QUOTE || b == BACKSLASH
  }

  method HasSpecial(str: seq<byte>) returns (flag: bool, len: nat)
    requires NUL !in str
    ensures flag <==> exists i :: 0 <= i < |str| && Special(str[i])
    ensures len == |str|
  {
    flag, len := false, 0;
    while ByteAt(str, len) != NUL
      invariant 0 <= len <= |str|
      invariant flag <==> exists i :: 0 <= i < len && Special(str[i])
      decreases |str| - len
    {
      flag := flag || Special(str[len]);
      len := len + 1;
    }
  }

  lemma {:induction false} PlainEscapes(s: seq<byte>)
    requires NUL !in s && forall i :: 0 <= i < |s| ==> !Special(s[i])
    ensures EscapeAll(s) == s
  {
    if |s| > 0 {
      PlainEscapes(s[1..]);
      assert s == [s[0]] + s[1..];
    }
  }

  /** The second pass of print_string_ptr: one byte for each character, and what its escape adds. */
  method EscapedLength(str: seq<byte>) returns (len: nat)
    requires NUL !in str
    ensures len == |EscapeAll(str)|
  {
    len := 0;
    var ptr := 0;
    assert str[0..] == str;
    while ByteAt(str, ptr) != NUL
      invariant 0 <= ptr <= |str| && len + |EscapeAll(str[ptr..])| == |EscapeAll(str)|
      decreases |str| - ptr
    {
      var token := str[ptr];
      assert str[ptr..][1..] == str[ptr + 1..];
      len := len + 1;
      if token == QUOTE || token == BACKSLASH || token == BACKSPACE || token == FORMFEED
         || token == NEWLINE || token == RETURN || token == TAB {
        len := len + 1;
      } else if token < 32 {
        len := len + 5;
      }
      ptr := ptr + 1;
    }
  }

  method WriteEscapes(out: array<byte>, start: nat, str: seq<byte>) returns (at: nat)
    requires NUL !in str && start + |EscapeAll(str)| <= out.Length
    modifies out
    ensures at == start + |EscapeAll(str)| && out[..at] == old(out[..start]) + EscapeAll(str)
  {
    at := start;
    var ptr := 0;
    ghost var all := old(out[..start]) + EscapeAll(str);
    assert str[0..] == str;
    while ByteAt(str, ptr) != NUL
      invariant 0 <= ptr <= |str| && at + |EscapeAll(str[ptr..])| == start + |EscapeAll(str)|
      invariant out[..at] + EscapeAll(str[ptr..]) == all
      decreases |str| - ptr
    {
      ghost var before := out[..at];
      assert str[ptr..][1..] == str[ptr + 1..];
      BlankRegroup(before, Escape(str[ptr]), EscapeAll(str[ptr + 1..]));
      hide EscapeAll;
      at := WriteEscape(out, at, str[ptr]);
      ptr := ptr + 1;
    }
  }

  /** The body of the writing loop: a byte as it is, or its escape. */
  method WriteEscape(out: array<byte>, start: nat, token: byte) returns (at: nat)
    requires token != NUL && start + |Escape(token)| <= out.Length
    modifies out
    ensures at == start + |Escape(token)| && out[..at] == old(out[..start]) + Escape(token)
  {
    if token > 31 && token != QUOTE && token != BACKSLASH {
      out[start] := token;
      at := start + 1;
    } else {
      at := WriteCode(out, start, token);
    }
  }

  /** A backslash and what stands for the byte. */
  method WriteCode(out: array<byte>, start: nat, token: byte) returns (at: nat)
    requires token != NUL && start + |Escape(token)| <= out.Length
        && (token <= 31 || token == QUOTE || token == BACKSLASH)
    modifies out
    ensures at == start + |Escape(token)| && out[..at] == old(out[..start]) + Escape(token)
  {
    at := start;
    out[at] := BACKSLASH;
    at := at + 1;
    match token {
      case 92 => out[at] := BACKSLASH;
      case 34 => out[at] := QUOTE;
      case 8 => out[at] := LETTER_B;
      case 12 => out[at] := LETTER_F;
      case 10 => out[at] := LETTER_N;
      case 13 => out[at] := LETTER_R;
      case 9 => out[at] := LETTER_T;
      case _ =>
        PutBytes(out, at, [LETTER_U, ZERO, ZERO, HexDigit(token / 16), HexDigit(token % 16)]);
        at := at + 4;
    }
    at := at + 1;
  }

  /** The two ways to write a quoted string; `flag` says whether it needs escapes. */
  method WriteString(out: array<byte>, start: nat, str: seq<byte>, flag: bool)
    requires NUL !in str && start + |EscapeAll(str)| + 3 <= out.Length
    requires !flag ==> EscapeAll(str) == str
    modifies out
    ensures Wrote(old(out[..]), out[..], start, PrintString(str))
  {
    ghost var b := out[..];
    ghost var pre := b[..start];
    assert pre == out[..start];
    PutBytes(out, start, [QUOTE]);
    var at := start + 1;
    if flag {
      at := WriteEscapes(out, at, str);
    } else {
      PutBytes(out, at, str);
      at := at + |str|;
    }
    PutBytes(out, at, [QUOTE]);
    QuotedText(pre, EscapeAll(str));
    out[at + 1] := NUL;
    assert out[..at + 1] == pre + PrintString(str);
  }

  lemma QuotedText(pre: seq<byte>, e: seq<byte>)
    ensures pre + [QUOTE] + e + [QUOTE] == pre + ([QUOTE] + e + [QUOTE])
  {
  }

  // ---------------------------------------------------------------------
  // The growing buffer
  // ---------------------------------------------------------------------

  lemma TextBytes(b: seq<byte>, i: nat, t: seq<byte>)
    requires TextAt(b, i, t) && NUL !in t
    ensures i + |t| < |b| && b[i + |t|] == NUL && forall k :: i <= k < i + |t| ==> b[k] != NUL
  {
    forall k | i <= k < i + |t| ensures b[k] != NUL {
      assert b[i..i + |t|][k - i] == b[k];
    }
  }

  method StrLen(a: array<byte>, ghost t: seq<byte>) returns (n: nat)
    requires IsText(a, t) && NUL !in t
    ensures n == |t|
  {
    TextBytes(a[..], 0, t);
    n := 0;
    while a[n] != NUL
      invariant n <= |t| < a.Length
      decreases |t| - n
    {
      n := n + 1;
    }
  }

  class PrintBuffer {
    var buffer: array<byte>
    var offset: nat

    ghost predicate Valid()
      reads this
    {
      offset <= buffer.Length
    }

    constructor (prebuffer: nat)
      ensures Valid() && offset == 0 && fresh(buffer) && buffer.Length == prebuffer
    {
      buffer := new byte[prebuffer];
      offset := 0;
    }

    /** Make room for `needed` bytes at the offset; whatever the buffer held stays where it was. */
    method Ensure(needed: nat)
      requires Valid()
      modifies this
      ensures Valid() && offset == old(offset) && offset + needed <= buffer.Length
      ensures buffer == old(buffer) || (fresh(buffer) && offset + needed > 0
          && buffer.Length == Pow2Gt(offset + needed))
      ensures old(buffer.Length) <= buffer.Length && buffer[..old(buffer.Length)] == old(buffer[..])
    {
      var total := needed + offset;
      if total <= buffer.Length {
        return;
      }
      Pow2GtAtLeast(total);
      var newsize := Pow2Gt(total);
      var newbuffer := new byte[newsize];
      PutBytes(newbuffer, 0, buffer[..]);
      assert newbuffer[..buffer.Length] == buffer[..];
      buffer := newbuffer;
    }

    /** The offset behind the text that was written at the current one. */
    method Update(ghost t: seq<byte>) returns (at: nat)
      requires Valid() && TextAt(buffer[..], offset, t) && NUL !in t
      ensures at == offset + |t|
    {
      TextBytes(buffer[..], offset, t);
      at := offset;
      while buffer[at] != NUL
        invariant offset <= at <= offset + |t| < buffer.Length
        decreases offset + |t| - at
      {
        at := at + 1;
      }
    }

    /** Write some bytes at the offset, in room that was ensured for them. */
    method Write(needed: nat, bytes: seq<byte>, terminate: bool)
      requires Valid() && |bytes| + (if terminate then 1 else 0) <= needed
      modifies this, buffer
      ensures Valid() && offset == old(offset) && (buffer == old(buffer) || fresh(buffer))
      ensures offset + |bytes| <= buffer.Length && buffer[..offset + |bytes|] == old(buffer[..offset]) + bytes
      ensures terminate ==> Wrote(old(buffer[..]), buffer[..], offset, bytes)
    {
      ghost var b := buffer[..];
      Ensure(needed);
      assert buffer[..offset] == b[..offset];
      PutBytes(buffer, offset, bytes);
      if terminate {
        buffer[offset + |bytes|] := NUL;
      }
    }
  }
}
