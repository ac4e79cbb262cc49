/**
 The reply protocol as a recursive grammar over byte strings.

 `ParseItem` says what one reply is, and `Stream` cuts a byte string into replies. Neither
 knows about fragments, cursors or stacks; the reader is proved against them.
 */
module RedisProtocol {

  import opened Base

  const CR: byte := 13
  const LF: byte := 10
  const MINUS: byte := 45
  const PLUS: byte := 43
  const COLON: byte := 58
  const DOLLAR: byte := 36
  const STAR: byte := 42
  const ZERO: byte := 48

  const LLONG_MAX: int := 0x7fff_ffff_ffff_ffff
  const INT_MAX: int := 0x7fff_ffff

  /** The stack has room for tasks 0 to 8. */
  const MAX_LEVEL: nat := 8

  datatype ReplyType = TError | TStatus | TInteger | TString | TArray

  datatype Reply =
    | Text(kind: ReplyType, str: seq<byte>)   // kind is TError, TStatus or TString
    | Integer(value: int)
    | Nil
    | Array(elements: seq<Reply>)

  /** BadNumber: a number that the source reads with undefined behaviour, or an array it cannot allocate. */
  datatype Error = BadType(byte: byte) | TooDeep | BadNumber

  datatype Parsed = Item(reply: Reply, rest: seq<byte>) | NeedMore | Fail(error: Error)

  // ---------------------------------------------------------------------
  // Lines and numbers
  // ---------------------------------------------------------------------

  predicate NewlineAt(s: seq<byte>, i: nat)
  {
    i + 1 < |s| && s[i] == CR && s[i + 1] == LF
  }

  /** The first position of CR LF. */
  function FindNewline(s: seq<byte>): (r: Option<nat>)
    ensures r.Some? ==> NewlineAt(s, r.value) && forall i :: 0 <= i < r.value ==> !NewlineAt(s, i)
    ensures r.None? ==> forall i :: 0 <= i < |s| ==> !NewlineAt(s, i)
  {
    if |s| < 2 then None
    else if s[0] == CR && s[1] == LF then Some(0)
    else
      assert forall i :: 0 < i < |s| ==> (NewlineAt(s, i) <==> NewlineAt(s[1..], i - 1));
      match FindNewline(s[1..])
      case None => None
      case Some(i) => Some(i + 1)
  }

  /** What follows a found newline does not move it. */
  lemma NewlineStable(s: seq<byte>, i: nat, u: seq<byte>)
    requires FindNewline(s) == Some(i)
    ensures i + 2 <= |s| && FindNewline(s[..i + 2] + u) == Some(i)
  {
    var t := s[..i + 2] + u;
    assert NewlineAt(t, i);
    forall j | 0 <= j < i ensures !NewlineAt(t, j) {
      assert !NewlineAt(s, j);
    }
  }

  datatype Number = Value(v: int) | Garbage | Overflow

  /** The digits up to the first CR; a digit that would exceed a long long overflows. */
  function ReadDigits(s: seq<byte>, v: int): Number
  {
    if |s| == 0 || s[0] == CR then Value(v)
    else
      var digit := s[0] - ZERO;
      if !(0 <= digit < 10) then Garbage
      else if v * 10 + digit > LLONG_MAX then Overflow
      else ReadDigits(s[1..], v * 10 + digit)
  }

  /** The number at the start of a line; anything that is not a number reads as -1. */
  function ReadNumber(line: seq<byte>): Option<int>
  {
    var negative := |line| > 0 && line[0] == MINUS;
    var signed := negative || (|line| > 0 && line[0] == PLUS);
    match ReadDigits(if signed then line[1..] else line, 0)
    case Value(v) => Some(if negative then -v else v)
    case Garbage => Some(-1)
    case Overflow => None
  }

  // ---------------------------------------------------------------------
  // Replies
  // ---------------------------------------------------------------------

  function TypeOf(b: byte): Option<ReplyType>
  {
    if b == MINUS then Some(TError)
    else if b == PLUS then Some(TStatus)
    else if b == COLON then Some(TInteger)
    else if b == DOLLAR then Some(TString)
    else if b == STAR then Some(TArray)
    else None
  }

  function LineReply(ty: ReplyType, line: seq<byte>): Option<Reply>
  {
    if ty != TInteger then Some(Text(ty, line))
    else
      match ReadNumber(line)
      case None => None
      case Some(v) => Some(Integer(v))
  }

  /** A string item, after its type byte. */
  function ParseBulk(u: seq<byte>): (p: Parsed)
    ensures p.Item? ==> |p.rest| < |u|
  {
    match FindNewline(u)
    case None => NeedMore
    case Some(i) =>
      match ReadNumber(u[..i])
      case None => Fail(BadNumber)
      case Some(n) =>
        if n < 0 then Item(Nil, u[i + 2..])
        else if i + 2 + n + 2 <= |u| then Item(Text(TString, u[i + 2..i + 2 + n]), u[i + 2 + n + 2..])
        else NeedMore
  }

  /** The rest of a reply whose type byte has been read; `level` is its nesting depth. */
  function ParseTyped(ty: ReplyType, u: seq<byte>, level: nat): (p: Parsed)
    requires level <= MAX_LEVEL
    ensures p.Item? ==> |p.rest| < |u|
    decreases MAX_LEVEL - level, 0
  {
    if ty == TString then ParseBulk(u)
    else if ty == TArray && level == MAX_LEVEL then Fail(TooDeep)
    else
      match FindNewline(u)
      case None => NeedMore
      case Some(i) =>
        var line, rest := u[..i], u[i + 2..];
        if ty == TArray then
          match ReadNumber(line)
          case None => Fail(BadNumber)
          case Some(n) =>
            if n == -1 then Item(Nil, rest)
            else if n < 0 || n > INT_MAX then Fail(BadNumber)
            else ParseItems(rest, n, level + 1, [])
        else
          match LineReply(ty, line)
          case None => Fail(BadNumber)
          case Some(r) => Item(r, rest)
  }

  /** One reply at the given nesting depth. */
  function ParseItem(u: seq<byte>, level: nat): (p: Parsed)
    requires level <= MAX_LEVEL
    ensures p.Item? ==> |p.rest| < |u|
    decreases MAX_LEVEL - level, 1
  {
    if |u| == 0 then NeedMore
    else
      match TypeOf(u[0])
      case None => Fail(BadType(u[0]))
      case Some(ty) => ParseTyped(ty, u[1..], level)
  }

  /** n more elements of an array whose first ones are known. */
  function ParseItems(u: seq<byte>, n: nat, level: nat, first: seq<Reply>): (p: Parsed)
    requires level <= MAX_LEVEL
    ensures p.Item? ==> |p.rest| <= |u|
    decreases MAX_LEVEL - level, 2, n
  {
    if n == 0 then Item(Array(first), u)
    else
      var p := ParseItem(u, level);
      if p.Item? then ParseItems(p.rest, n - 1, level, first + [p.reply]) else p
  }

  datatype Outcome = Outcome(replies: seq<Reply>, error: Option<Error>)

  /** All complete replies of a byte string, up to the first error. */
  function Stream(u: seq<byte>): Outcome
    decreases |u|
  {
    match ParseItem(u, 0)
    case NeedMore => Outcome([], None)
    case Fail(e) => Outcome([], Some(e))
    case Item(r, rest) => var o := Stream(rest); Outcome([r] + o.replies, o.error)
  }

  // ---------------------------------------------------------------------
  // Received replies are final
  // ---------------------------------------------------------------------

  /** p with z behind what it left unread. */
  function Extend(p: Parsed, z: seq<byte>): Parsed
  {
    if p.Item? then Item(p.reply, p.rest + z) else p
  }

  lemma BulkExtends(u: seq<byte>, z: seq<byte>)
    ensures !ParseBulk(u).NeedMore? ==> ParseBulk(u + z) == Extend(ParseBulk(u), z)
  {
    if FindNewline(u).Some? {
      var i := FindNewline(u).value;
      NewlineExtends(u, z);
      assert (u + z)[..i] == u[..i];
      assert (u + z)[i + 2..] == u[i + 2..] + z;
      var n := ReadNumber(u[..i]);
      if n.Some? && n.value >= 0 && i + 2 + n.value + 2 <= |u| {
        assert (u + z)[i + 2..i + 2 + n.value] == u[i + 2..i + 2 + n.value];
        assert (u + z)[i + 2 + n.value + 2..] == u[i + 2 + n.value + 2..] + z;
      }
    }
  }

  lemma NewlineExtends(u: seq<byte>, z: seq<byte>)
    requires FindNewline(u).Some?
    ensures FindNewline(u + z) == FindNewline(u)
  {
    var i := FindNewline(u).value;
    NewlineStable(u, i, u[i + 2..] + z);
    assert u[..i + 2] + (u[i + 2..] + z) == u + z;
  }

  /** More bytes never change a reply or an error that is already there. */
  lemma {:induction false} TypedExtends(ty: ReplyType, u: seq<byte>, level: nat, z: seq<byte>)
    requires level <= MAX_LEVEL
    ensures !ParseTyped(ty, u, level).NeedMore? ==> ParseTyped(ty, u + z, level) == Extend(ParseTyped(ty, u, level), z)
    decreases MAX_LEVEL - level, 0
  {
    if ty == TString {
      BulkExtends(u, z);
    } else if FindNewline(u).Some? {
      var i := FindNewline(u).value;
      NewlineExtends(u, z);
      assert (u + z)[..i] == u[..i];
      assert (u + z)[i + 2..] == u[i + 2..] + z;
      if ty == TArray && level < MAX_LEVEL {
        var n := ReadNumber(u[..i]);
        if n.Some? && 0 <= n.value <= INT_MAX {
          ItemsExtend(u[i + 2..], n.value, level + 1, [], z);
        }
      }
    }
  }

  lemma {:induction false} ItemExtends(u: seq<byte>, level: nat, z: seq<byte>)
    requires level <= MAX_LEVEL
    ensures !ParseItem(u, level).NeedMore? ==> ParseItem(u + z, level) == Extend(ParseItem(u, level), z)
    decreases MAX_LEVEL - level, 1
  {
    if |u| > 0 && TypeOf(u[0]).Some? {
      assert (u + z)[1..] == u[1..] + z;
      TypedExtends(TypeOf(u[0]).value, u[1..], level, z);
    }
  }

  lemma {:induction false} ItemsExtend(u: seq<byte>, n: nat, level: nat, first: seq<Reply>, z: seq<byte>)
    requires level <= MAX_LEVEL
    ensures !ParseItems(u, n, level, first).NeedMore?
            ==> ParseItems(u + z, n, level, first) == Extend(ParseItems(u, n, level, first), z)
    decreases MAX_LEVEL - level, 2, n
  {
    if n > 0 {
      ItemExtends(u, level, z);
      var p := ParseItem(u, level);
      if p.Item? {
        ItemsExtend(p.rest, n - 1, level, first + [p.reply], z);
      }
    }
  }

  /** The replies of a byte string are the first replies of every longer one, and an error stays. */
  lemma {:induction false} StreamExtends(u: seq<byte>, z: seq<byte>)
    ensures Stream(u).replies <= Stream(u + z).replies
    ensures Stream(u).error.Some? ==> Stream(u + z) == Stream(u)
    decreases |u|
  {
    var p := ParseItem(u, 0);
    ItemExtends(u, 0, z);
    if p.Item? {
      StreamExtends(p.rest, z);
    }
  }
}
