/**
 The incremental reply reader: a buffer, a cursor, and a stack of nine tasks.

 Bytes arrive in any fragments through `Feed`; `GetReply` continues where it stopped. The
 reader's invariant says that the bytes consumed so far have put the grammar exactly where
 the stack says it is, whatever bytes follow. Reply objects live in `heap`, and a pointer to
 one is its index there.
 */
module RedisReader {

  import opened Base
  import opened RedisProtocol

  // ---------------------------------------------------------------------
  // The grammar in the middle of a reply
  // ---------------------------------------------------------------------

  /** The arrays around the current item: their size, their finished elements, and what is around them. */
  datatype Context = Root | In(elements: nat, done: seq<Reply>, outer: Context)

  function Level(c: Context): nat
  {
    if c.Root? then 0 else Level(c.outer) + 1
  }

  /** Every array still lacks an element. */
  predicate Open(c: Context)
  {
    c.In? ==> |c.done| < c.elements && Open(c.outer)
  }

  /** What the whole reply is, given what the current item is. */
  function Complete(c: Context, p: Parsed): Parsed
    requires Open(c) && Level(c) <= MAX_LEVEL
  {
    if !p.Item? || c.Root? then p
    else Complete(c.outer, ParseItems(p.rest, c.elements - |c.done| - 1, Level(c), c.done + [p.reply]))
  }

  /** The reply that the unread bytes u complete; `ty` is the type of the current item if already read. */
  function Resume(c: Context, ty: Option<ReplyType>, u: seq<byte>): Parsed
    requires Open(c) && Level(c) <= MAX_LEVEL
  {
    Complete(c, if ty.None? then ParseItem(u, Level(c)) else ParseTyped(ty.value, u, Level(c)))
  }

  /** Where the reader stands: inside a reply, or with a finished one. */
  datatype Place = At(context: Context) | Finished(reply: Reply)

  /** The place after one more item is known. */
  function Deliver(c: Context, r: Reply): Place
  {
    match c
    case Root => Finished(r)
    case In(n, done, outer) => if |done| + 1 == n then Deliver(outer, Array(done + [r]))
        else At(In(n, done + [r], outer))
  }

  lemma {:induction false} DeliverCorrect(c: Context, r: Reply, u: seq<byte>)
    requires Open(c) && Level(c) <= MAX_LEVEL
    ensures match Deliver(c, r)
            case Finished(whole) => Complete(c, Item(r, u)) == Item(whole, u)
            case At(c') => Open(c') && Level(c') <= MAX_LEVEL && Complete(c, Item(r, u)) == Resume(c', None, u)
    decreases c
  {
    if c.In? && |c.done| + 1 == c.elements {
      DeliverCorrect(c.outer, Array(c.done + [r]), u);
    }
  }

  /** The start of a non-empty array opens a context. */
  lemma EnterCorrect(c: Context, n: nat, u: seq<byte>)
    requires Open(c) && Level(c) < MAX_LEVEL && n > 0
    ensures Complete(c, ParseItems(u, n, Level(c) + 1, [])) == Resume(In(n, [], c), None, u)
  {
  }

  // ---------------------------------------------------------------------
  // Reply objects
  // ---------------------------------------------------------------------

  type Pointer = nat

  datatype Object =
    | TextObject(kind: ReplyType, str: seq<byte>)
    | IntegerObject(value: int)
    | NilObject
    | ArrayObject(element: seq<Option<Pointer>>)

  /** The object at p, with everything it points to between p and `high`, is the reply r. */
  ghost predicate Denotes(heap: seq<Object>, p: Pointer, high: nat, r: Reply)
    decreases r, 0
  {
    p < high <= |heap| &&
    match r
    case Text(k, s) => heap[p] == TextObject(k, s)
    case Integer(v) => heap[p] == IntegerObject(v)
    case Nil => heap[p] == NilObject
    case Array(es) =>
      && heap[p].ArrayObject? && |heap[p].element| == |es|
      && forall j :: 0 <= j < |es| ==> SlotDenotes(heap, p, heap[p].element[j], high, es[j])
  }

  ghost predicate SlotDenotes(heap: seq<Object>, p: Pointer, slot: Option<Pointer>, high: nat, r: Reply)
    decreases r, 1
  {
    slot.Some? && p < slot.value && Denotes(heap, slot.value, high, r)
  }

  lemma {:induction false} DenotesFrame(heap: seq<Object>, heap': seq<Object>, p: Pointer, low: nat, high: nat,
          high': nat, r: Reply)
    requires Denotes(heap, p, high, r) && low <= p && high <= high' <= |heap'|
    requires forall i :: low <= i < high ==> heap'[i] == heap[i]
    ensures Denotes(heap', p, high', r)
    decreases r
  {
    if r.Array? {
      forall j | 0 <= j < |r.elements| ensures SlotDenotes(heap', p, heap'[p].element[j], high', r.elements[j]) {
        assert SlotDenotes(heap, p, heap[p].element[j], high, r.elements[j]);
        DenotesFrame(heap, heap', heap[p].element[j].value, low, high, high', r.elements[j]);
      }
    }
  }

  /** An array under construction: its first slots are filled, one may hold an open array, the rest are empty. */
  ghost predicate FrameOk(heap: seq<Object>, a: Pointer, n: nat, done: seq<Reply>, current: Option<Pointer>, high: nat)
  {
    && a < high <= |heap| && |done| < n
    && heap[a].ArrayObject? && |heap[a].element| == n
    && (forall j :: 0 <= j < |done| ==> SlotDenotes(heap, a, heap[a].element[j], high, done[j]))
    && heap[a].element[|done|] == current
    && (forall j :: |done| < j < n ==> heap[a].element[j] == None)
  }

  // ---------------------------------------------------------------------
  // Tasks
  // ---------------------------------------------------------------------

  /** `kind` is None for the source's -1; `parent` is the stack index of the enclosing array's task. */
  datatype Task = Task(kind: Option<ReplyType>, elements: int, idx: int, obj: Pointer, parent: Option<nat>)

  /** The tasks below and at index i describe the context c; `current` is what the innermost open slot holds. */
  ghost predicate Linked(c: Context, i: int, stack: seq<Task>, heap: seq<Object>, current: Option<Pointer>, high: nat)
  {
    && 0 <= i < |stack|
    && if c.Root? then i == 0 && stack[0].parent == None
       else
         && i >= 1 && stack[i].idx == |c.done| && stack[i].parent == Some(i - 1)
         && stack[i - 1].kind == Some(TArray) && stack[i - 1].elements == c.elements
         && FrameOk(heap, stack[i - 1].obj, c.elements, c.done, current, high)
         && Linked(c.outer, i - 1, stack, heap, Some(stack[i - 1].obj), stack[i - 1].obj)
  }

  lemma {:induction false} LinkedFrame(c: Context, i: int, stack: seq<Task>, stack': seq<Task>, heap: seq<Object>,
          heap': seq<Object>, current: Option<Pointer>, high: nat)
    requires Linked(c, i, stack, heap, current, high) && |stack'| == |stack|
    requires forall j :: 0 <= j < i ==> stack'[j] == stack[j]
    requires stack'[i].idx == stack[i].idx && stack'[i].parent == stack[i].parent
    requires high <= |heap'| && high <= |heap| && forall k :: 0 <= k < high ==> heap'[k] == heap[k]
    ensures Linked(c, i, stack', heap', current, high)
    decreases c
  {
    if c.In? {
      var a := stack[i - 1].obj;
      FrameKept(heap, heap', a, c.elements, c.done, current, high, high);
      LinkedFrame(c.outer, i - 1, stack, stack', heap, heap', Some(a), a);
    }
  }

  lemma FrameKept(heap: seq<Object>, heap': seq<Object>, a: Pointer, n: nat, done: seq<Reply>, current: Option<Pointer>,
          high: nat, high': nat)
    requires FrameOk(heap, a, n, done, current, high) && high <= high' <= |heap'|
    requires forall k :: a <= k < high ==> heap'[k] == heap[k]
    ensures FrameOk(heap', a, n, done, current, high')
  {
    forall j | 0 <= j < |done| ensures SlotDenotes(heap', a, heap'[a].element[j], high', done[j]) {
      assert SlotDenotes(heap, a, heap[a].element[j], high, done[j]);
      DenotesFrame(heap, heap', heap[a].element[j].value, a, high, high', done[j]);
    }
  }

  lemma LinkedLevel(c: Context, i: int, stack: seq<Task>, heap: seq<Object>, current: Option<Pointer>, high: nat)
    requires Linked(c, i, stack, heap, current, high)
    ensures Level(c) == i && Open(c)
  {
  }

  // ---------------------------------------------------------------------
  // Consuming bytes
  // ---------------------------------------------------------------------

  /** The bytes `current` have led the grammar from the start of a reply to this place. */
  ghost predicate Reached(current: seq<byte>, c: Context, ty: Option<ReplyType>)
  {
    && Open(c) && Level(c) <= MAX_LEVEL
    && forall u :: ParseItem(current + u, 0) == Resume(c, ty, u)
  }

  ghost predicate ReachedEnd(current: seq<byte>, r: Reply)
  {
    forall u :: ParseItem(current + u, 0) == Item(r, u)
  }

  ghost predicate ReachedPlace(current: seq<byte>, place: Place)
  {
    match place
    case At(c) => Reached(current, c, None)
    case Finished(r) => ReachedEnd(current, r)
  }

  /** The bytes w are exactly the rest of an item of type ty, and the item is r. */
  ghost predicate Consumes(ty: ReplyType, w: seq<byte>, level: nat, r: Reply)
    requires level <= MAX_LEVEL
  {
    forall u :: ParseTyped(ty, w + u, level) == Item(r, u)
  }

  lemma ReachedStart()
    ensures Reached([], Root, None)
  {
    forall u: seq<byte> ensures ParseItem([] + u, 0) == Resume(Root, None, u) {
      assert [] + u == u;
    }
  }

  lemma TypeRead(current: seq<byte>, c: Context, b: byte)
    requires Reached(current, c, None) && TypeOf(b).Some?
    ensures Reached(current + [b], c, TypeOf(b))
  {
    forall u ensures ParseItem(current + [b] + u, 0) == Resume(c, TypeOf(b), u) {
      assert current + [b] + u == current + ([b] + u);
      assert ([b] + u)[1..] == u;
    }
  }

  lemma ItemResumes(c: Context, ty: ReplyType, v: seq<byte>, r: Reply, u: seq<byte>)
    requires Open(c) && Level(c) <= MAX_LEVEL && ParseTyped(ty, v, Level(c)) == Item(r, u)
    ensures match Deliver(c, r)
            case Finished(whole) => Resume(c, Some(ty), v) == Item(whole, u)
            case At(c') => Open(c') && Level(c') <= MAX_LEVEL && Resume(c, Some(ty), v) == Resume(c', None, u)
  {
    hide ParseTyped, ParseItem, ParseItems, Complete;
    DeliverCorrect(c, r, u);
  }

  lemma ItemRead(current: seq<byte>, c: Context, ty: ReplyType, w: seq<byte>, r: Reply)
    requires Reached(current, c, Some(ty)) && Consumes(ty, w, Level(c), r)
    ensures ReachedPlace(current + w, Deliver(c, r))
  {
    hide ParseTyped, ParseItem, Resume, Deliver, Level;
    var place := Deliver(c, r);
    forall u
      ensures place.Finished? ==> ParseItem(current + w + u, 0) == Item(place.reply, u)
      ensures place.At? ==> Open(place.context) && Level(place.context) <= MAX_LEVEL
                            && ParseItem(current + w + u, 0) == Resume(place.context, None, u)
    {
      assert current + w + u == current + (w + u);
      assert ParseTyped(ty, w + u, Level(c)) == Item(r, u);
      ItemResumes(c, ty, w + u, r, u);
    }
    DeliverCorrect(c, r, []);
  }

  /** A line keeps its text when other bytes follow it. */
  lemma LineCut(s: seq<byte>, i: nat, u: seq<byte>)
    requires FindNewline(s) == Some(i)
    ensures i + 2 <= |s|
    ensures var t := s[..i + 2] + u; FindNewline(t) == Some(i) && t[..i] == s[..i] && t[i + 2..] == u
  {
    NewlineStable(s, i, u);
  }

  lemma LineConsumed(ty: ReplyType, s: seq<byte>, i: nat, level: nat, r: Reply)
    requires FindNewline(s) == Some(i) && level <= MAX_LEVEL && ty != TString && ty != TArray
    requires LineReply(ty, s[..i]) == Some(r)
    ensures i + 2 <= |s| && Consumes(ty, s[..i + 2], level, r)
  {
    hide FindNewline, LineReply, ParseItems;
    forall u ensures ParseTyped(ty, s[..i + 2] + u, level) == Item(r, u) {
      LineCut(s, i, u);
    }
  }

  lemma NilConsumed(ty: ReplyType, s: seq<byte>, i: nat, level: nat)
    requires FindNewline(s) == Some(i) && level <= MAX_LEVEL && ReadNumber(s[..i]).Some?
    requires var n := ReadNumber(s[..i]).value;
      (ty == TString && n < 0) || (ty == TArray && level < MAX_LEVEL && n == -1)
    ensures i + 2 <= |s| && Consumes(ty, s[..i + 2], level, Nil)
  {
    hide FindNewline, ReadNumber, ParseItems;
    forall u ensures ParseTyped(ty, s[..i + 2] + u, level) == Item(Nil, u) {
      LineCut(s, i, u);
    }
  }

  lemma BulkConsumed(s: seq<byte>, i: nat, n: nat, level: nat)
    requires FindNewline(s) == Some(i) && level <= MAX_LEVEL
    requires ReadNumber(s[..i]) == Some(n) && i + 2 + n + 2 <= |s|
    ensures Consumes(TString, s[..i + 2 + n + 2], level, Text(TString, s[i + 2..i + 2 + n]))
  {
    hide FindNewline, ReadNumber, ParseItems;
    var w := s[..i + 2 + n + 2];
    forall u ensures ParseTyped(TString, w + u, level) == Item(Text(TString, s[i + 2..i + 2 + n]), u) {
      BulkCut(s, i, n, u);
    }
  }

  lemma BulkCut(s: seq<byte>, i: nat, n: nat, u: seq<byte>)
    requires FindNewline(s) == Some(i) && i + 2 + n + 2 <= |s|
    ensures var t := s[..i + 2 + n + 2] + u;
      && FindNewline(t) == Some(i) && t[..i] == s[..i]
      && t[i + 2..i + 2 + n] == s[i + 2..i + 2 + n] && t[i + 2 + n + 2..] == u
  {
    hide FindNewline;
    LineCut(s, i, s[i + 2..i + 2 + n + 2] + u);
    assert s[..i + 2] + (s[i + 2..i + 2 + n + 2] + u) == s[..i + 2 + n + 2] + u;
  }

  lemma EmptyArrayConsumed(s: seq<byte>, i: nat, level: nat)
    requires FindNewline(s) == Some(i) && level < MAX_LEVEL && ReadNumber(s[..i]) == Some(0)
    ensures i + 2 <= |s| && Consumes(TArray, s[..i + 2], level, Array([]))
  {
    hide FindNewline, ReadNumber;
    forall u ensures ParseTyped(TArray, s[..i + 2] + u, level) == Item(Array([]), u) {
      LineCut(s, i, u);
    }
  }

  lemma ArrayLine(s: seq<byte>, i: nat, n: nat, level: nat, u: seq<byte>)
    requires FindNewline(s) == Some(i) && level < MAX_LEVEL && ReadNumber(s[..i]) == Some(n) && 0 < n <= INT_MAX
    ensures i + 2 <= |s| && ParseTyped(TArray, s[..i + 2] + u, level) == ParseItems(u, n, level + 1, [])
  {
    hide FindNewline, ReadNumber, ParseItems;
    LineCut(s, i, u);
  }

  lemma ArrayEntered(current: seq<byte>, c: Context, s: seq<byte>, i: nat, n: nat)
    requires Reached(current, c, Some(TArray)) && Level(c) < MAX_LEVEL
    requires FindNewline(s) == Some(i) && ReadNumber(s[..i]) == Some(n) && 0 < n <= INT_MAX
    ensures i + 2 <= |s| && Reached(current + s[..i + 2], In(n, [], c), None)
  {
    hide FindNewline, ReadNumber, ParseItems, ParseItem, ParseTyped, Resume, Complete;
    LineCut(s, i, []);
    var w := s[..i + 2];
    forall u ensures ParseItem(current + w + u, 0) == Resume(In(n, [], c), None, u) {
      assert current + w + u == current + (w + u);
      ArrayResumes(s, i, n, c, u);
    }
  }

  lemma ArrayResumes(s: seq<byte>, i: nat, n: nat, c: Context, u: seq<byte>)
    requires Open(c) && Level(c) < MAX_LEVEL
    requires FindNewline(s) == Some(i) && ReadNumber(s[..i]) == Some(n) && 0 < n <= INT_MAX
    ensures i + 2 <= |s| && Resume(c, Some(TArray), s[..i + 2] + u) == Resume(In(n, [], c), None, u)
  {
    hide FindNewline, ReadNumber, ParseItems, ParseItem, ParseTyped, Complete;
    ArrayLine(s, i, n, Level(c), u);
    EnterCorrect(c, n, u);
  }

  /** sdsrange(s, start, end), which keeps the inclusive range and counts negative ends from the back. */
  function SdsRange(s: seq<byte>, start: int, end: int): seq<byte>
  {
    var n := |s|;
    if n == 0 then s
    else
      var first := if start >= 0 then start else if n + start < 0 then 0 else n + start;
      var last := if end >= 0 then end else if n + end < 0 then 0 else n + end;
      if first > last || first >= n then []
      else s[first..(if last >= n then n else last + 1)]
  }

  lemma SdsRangeDrops(s: seq<byte>, start: nat)
    requires start <= |s|
    ensures SdsRange(s, start, -1) == s[start..]
  {
  }

  // ---------------------------------------------------------------------
  // Scanning
  // ---------------------------------------------------------------------

  /** A byte of the buffer, which ends in a NUL that is not part of its contents. */
  function ByteAt(s: seq<byte>, i: nat): byte
    requires i <= |s|
  {
    if i < |s| then s[i] else 0
  }

  method SeekNewline(s: seq<byte>) returns (r: Option<nat>)
    ensures r == FindNewline(s)
  {
    var pos, last := 0, |s| - 1;
    while pos < last
      invariant 0 <= pos <= |s|
      invariant forall i :: 0 <= i < pos ==> !NewlineAt(s, i)
    {
      while pos < last && s[pos] != CR
        invariant pos <= last
        invariant forall i :: 0 <= i < pos ==> !NewlineAt(s, i)
      {
        pos := pos + 1;
      }
      if s[pos] != CR {
        return None;
      } else if ByteAt(s, pos + 1) == LF {
        assert NewlineAt(s, pos);
        return Some(pos);
      } else {
        pos := pos + 1;
      }
    }
    return None;
  }

  lemma DigitsStop(s: seq<byte>, i: nat, k: nat, v: int)
    requires k <= i < |s| && s[i] == CR
    ensures ReadDigits(s[k..], v) == ReadDigits(s[k..i], v)
    decreases i - k
  {
    if k < i && s[k] != CR {
      assert s[k..][1..] == s[k + 1..] && s[k..i][1..] == s[k + 1..i];
      var digit := s[k] - ZERO;
      DigitsStop(s, i, k + 1, v * 10 + digit);
    }
  }

  /** readLongLong on bytes that contain a newline; None where the source's arithmetic overflows. */
  method ReadLongLong(s: seq<byte>) returns (r: Option<int>)
    requires FindNewline(s).Some?
    ensures r == ReadNumber(s[..FindNewline(s).value])
  {
    var v, mult, k := 0, 1, 0;
    ghost var i := FindNewline(s).value;
    ghost var line := s[..i];
    if s[0] == MINUS {
      mult := -1;
      k := 1;
    } else if s[0] == PLUS {
      mult := 1;
      k := 1;
    }
    ghost var start := k;
    assert ReadNumber(line) == match ReadDigits(line[start..], 0)
                               case Value(x) => Some(mult * x)
                               case Garbage => Some(-1)
                               case Overflow => None;
    DigitsStop(s, i, start, 0);
    assert s[start..i] == line[start..];
    while s[k] != CR
      invariant start <= k <= i && v >= 0
      invariant ReadDigits(s[k..], v) == ReadDigits(line[start..], 0)
      decreases i - k
    {
      var digit := s[k] - ZERO;
      assert s[k..][1..] == s[k + 1..];
      if 0 <= digit < 10 {
        if v * 10 + digit > LLONG_MAX {
          return None;
        }
        v := v * 10;
        v := v + digit;
      } else {
        return Some(-1);
      }
      k := k + 1;
    }
    return Some(mult * v);
  }

  // ---------------------------------------------------------------------
  // What the reader's fields mean
  // ---------------------------------------------------------------------

  /**
   The bytes fed since the start or the last error: those of finished replies, the replies
   themselves, the bytes consumed of the reply in progress, and the place they have led to.
   */
  datatype History = History(fed: seq<byte>, before: seq<byte>, emitted: seq<Reply>, current: seq<byte>, place: Place,
      start: nat)

  const NO_HISTORY: History := History([], [], [], [], At(Root), 0)

  /** Every byte fed is part of a finished reply, of the reply in progress, or still unread. */
  ghost predicate Accounted(fed: seq<byte>, before: seq<byte>, current: seq<byte>, rest: seq<byte>)
  {
    fed == before + current + rest
  }

  /** The finished bytes are exactly the finished replies, whatever follows. */
  ghost predicate SplitAt(before: seq<byte>, emitted: seq<Reply>)
  {
    forall u :: Stream(before + u) == Outcome(emitted + Stream(u).replies, Stream(u).error)
  }

  ghost predicate Buffered(buf: seq<byte>, pos: nat, len: nat, h: History)
  {
    pos <= len == |buf| && Accounted(h.fed, h.before, h.current, buf[pos..]) && SplitAt(h.before, h.emitted)
  }

  /** Objects below `start` are those of earlier replies; they stay as they are. */
  ghost predicate Kept(start: nat, heap: seq<Object>, heap': seq<Object>)
  {
    start <= |heap| <= |heap'| && forall k :: 0 <= k < start ==> heap'[k] == heap[k]
  }

  /** The open arrays belong to the reply in progress. */
  ghost predicate Above(stack: seq<Task>, ridx: int, start: nat)
  {
    ridx <= |stack| && forall j :: 0 <= j < ridx ==> stack[j].obj >= start
  }

  lemma KeptTrans(start: nat, heap: seq<Object>, heap': seq<Object>, heap'': seq<Object>)
    requires Kept(start, heap, heap') && Kept(start, heap', heap'')
    ensures Kept(start, heap, heap'')
  {
  }

  lemma AboveSame(stack: seq<Task>, stack': seq<Task>, ridx: int, ridx': int, start: nat)
    requires Above(stack, ridx, start) && ridx' <= ridx && |stack'| == |stack|
    requires forall j :: 0 <= j < ridx' ==> stack'[j].obj == stack[j].obj
    ensures Above(stack', ridx', start)
  {
  }

  lemma KeptSizes(start: nat, heap: seq<Object>, heap': seq<Object>)
    requires Kept(start, heap, heap')
    ensures start <= |heap| <= |heap'|
  {
  }

  lemma KeptSame(start: nat, heap: seq<Object>)
    requires start <= |heap|
    ensures Kept(start, heap, heap)
  {
  }

  /** The stack describes the open arrays, and the bytes consumed so far lead exactly there. */
  ghost predicate InReply(stack: seq<Task>, ridx: int, heap: seq<Object>, reply: Option<Pointer>, h: History)
  {
    && |stack| == MAX_LEVEL + 1 && 0 <= ridx <= MAX_LEVEL && h.place.At?
    && Linked(h.place.context, ridx, stack, heap, None, |heap|)
    && Reached(h.current, h.place.context, stack[ridx].kind)
    && reply == RootPointer(stack, ridx)
    && h.start <= |heap| && Above(stack, ridx, h.start)
  }

  /** An array nested too deep is an error at once, so no task waits for one. */
  predicate Shallow(stack: seq<Task>, ridx: int)
  {
    0 <= ridx < |stack| && stack[ridx].kind == Some(TArray) ==> ridx < MAX_LEVEL
  }

  /** The reply's root object exists once its first element is being read. */
  function RootPointer(stack: seq<Task>, ridx: int): Option<Pointer>
    requires |stack| > 0
  {
    if ridx > 0 then Some(stack[0].obj) else None
  }

  /** The whole reply has been read and `reply` points to it. */
  ghost predicate AtEnd(heap: seq<Object>, reply: Option<Pointer>, h: History)
  {
    && h.place.Finished? && reply.Some?
    && Denotes(heap, reply.value, |heap|, h.place.reply)
    && ReachedEnd(h.current, h.place.reply)
  }

  /** Between two items: inside a reply, or at its end. */
  ghost predicate Between(stack: seq<Task>, ridx: int, heap: seq<Object>, reply: Option<Pointer>, h: History)
  {
    if ridx == -1 then AtEnd(heap, reply, h) else InReply(stack, ridx, heap, reply, h) && Shallow(stack, ridx)
  }

  /** Only the reply in progress has changed. */
  predicate SamePast(h: History, h': History)
  {
    h'.fed == h.fed && h'.before == h.before && h'.emitted == h.emitted
  }

  lemma SplitStart()
    ensures SplitAt([], [])
  {
    forall u: seq<byte> ensures [] + u == u {
    }
  }

  lemma Consumed(h: History, rest: seq<byte>, k: nat)
    requires Accounted(h.fed, h.before, h.current, rest) && k <= |rest|
    ensures Accounted(h.fed, h.before, h.current + rest[..k], rest[k..])
  {
    assert h.before + (h.current + rest[..k]) == h.before + h.current + rest[..k];
    assert rest == rest[..k] + rest[k..];
  }

  lemma Fed(h: History, h': History, rest: seq<byte>, rest': seq<byte>, bytes: seq<byte>)
    requires Accounted(h.fed, h.before, h.current, rest) && h' == h.(fed := h.fed + bytes) && rest' == rest + bytes
    ensures Accounted(h'.fed, h'.before, h'.current, rest')
  {
  }

  /** The array a' is a with its empty slot idx filled. */
  predicate SlotSet(a: Object, a': Object, idx: int, p: Pointer)
  {
    && a.ArrayObject? && 0 <= idx < |a.element| && a.element[idx] == None
    && a' == ArrayObject(a.element[idx := Some(p)])
  }

  lemma SlotFilled(heap: seq<Object>, heap': seq<Object>, a: Pointer, n: nat, done: seq<Reply>, p: Pointer)
    requires FrameOk(heap, a, n, done, None, |heap|) && p == |heap| && |heap'| == p + 1
    requires forall k :: 0 <= k < |heap| && k != a ==> heap'[k] == heap[k]
    requires heap'[a] == ArrayObject(heap[a].element[|done| := Some(p)])
    ensures FrameOk(heap', a, n, done, Some(p), p)
  {
    forall j | 0 <= j < |done| ensures SlotDenotes(heap', a, heap'[a].element[j], p, done[j]) {
      assert SlotDenotes(heap, a, heap[a].element[j], |heap|, done[j]);
      DenotesFrame(heap, heap', heap[a].element[j].value, a + 1, |heap|, p, done[j]);
    }
  }

  lemma ArrayFinished(heap: seq<Object>, a: Pointer, n: nat, done: seq<Reply>, q: Pointer, x: Reply)
    requires FrameOk(heap, a, n, done, Some(q), q) && |done| + 1 == n && Denotes(heap, q, |heap|, x)
    ensures Denotes(heap, a, |heap|, Array(done + [x]))
  {
    var es := done + [x];
    forall j | 0 <= j < |es| ensures SlotDenotes(heap, a, heap[a].element[j], |heap|, es[j]) {
      if j < |done| {
        assert SlotDenotes(heap, a, heap[a].element[j], q, done[j]);
        DenotesFrame(heap, heap, heap[a].element[j].value, 0, q, |heap|, done[j]);
      }
    }
  }

  lemma ElementAdded(heap: seq<Object>, a: Pointer, n: nat, done: seq<Reply>, q: Pointer, x: Reply)
    requires FrameOk(heap, a, n, done, Some(q), q) && |done| + 1 < n && Denotes(heap, q, |heap|, x)
    ensures FrameOk(heap, a, n, done + [x], None, |heap|)
  {
    forall j | 0 <= j <= |done| ensures SlotDenotes(heap, a, heap[a].element[j], |heap|, (done + [x])[j]) {
      if j < |done| {
        assert SlotDenotes(heap, a, heap[a].element[j], q, done[j]);
        DenotesFrame(heap, heap, heap[a].element[j].value, 0, q, |heap|, done[j]);
      }
    }
  }

  /** An object without pointers, and the reply it is. */
  predicate IsLeaf(o: Object, r: Reply)
  {
    match r
    case Text(k, s) => o == TextObject(k, s)
    case Integer(v) => o == IntegerObject(v)
    case Nil => o == NilObject
    case Array(es) => es == [] && o == ArrayObject([])
  }

  lemma LeafDenotes(heap: seq<Object>, p: Pointer, r: Reply)
    requires p < |heap| && IsLeaf(heap[p], r)
    ensures Denotes(heap, p, |heap|, r)
  {
  }

  /** A number that cannot be read fails the whole reply. */
  lemma NumberFails(current: seq<byte>, c: Context, ty: ReplyType, s: seq<byte>, i: nat)
    requires Reached(current, c, Some(ty)) && FindNewline(s) == Some(i) && ReadNumber(s[..i]) == None
    requires ty == TInteger || ty == TString || (ty == TArray && Level(c) < MAX_LEVEL)
    ensures ParseItem(current + s, 0) == Fail(BadNumber)
  {
    assert ParseTyped(ty, s, Level(c)) == Fail(BadNumber);
  }

  lemma LineStarves(c: Context, ty: ReplyType, s: seq<byte>)
    requires Open(c) && Level(c) <= MAX_LEVEL && FindNewline(s) == None
    requires ty == TArray ==> Level(c) < MAX_LEVEL
    ensures Resume(c, Some(ty), s) == NeedMore
  {
  }

  // ---------------------------------------------------------------------
  // What processing one item does
  // ---------------------------------------------------------------------

  datatype View = View(
    buf: seq<byte>, pos: nat, len: nat, stack: seq<Task>, ridx: int, heap: seq<Object>,
    reply: Option<Pointer>, error: Option<Error>, history: History)

  ghost predicate InItem(v: View)
  {
    Buffered(v.buf, v.pos, v.len, v.history) && InReply(v.stack, v.ridx, v.heap, v.reply, v.history)
  }

  /** The stack is empty and the buffer dropped, after an error. */
  ghost predicate Cleared(v: View, e: Error)
  {
    && v.error == Some(e) && v.ridx == -1 && v.buf == [] && v.pos == v.len == 0
    && v.history == NO_HISTORY && |v.stack| == MAX_LEVEL + 1
  }

  ghost predicate Advanced(v: View, v': View)
  {
    && v'.buf == v.buf && v'.error == v.error && SamePast(v.history, v'.history)
    && Buffered(v'.buf, v'.pos, v'.len, v'.history) && |v'.stack| == MAX_LEVEL + 1
    && v'.history.start == v.history.start && Kept(v.history.start, v.heap, v'.heap)
  }

  /**
   The three outcomes of a process function: it consumed bytes and finished the item or opened an
   array; or the item is incomplete; or the reply is in error.
   */
  ghost predicate Processed(v: View, v': View, rc: int, failure: Option<Error>)
    requires v.pos <= |v.buf|
  {
    match failure
    case Some(e) =>
      && rc == -1 && Cleared(v', e) && ParseItem(v.history.current + v.buf[v.pos..], 0) == Fail(e)
      && Kept(v.history.start, v.heap, v'.heap)
    case None =>
      && Advanced(v, v')
      && if rc == 0 then v.pos < v'.pos && Between(v'.stack, v'.ridx, v'.heap, v'.reply, v'.history)
         else rc == -1 && v.pos <= v'.pos && InItem(v') && Shallow(v'.stack, v'.ridx)
              && Resume(v'.history.place.context, v'.stack[v'.ridx].kind, v'.buf[v'.pos..]) == NeedMore
  }

  lemma Waits(v: View, v': View)
    requires v.pos <= |v.buf| && Advanced(v, v') && v.pos <= v'.pos && InItem(v') && Shallow(v'.stack, v'.ridx)
    requires Resume(v'.history.place.context, v'.stack[v'.ridx].kind, v'.buf[v'.pos..]) == NeedMore
    ensures Processed(v, v', -1, None)
  {
  }

  lemma Fails(v: View, v': View, e: Error)
    requires v.pos <= |v.buf| && Cleared(v', e) && ParseItem(v.history.current + v.buf[v.pos..], 0) == Fail(e)
    requires v.history.start <= |v.heap| && v'.heap == v.heap
    ensures Processed(v, v', -1, Some(e))
  {
    KeptSame(v.history.start, v.heap);
  }

  lemma Progresses(v: View, v': View)
    requires v.pos <= |v.buf| && Advanced(v, v') && v.pos < v'.pos
        && Between(v'.stack, v'.ridx, v'.heap, v'.reply, v'.history)
    ensures Processed(v, v', 0, None)
  {
  }

  /** An item of k bytes has been read, and its object stored. */
  lemma ItemDone(v: View, v': View, k: nat)
    requires InItem(v) && 0 < k <= |v.buf[v.pos..]|
    requires v'.buf == v.buf && v'.len == v.len && v'.pos == v.pos + k && v'.error == v.error
        && |v'.stack| == MAX_LEVEL + 1
    requires SamePast(v.history, v'.history) && v'.history.current == v.history.current + v.buf[v.pos..][..k]
    requires v'.history.start == v.history.start && Kept(v.history.start, v.heap, v'.heap)
    requires Between(v'.stack, v'.ridx, v'.heap, v'.reply, v'.history)
    ensures Processed(v, v', 0, None)
  {
    hide Accounted, SplitAt, Between, InReply, Kept;
    Consumed(v.history, v.buf[v.pos..], k);
    assert v.buf[v.pos..][k..] == v'.buf[v'.pos..];
    Progresses(v, v');
  }

  /** The object made from a finished line. */
  method LineObject(ty: ReplyType, s: seq<byte>, n: nat) returns (o: Option<Object>)
    requires FindNewline(s) == Some(n)
    ensures n <= |s|
    ensures match LineReply(ty, s[..n])
            case None => o == None
            case Some(r) => o.Some? && IsLeaf(o.value, r)
  {
    if ty == TInteger {
      var v := ReadLongLong(s);
      o := if v == None then None else Some(IntegerObject(v.value));
    } else {
      o := Some(TextObject(ty, s[..n]));
    }
  }

  /**
   The object made from a string item, if it is complete, and the bytes it takes: 0 when there is
   one, -1 when bytes are missing, -2 when the length cannot be read.
   */
  method BulkObject(s: seq<byte>, ghost level: nat) returns (rc: int, o: Object, bytelen: nat, ghost r: Reply)
    requires level <= MAX_LEVEL
    ensures match ParseBulk(s)
            case NeedMore => rc == -1
            case Fail(e) => rc == -2 && e == BadNumber
            case Item(_, _) =>
              rc == 0 && 0 < bytelen <= |s| && IsLeaf(o, r) && Consumes(TString, s[..bytelen], level, r)
  {
    hide FindNewline, ReadNumber, Consumes;
    o, bytelen, r := NilObject, 0, Nil;
    var newline := SeekNewline(s);
    if newline == None {
      return -1, o, bytelen, r;
    }
    var i := newline.value;
    bytelen := i + 2;
    var n := ReadLongLong(s);
    if n == None {
      return -2, o, bytelen, r;
    }
    if n.value < 0 {
      NilConsumed(TString, s, i, level);
      return 0, o, bytelen, r;
    }
    bytelen := bytelen + (n.value + 2);
    if bytelen <= |s| {
      BulkConsumed(s, i, n.value, level);
      r := Text(TString, s[i + 2..i + 2 + n.value]);
      return 0, TextObject(TString, s[i + 2..i + 2 + n.value]), bytelen, r;
    }
    return -1, o, bytelen, r;
  }

  lemma BulkStarves(c: Context, s: seq<byte>)
    requires Open(c) && Level(c) <= MAX_LEVEL && ParseBulk(s).NeedMore?
    ensures Resume(c, Some(TString), s) == NeedMore
  {
  }

  lemma BulkFails(current: seq<byte>, c: Context, s: seq<byte>)
    requires Reached(current, c, Some(TString)) && ParseBulk(s).Fail?
    ensures ParseItem(current + s, 0) == ParseBulk(s)
  {
    assert ParseTyped(TString, s, Level(c)) == ParseBulk(s);
  }

  lemma DepthFails(current: seq<byte>, c: Context, s: seq<byte>)
    requires Reached(current, c, Some(TArray)) && Level(c) == MAX_LEVEL
    ensures ParseItem(current + s, 0) == Fail(TooDeep)
  {
    assert ParseTyped(TArray, s, Level(c)) == Fail(TooDeep);
  }

  lemma CountFails(current: seq<byte>, c: Context, s: seq<byte>, i: nat)
    requires Reached(current, c, Some(TArray)) && Level(c) < MAX_LEVEL && FindNewline(s) == Some(i)
    requires match ReadNumber(s[..i]) case None => true case Some(n) => n < -1 || n > INT_MAX
    ensures ParseItem(current + s, 0) == Fail(BadNumber)
  {
    assert ParseTyped(TArray, s, Level(c)) == Fail(BadNumber);
  }

  lemma EmptyConsumed(s: seq<byte>, i: nat, level: nat, r: Reply)
    requires FindNewline(s) == Some(i) && level < MAX_LEVEL
    requires (r == Nil && ReadNumber(s[..i]) == Some(-1)) || (r == Array([]) && ReadNumber(s[..i]) == Some(0))
    ensures i + 2 <= |s| && Consumes(TArray, s[..i + 2], level, r)
  {
    if r == Nil {
      NilConsumed(TArray, s, i, level);
    } else {
      EmptyArrayConsumed(s, i, level);
    }
  }

  /** Bytes of the reply in progress may have been consumed between v and v'; none have come or gone. */
  ghost predicate Reading(v: View, v': View)
  {
    && Advanced(v, v') && v.pos <= v'.pos <= |v'.buf|
    && v'.history.current + v'.buf[v'.pos..] == v.history.current + v.buf[v.pos..]
  }

  lemma ReadingThenProcessed(v: View, v': View, v'': View, rc: int, failure: Option<Error>)
    requires v.pos <= |v.buf| && v'.pos <= |v'.buf| && Reading(v, v') && Processed(v', v'', rc, failure)
    ensures Processed(v, v'', rc, failure)
  {
    hide Buffered, InReply, Between, Resume, ParseItem, Cleared, Kept;
    KeptTrans(v.history.start, v.heap, v'.heap, v''.heap);
  }

  lemma ProcessedIsReading(v: View, v': View)
    requires Buffered(v.buf, v.pos, v.len, v.history) && Processed(v, v', 0, None)
    ensures Reading(v, v')
  {
    hide Between, SplitAt;
    var x, y := v.history.current + v.buf[v.pos..], v'.history.current + v'.buf[v'.pos..];
    assert v.history.before + x == v.history.before + v.history.current + v.buf[v.pos..];
    assert v'.history.before + y == v'.history.before + v'.history.current + v'.buf[v'.pos..];
    CancelPrefix(v.history.before, x, y);
  }

  lemma ReadingTrans(v: View, v': View, v'': View)
    requires v.pos <= |v.buf| && v'.pos <= |v'.buf| && Reading(v, v') && Reading(v', v'')
    ensures Reading(v, v'')
  {
    hide Buffered, Kept;
    KeptTrans(v.history.start, v.heap, v'.heap, v''.heap);
  }

  lemma CancelPrefix(b: seq<byte>, x: seq<byte>, y: seq<byte>)
    requires b + x == b + y
    ensures x == y
  {
    assert (b + x)[|b|..] == x && (b + y)[|b|..] == y;
  }

  lemma TypeFails(current: seq<byte>, c: Context, s: seq<byte>)
    requires Reached(current, c, None) && |s| > 0 && TypeOf(s[0]) == None
    ensures ParseItem(current + s, 0) == Fail(BadType(s[0]))
  {
    assert ParseItem(s, Level(c)) == Fail(BadType(s[0]));
  }

  lemma NothingStarves(v: View)
    requires InItem(v) && v.stack[v.ridx].kind == None && v.pos == v.len
    ensures Resume(v.history.place.context, v.stack[v.ridx].kind, v.buf[v.pos..]) == NeedMore
  {
    assert v.buf[v.pos..] == [];
  }

  // ---------------------------------------------------------------------
  // What a call of GetReply answers
  // ---------------------------------------------------------------------

  /** Between two calls. */
  ghost predicate Resting(v: View)
  {
    && Buffered(v.buf, v.pos, v.len, v.history) && |v.stack| == MAX_LEVEL + 1
    && Shallow(v.stack, v.ridx)
    && if v.ridx == -1 then v.history.current == [] && v.reply == None
       else InReply(v.stack, v.ridx, v.heap, v.reply, v.history)
  }

  /** Below here nothing will change any more: objects of the reply in progress may still be filled. */
  ghost function Settled(v: View): nat
  {
    if v.ridx == -1 then |v.heap| else v.history.start
  }

  /** A call leaves the objects of earlier replies as they are; a finished reply joins them. */
  ghost predicate HeapKept(v: View, v': View, out: Option<Pointer>)
  {
    Kept(Settled(v), v.heap, v'.heap) && Settled(v) <= Settled(v') <= |v'.heap| && (out.Some? ==> v'.ridx == -1)
  }

  /**
   Until the first error, the replies handed out are the replies of the bytes fed; no reply means
   that there is no further complete one; and an error is reported exactly where the grammar has
   it. After an error no reply is handed out.
   */
  ghost predicate Answers(v: View, v': View, ok: bool, out: Option<Pointer>, r: Option<Reply>)
  {
    if v.error.Some? then v'.error.Some? && out == None
    else if !ok then
      out == None && v'.error.Some? && Stream(v.history.fed) == Outcome(v.history.emitted, v'.error)
    else
      && v'.error == None && v'.history.fed == v.history.fed
      && if out.Some? then
           && r.Some? && Denotes(v'.heap, out.value, |v'.heap|, r.value)
           && v'.history.emitted == v.history.emitted + [r.value]
         else
           && v'.history.emitted == v.history.emitted
           && Stream(v.history.fed) == Outcome(v.history.emitted, None)
  }

  lemma StreamAt(h: History, rest: seq<byte>)
    requires Accounted(h.fed, h.before, h.current, rest) && SplitAt(h.before, h.emitted)
    ensures Stream(h.fed) == Outcome(h.emitted + Stream(h.current + rest).replies, Stream(h.current + rest).error)
  {
    hide Stream;
    assert h.before + h.current + rest == h.before + (h.current + rest);
  }

  /** When the current item is incomplete, the finished replies are all there are. */
  lemma StarvedStream(v: View)
    requires InItem(v) && Resume(v.history.place.context, v.stack[v.ridx].kind, v.buf[v.pos..]) == NeedMore
    ensures Stream(v.history.fed) == Outcome(v.history.emitted, None)
  {
    hide Linked, Accounted, SplitAt, Resume;
    StreamAt(v.history, v.buf[v.pos..]);
  }

  lemma FailedStream(v: View, e: Error)
    requires Buffered(v.buf, v.pos, v.len, v.history) && ParseItem(v.history.current + v.buf[v.pos..], 0) == Fail(e)
    ensures Stream(v.history.fed) == Outcome(v.history.emitted, Some(e))
  {
    hide Accounted, SplitAt, ParseItem;
    StreamAt(v.history, v.buf[v.pos..]);
  }

  lemma EmptyStarves(v: View)
    requires Resting(v) && v.len == 0
    ensures Stream(v.history.fed) == Outcome(v.history.emitted, None)
  {
    assert v.buf[v.pos..] == [];
    if v.ridx == -1 {
      StreamAt(v.history, []);
    } else {
      LinkedLevel(v.history.place.context, v.ridx, v.stack, v.heap, None, |v.heap|);
      StarvedStream(v);
    }
  }

  lemma StreamStep(v: seq<byte>, r: Reply, u: seq<byte>)
    requires ParseItem(v, 0) == Item(r, u)
    ensures Stream(v) == Outcome([r] + Stream(u).replies, Stream(u).error)
  {
  }

  /** A finished reply joins the finished ones. */
  lemma EmitSplit(before: seq<byte>, emitted: seq<Reply>, current: seq<byte>, r: Reply)
    requires SplitAt(before, emitted) && ReachedEnd(current, r)
    ensures SplitAt(before + current, emitted + [r])
  {
    hide Stream, ParseItem;
    forall u ensures Stream(before + current + u) == Outcome(emitted + [r] + Stream(u).replies, Stream(u).error) {
      assert before + current + u == before + (current + u);
      StreamStep(current + u, r, u);
      assert emitted + ([r] + Stream(u).replies) == emitted + [r] + Stream(u).replies;
    }
  }

  /** A reply has just begun, or was in progress. */
  ghost predicate Begun(v0: View, v: View)
  {
    && v.buf == v0.buf && v.pos == v0.pos && v.error == v0.error && v.heap == v0.heap
    && SamePast(v0.history, v.history) && v.history.current == v0.history.current
    && v.history.start == Settled(v0)
    && InItem(v)
  }

  /** Consumed bytes may have been dropped from the buffer. */
  ghost predicate Trimmed(v: View, v': View)
  {
    && v.pos <= |v.buf| && v'.pos <= v'.len == |v'.buf| && v'.buf[v'.pos..] == v.buf[v.pos..]
    && v' == v.(buf := v'.buf, pos := v'.pos, len := v'.len)
  }

  function Emit(h: History, r: Reply): History
  {
    h.(before := h.before + h.current, emitted := h.emitted + [r], current := [])
  }

  lemma CompleteAnswers(v0: View, v: View, v1: View, v2: View)
    requires Begun(v0, v) && Reading(v, v1) && v1.ridx == -1 && AtEnd(v1.heap, v1.reply, v1.history) && Trimmed(v1, v2)
    ensures v2.history.place.Finished?
    ensures var r := v2.history.place.reply;
      var v3 := v2.(reply := None, history := Emit(v2.history, r));
      && Resting(v3)
      && Answers(v0, v3, v3.error == None, if v3.error == None then v2.reply else None, Some(r))
      && HeapKept(v0, v3, v2.reply)
  {
    hide SplitAt, ReachedEnd, Linked, Reached, Denotes, Stream, Kept, Above;
    KeptSizes(v.history.start, v.heap, v1.heap);
    var h, r := v2.history, v2.history.place.reply;
    EmitSplit(h.before, h.emitted, h.current, r);
    assert h.before + h.current + [] + v2.buf[v2.pos..] == h.before + h.current + v2.buf[v2.pos..];
  }

  lemma FailedAnswers(v0: View, v: View, v1: View, v2: View, e: Error)
    requires Begun(v0, v) && Processed(v, v1, -1, Some(e)) && Trimmed(v1, v2)
    ensures var v3 := v2.(reply := None); Resting(v3) && Answers(v0, v3, false, None, None) && HeapKept(v0, v3, None)
  {
    hide SplitAt, Linked, Reached, Denotes, Stream, ParseItem, Kept, Above;
    KeptSizes(v.history.start, v.heap, v1.heap);
    SplitStart();
    FailedStream(v, e);
    assert v2.buf[v2.pos..] == [];
    assert [] + [] + v2.buf[v2.pos..] == [];
  }

  lemma StarvedAnswers(v0: View, v: View, v1: View, v2: View)
    requires Begun(v0, v) && Processed(v, v1, -1, None) && Trimmed(v1, v2)
    ensures Resting(v2) && Answers(v0, v2, true, None, None) && HeapKept(v0, v2, None)
  {
    hide SplitAt, Linked, Reached, Denotes, Stream, Kept, Above;
    KeptSizes(v.history.start, v.heap, v1.heap);
    StarvedStream(v1);
  }

  // ---------------------------------------------------------------------
  // The reader
  // ---------------------------------------------------------------------

  const FRESH: Task := Task(None, -1, -1, 0, None)

  class Reader {
    var error: Option<Error>
    var reply: Option<Pointer>
    var buf: seq<byte>
    var pos: nat
    var len: nat
    const rstack: array<Task>
    var ridx: int
    var heap: seq<Object>

    ghost var history: History

    /** A snapshot of the fields. */
    ghost function Look(): View
      reads this, rstack
    {
      View(buf, pos, len, rstack[..], ridx, heap, reply, error, history)
    }

    ghost predicate Valid()
      reads this, rstack
    {
      rstack.Length == MAX_LEVEL + 1 && Resting(Look())
    }

    constructor ()
      ensures Valid() && fresh(rstack) && error == None && history.fed == [] && history.emitted == []
    {
      error := None;
      reply := None;
      buf := [];
      pos, len := 0, 0;
      ridx := -1;
      rstack := new Task[MAX_LEVEL + 1](_ => FRESH);
      heap := [];
      history := NO_HISTORY;
      new;
      SplitStart();
    }

    method Feed(bytes: seq<byte>)
      requires Valid()
      modifies this
      ensures Valid() && error == old(error) && heap == old(heap) && Settled(Look()) == old(Settled(Look()))
      ensures history.fed == old(history).fed + bytes && history.emitted == old(history).emitted
    {
      hide Linked, Reached, RootPointer, SplitAt, Accounted, Shallow, Above;
      ghost var rest := buf[pos..];
      if |bytes| >= 1 {
        buf := buf + bytes;
        len := |buf|;
        history := history.(fed := history.fed + bytes);
        Fed(old(history), history, rest, buf[pos..], bytes);
      } else {
        assert history.fed + bytes == history.fed;
      }
    }

    /** createStringObject and its siblings: allocate an object and fill the parent's next slot with it. */
    method CreateObject(o: Object) returns (p: Pointer)
      requires rstack.Length == MAX_LEVEL + 1 && 0 <= ridx <= MAX_LEVEL && history.place.At?
      requires Linked(history.place.context, ridx, rstack[..], heap, None, |heap|)
      modifies this
      ensures unchanged(`buf, `pos, `len, `error, `reply, `ridx, `history)
      ensures p == old(|heap|) == |heap| - 1 && heap[p] == o
      ensures forall k :: 0 <= k < p && (ridx == 0 || k != rstack[ridx - 1].obj) ==> heap[k] == old(heap)[k]
      ensures ridx > 0 ==> rstack[ridx - 1].obj < p && SlotSet(old(heap)[rstack[ridx - 1].obj],
          heap[rstack[ridx - 1].obj], rstack[ridx].idx, p)
      ensures rstack[..] == old(rstack[..])
      ensures Linked(history.place.context, ridx, rstack[..], heap, Some(p), p)
    {
      var task := rstack[ridx];
      p := |heap|;
      heap := heap + [o];
      ghost var c := history.place.context;
      if task.parent.Some? {
        var a := rstack[task.parent.value].obj;
        assert heap[a].ArrayObject?;
        assert heap[a].element[task.idx] == None;
        heap := heap[a := ArrayObject(heap[a].element[task.idx := Some(p)])];
        SlotFilled(old(heap), heap, a, c.elements, c.done, p);
        LinkedFrame(c.outer, ridx - 1, rstack[..], rstack[..], old(heap), heap, Some(a), a);
      }
    }

    /** Pop finished arrays off the stack, or go on to the next element. */
    method MoveToNextTask(ghost p: Pointer, ghost r: Reply)
      requires rstack.Length == MAX_LEVEL + 1 && 0 <= ridx <= MAX_LEVEL && history.place.At?
      requires Linked(history.place.context, ridx, rstack[..], heap, Some(p), p)
      requires Denotes(heap, p, |heap|, r)
      modifies this, rstack
      ensures unchanged(`buf, `pos, `len, `error, `reply, `heap)
      ensures history == old(history).(place := Deliver(old(history).place.context, r))
      ensures ridx <= old(ridx) && forall j :: 0 <= j < rstack.Length ==> rstack[..][j].obj == old(rstack[..])[j].obj
      ensures history.place.At? ==>
                && 0 < ridx <= old(ridx)
                && Linked(history.place.context, ridx, rstack[..], heap, None, |heap|)
                && rstack[ridx].kind == None
                && rstack[..][0].obj == old(rstack[..])[0].obj
      ensures history.place.Finished? ==>
                && ridx == -1
                && Denotes(heap, if old(ridx) == 0 then p else old(rstack[..])[0].obj, |heap|, history.place.reply)
    {
      hide Denotes;
      ghost var c, q, x, stack := history.place.context, p, r, rstack[..];
      while ridx >= 0
        invariant 0 <= ridx <= old(ridx)
        invariant rstack[..] == stack
        invariant unchanged(`buf, `pos, `len, `error, `reply, `heap, `history)
        invariant Linked(c, ridx, rstack[..], heap, Some(q), q)
        invariant Denotes(heap, q, |heap|, x)
        invariant Deliver(c, x) == Deliver(history.place.context, r)
        invariant q == if ridx == old(ridx) then p else stack[ridx].obj
      {
        if ridx == 0 {
          ridx := ridx - 1;
          history := history.(place := Finished(x));
          return;
        }
        var cur, prv := rstack[ridx], rstack[ridx - 1];
        assert prv.kind == Some(TArray);
        if cur.idx == prv.elements - 1 {
          ridx := ridx - 1;
          ArrayFinished(heap, prv.obj, c.elements, c.done, q, x);
          c, q, x := c.outer, prv.obj, Array(c.done + [x]);
        } else {
          assert cur.idx < prv.elements;
          rstack[ridx] := cur.(kind := None, elements := -1, idx := cur.idx + 1);
          ElementAdded(heap, prv.obj, c.elements, c.done, q, x);
          history := history.(place := At(In(c.elements, c.done + [x], c.outer)));
          LinkedFrame(c.outer, ridx - 1, stack, rstack[..], heap, heap, Some(prv.obj), prv.obj);
          return;
        }
      }
    }

    /** redisSetReplyReaderError: drop the buffer and the stack, and remember the error. */
    method SetReaderError(e: Error)
      requires rstack.Length == MAX_LEVEL + 1
      modifies this
      ensures Cleared(Look(), e) && unchanged(`heap)
    {
      buf := [];
      pos, len := 0, 0;
      ridx := -1;
      error := Some(e);
      history := NO_HISTORY;
    }

    method ReadLine() returns (p: Option<nat>, n: nat)
      requires pos <= len == |buf|
      modifies this
      ensures unchanged(`buf, `len, `error, `reply, `ridx, `heap, `history)
      ensures rstack[..] == old(rstack[..])
      ensures match FindNewline(buf[old(pos)..])
              case None => p == None && pos == old(pos)
              case Some(i) => p == Some(old(pos)) && n == i && pos == old(pos) + i + 2 <= len
                              && buf[pos..] == buf[old(pos)..][i + 2..]
    {
      var s := SeekNewline(buf[pos..]);
      if s.Some? {
        p, n := Some(pos), s.value;
        pos := pos + n + 2;
      } else {
        p, n := None, 0;
      }
    }

    /**
     The common end of the process functions: create the object, which is the reply if it is the root, and
     move on.
     */
    method StoreItem(o: Object, ghost ty: ReplyType, ghost w: seq<byte>, ghost r: Reply)
      requires rstack.Length == MAX_LEVEL + 1 && 0 <= ridx <= MAX_LEVEL && history.place.At?
      requires Linked(history.place.context, ridx, rstack[..], heap, None, |heap|) && IsLeaf(o, r)
      requires Reached(history.current, history.place.context, Some(ty))
          && Consumes(ty, w, Level(history.place.context), r)
      requires reply == RootPointer(rstack[..], ridx)
      requires history.start <= |heap| && Above(rstack[..], ridx, history.start)
      modifies this, rstack
      ensures Between(rstack[..], ridx, heap, reply, history)
      ensures SamePast(old(history), history) && history.current == old(history).current + w
      ensures unchanged(`buf, `pos, `len, `error)
      ensures history.start == old(history).start && Kept(history.start, old(heap), heap)
    {
      ItemRead(history.current, history.place.context, ty, w, r);
      hide Reached, ReachedEnd, Consumes, Denotes, FrameOk, Linked, Deliver;
      var obj := CreateObject(o);
      LeafDenotes(heap, obj, r);
      history := history.(current := history.current + w);
      if ridx == 0 {
        reply := Some(obj);
      }
      MoveToNextTask(obj, r);
    }

    method ProcessLineItem() returns (rc: int, ghost failure: Option<Error>)
      requires InItem(Look()) && rstack[ridx].kind.Some?
      requires rstack[ridx].kind != Some(TString) && rstack[ridx].kind != Some(TArray)
      modifies this, rstack
      ensures Processed(old(Look()), Look(), rc, failure)
    {
      ghost var v, s, c, ty := Look(), buf[pos..], history.place.context, rstack[ridx].kind.value;
      LinkedLevel(c, ridx, rstack[..], heap, None, |heap|);
      hide Accounted, Reached, Consumes, SplitAt, Denotes, FrameOk, Linked, Resume, ParseItem, FindNewline, ReadNumber,
           Kept, Above;
      hide Between, ReadDigits, ParseTyped, Level, Open, TypeOf, NewlineAt, Deliver, Stream, Processed, Cleared,
           RootPointer;
      var p, n := ReadLine();
      if p == None {
        LineStarves(c, ty, s);
        Waits(v, v);
        return -1, None;
      }
      var o := LineObject(rstack[ridx].kind.value, buf[p.value..], n);
      ghost var r := LineReply(ty, s[..n]);
      if o == None {
        NumberFails(history.current, c, ty, s, n);
        SetReaderError(BadNumber);
        Fails(v, Look(), BadNumber);
        return -1, Some(BadNumber);
      }
      LineConsumed(ty, s, n, Level(c), r.value);
      hide LineReply;
      StoreItem(o.value, ty, s[..n + 2], r.value);
      ItemDone(v, Look(), n + 2);
      return 0, None;
    }

    method ProcessBulkItem() returns (rc: int, ghost failure: Option<Error>)
      requires InItem(Look()) && rstack[ridx].kind == Some(TString)
      modifies this, rstack
      ensures Processed(old(Look()), Look(), rc, failure)
    {
      ghost var v, s, c := Look(), buf[pos..], history.place.context;
      LinkedLevel(c, ridx, rstack[..], heap, None, |heap|);
      hide Accounted, Reached, Consumes, SplitAt, Denotes, FrameOk, Linked, Resume, ParseItem, FindNewline, ReadNumber,
           Kept, Above;
      hide Between, ReadDigits, ParseTyped, Level, Open, TypeOf, NewlineAt, Deliver, Stream, Processed, Cleared,
           RootPointer;
      var o, bytelen;
      ghost var r;
      rc, o, bytelen, r := BulkObject(buf[pos..], Level(c));
      if rc == -1 {
        BulkStarves(c, s);
        Waits(v, v);
        return -1, None;
      }
      if rc == -2 {
        BulkFails(history.current, c, s);
        SetReaderError(BadNumber);
        Fails(v, Look(), BadNumber);
        return -1, Some(BadNumber);
      }
      hide ParseBulk;
      Advance(bytelen);
      StoreItem(o, TString, s[..bytelen], r);
      ItemDone(v, Look(), bytelen);
      return 0, None;
    }

    method ProcessMultiBulkItem() returns (rc: int, ghost failure: Option<Error>)
      requires InItem(Look()) && rstack[ridx].kind == Some(TArray)
      modifies this, rstack
      ensures Processed(old(Look()), Look(), rc, failure)
    {
      ghost var v, s, c := Look(), buf[pos..], history.place.context;
      LinkedLevel(c, ridx, rstack[..], heap, None, |heap|);
      hide Accounted, Reached, Consumes, SplitAt, Denotes, FrameOk, Linked, Resume, ParseItem, FindNewline, ReadNumber,
           Kept, Above;
      hide Between, ReadDigits, ParseTyped, Level, Open, TypeOf, NewlineAt, Deliver, Stream, Processed, Cleared,
           RootPointer;
      if ridx == MAX_LEVEL {
        DepthFails(history.current, c, s);
        SetReaderError(TooDeep);
        Fails(v, Look(), TooDeep);
        return -1, Some(TooDeep);
      }
      var p, n := ReadLine();
      if p == None {
        LineStarves(c, TArray, s);
        Waits(v, v);
        return -1, None;
      }
      var elements := ReadLongLong(buf[p.value..]);
      if elements == None || elements.value < -1 || elements.value > INT_MAX {
        CountFails(history.current, c, s, n);
        SetReaderError(BadNumber);
        Fails(v, Look(), BadNumber);
        return -1, Some(BadNumber);
      }
      StoreArray(elements.value, s, n);
      ItemDone(v, Look(), n + 2);
      return 0, None;
    }

    /** Create the nil or array object of the given size, and read its elements next if it has any. */
    method StoreArray(elements: int, ghost s: seq<byte>, ghost n: nat)
      requires rstack.Length == MAX_LEVEL + 1 && 0 <= ridx < MAX_LEVEL && history.place.At?
      requires Linked(history.place.context, ridx, rstack[..], heap, None, |heap|) && rstack[ridx].kind == Some(TArray)
      requires Reached(history.current, history.place.context, Some(TArray)) && Level(history.place.context) == ridx
      requires FindNewline(s) == Some(n) && ReadNumber(s[..n]) == Some(elements) && -1 <= elements <= INT_MAX
      requires reply == RootPointer(rstack[..], ridx)
      requires history.start <= |heap| && Above(rstack[..], ridx, history.start)
      modifies this, rstack
      ensures n + 2 <= |s|
      ensures Between(rstack[..], ridx, heap, reply, history)
      ensures SamePast(old(history), history) && history.current == old(history).current + s[..n + 2]
      ensures unchanged(`buf, `pos, `len, `error)
      ensures history.start == old(history).start && Kept(history.start, old(heap), heap)
    {
      hide Reached, Consumes, Denotes, FrameOk, Linked, FindNewline, ReadNumber, Between, RootPointer;
      if elements <= 0 {
        ghost var r := if elements == -1 then Nil else Array([]);
        EmptyConsumed(s, n, ridx, r);
        StoreItem(if elements == -1 then NilObject else ArrayObject([]), TArray, s[..n + 2], r);
      } else {
        ArrayEntered(history.current, history.place.context, s, n, elements);
        var obj := CreateObject(ArrayObject(seq(elements, _ => None)));
        PushTask(obj, elements, s[..n + 2]);
      }
    }

    /** Open an array: its task stays on the stack below the task of its first element. */
    method PushTask(obj: Pointer, elements: nat, ghost w: seq<byte>)
      requires rstack.Length == MAX_LEVEL + 1 && 0 <= ridx < MAX_LEVEL && history.place.At?
      requires Linked(history.place.context, ridx, rstack[..], heap, Some(obj), obj)
          && rstack[ridx].kind == Some(TArray)
      requires elements > 0 && obj == |heap| - 1 && heap[obj] == ArrayObject(seq(elements, _ => None))
      requires Reached(history.current + w, In(elements, [], history.place.context), None)
      requires reply == RootPointer(rstack[..], ridx)
      requires history.start <= obj && Above(rstack[..], ridx, history.start)
      modifies this, rstack
      ensures Between(rstack[..], ridx, heap, reply, history)
      ensures SamePast(old(history), history) && history.current == old(history).current + w
      ensures unchanged(`buf, `pos, `len, `error, `heap) && history.start == old(history).start
    {
      hide Reached, ReachedEnd, Denotes;
      ghost var c, stack := history.place.context, rstack[..];
      var root := ridx == 0;
      rstack[ridx] := rstack[ridx].(elements := elements, obj := obj);
      ridx := ridx + 1;
      rstack[ridx] := Task(None, -1, 0, 0, Some(ridx - 1));
      if root {
        reply := Some(obj);
      }
      LinkedFrame(c, ridx - 1, stack, rstack[..], heap, heap, Some(obj), obj);
      history := history.(current := history.current + w, place := At(In(elements, [], c)));
    }

    method ProcessItem() returns (rc: int, ghost failure: Option<Error>)
      requires InItem(Look()) && rstack.Length == MAX_LEVEL + 1 && Shallow(rstack[..], ridx)
      modifies this, rstack
      ensures Processed(old(Look()), Look(), rc, failure)
    {
      ghost var v := Look();
      hide Linked, Reached, RootPointer, SplitAt, Accounted, Cleared, Resume, ParseItem, TypeOf, Above;
      KeptSame(v.history.start, v.heap);
      if rstack[ridx].kind == None {
        if len - pos >= 1 {
          var b := buf[pos];
          if TypeOf(b) == None {
            TypeFails(history.current, history.place.context, buf[pos..]);
            SetReaderError(BadType(b));
            Fails(v, Look(), BadType(b));
            return -1, Some(BadType(b));
          }
          ReadType(TypeOf(b).value);
        } else {
          NothingStarves(v);
          Waits(v, v);
          return -1, None;
        }
      }
      ghost var v' := Look();
      assert Reading(v, v') && InItem(v');
      hide Reading, InItem, Processed, Shallow;
      match rstack[ridx].kind.value
      case TError => rc, failure := ProcessLineItem();
      case TStatus => rc, failure := ProcessLineItem();
      case TInteger => rc, failure := ProcessLineItem();
      case TString => rc, failure := ProcessBulkItem();
      case TArray => rc, failure := ProcessMultiBulkItem();
      ReadingThenProcessed(v, v', Look(), rc, failure);
    }

    /** Consume a type byte. */
    method ReadType(ty: ReplyType)
      requires InItem(Look()) && rstack.Length == MAX_LEVEL + 1 && rstack[ridx].kind == None
      requires pos < len && TypeOf(buf[pos]) == Some(ty)
      modifies this, rstack
      ensures Reading(old(Look()), Look()) && InItem(Look()) && rstack[ridx].kind == Some(ty)
    {
      hide Linked, Reached, Resume, ParseItem, SplitAt, Accounted, Kept, Above;
      ghost var v, c, stack := Look(), history.place.context, rstack[..];
      KeptSame(v.history.start, v.heap);
      LinkedLevel(c, ridx, rstack[..], heap, None, |heap|);
      TypeRead(history.current, c, buf[pos]);
      Consumed(history, buf[pos..], 1);
      assert buf[pos..][..1] == [buf[pos]] && buf[pos..][1..] == buf[pos + 1..];
      rstack[ridx] := rstack[ridx].(kind := Some(ty));
      LinkedFrame(c, ridx, stack, rstack[..], heap, heap, None, |heap|);
      AboveSame(stack, rstack[..], ridx, ridx, history.start);
      history := history.(current := history.current + [buf[pos]]);
      pos := pos + 1;
    }

    /** Start a reply when none is in progress. */
    method BeginReply()
      requires Valid()
      modifies this, rstack
      ensures InItem(Look()) && Shallow(rstack[..], ridx)
      ensures unchanged(`buf, `pos, `len, `error, `heap)
      ensures SamePast(old(history), history) && history.current == old(history).current
      ensures history.start == old(Settled(Look()))
    {
      if ridx == -1 {
        rstack[0] := FRESH;
        ridx := 0;
        history := history.(place := At(Root), start := |heap|);
        ReachedStart();
      }
    }

    /** Process items until the reply is complete, in error, or short of bytes. */
    method ProcessItems() returns (rc: int, ghost failure: Option<Error>)
      requires InItem(Look()) && rstack.Length == MAX_LEVEL + 1 && Shallow(rstack[..], ridx)
      modifies this, rstack
      ensures if rc == 0 then failure == None && Reading(old(Look()), Look()) && ridx == -1
          && AtEnd(heap, reply, history)
              else Processed(old(Look()), Look(), rc, failure)
    {
      ghost var v := Look();
      rc, failure := 0, None;
      KeptSame(v.history.start, v.heap);
      hide Linked, Reached, AtEnd, SplitAt, Accounted, ParseItem, Resume, Cleared, Kept, Above;
      while ridx >= 0
        invariant rc == 0 && failure == None && Reading(v, Look())
        invariant -1 <= ridx && Between(rstack[..], ridx, heap, reply, history)
        decreases len - pos
      {
        ghost var v' := Look();
        rc, failure := ProcessItem();
        hide Reading, Processed;
        ReadingThenProcessed(v, v', Look(), rc, failure);
        if rc < 0 {
          return rc, failure;
        }
        ProcessedIsReading(v', Look());
        ReadingTrans(v, v', Look());
      }
    }

    /** redisReplyReaderGetReply. `ok` is false for REDIS_ERR. */
    method GetReply() returns (ok: bool, out: Option<Pointer>, ghost r: Option<Reply>)
      requires Valid()
      modifies this, rstack
      ensures Valid() && Answers(old(Look()), Look(), ok, out, r) && HeapKept(old(Look()), Look(), out)
    {
      ghost var v0 := Look();
      hide Linked, Reached, RootPointer, SplitAt, Accounted, Resume, ParseItem, Stream, Denotes, Kept, Above;
      out, r := None, None;
      if len == 0 {
        EmptyStarves(v0);
        KeptSame(Settled(v0), v0.heap);
        return true, None, None;
      }
      BeginReply();
      ghost var v := Look();
      var rc;
      ghost var failure;
      rc, failure := ProcessItems();
      ghost var v' := Look();
      hide Reading, Processed, Answers, AtEnd, Stream, HeapKept;
      if pos >= 1024 {
        DiscardRead();
      }
      ghost var v2 := Look();
      if ridx == -1 {
        var aux := reply;
        reply := None;
        if rc == 0 {
          CompleteAnswers(v0, v, v', v2);
          r := Some(history.place.reply);
          history := Emit(history, r.value);
        } else {
          FailedAnswers(v0, v, v', v2, failure.value);
        }
        if error.Some? {
          return false, None, r;
        }
        out := aux;
      } else {
        StarvedAnswers(v0, v, v', v2);
      }
      return true, out, r;
    }

    /** Drop the consumed part of the buffer. */
    method DiscardRead()
      requires pos <= len == |buf|
      modifies this
      ensures unchanged(`error, `reply, `ridx, `heap, `history) && rstack[..] == old(rstack[..])
      ensures pos == 0 && len == |buf| && buf == old(buf[pos..]) == buf[pos..]
    {
      SdsRangeDrops(buf, pos);
      buf := SdsRange(buf, pos, -1);
      pos := 0;
      len := |buf|;
    }

    /** Move the cursor. */
    method Advance(n: nat)
      requires pos + n <= len == |buf|
      modifies this
      ensures unchanged(`buf, `len, `error, `reply, `ridx, `heap, `history) && rstack[..] == old(rstack[..])
      ensures pos == old(pos) + n && buf[pos..] == buf[old(pos)..][n..]
    {
      pos := pos + n;
    }
  }

  // ---------------------------------------------------------------------
  // Any fragmentation
  // ---------------------------------------------------------------------

  function Flatten(fragments: seq<seq<byte>>): seq<byte>
  {
    if |fragments| == 0 then [] else Flatten(fragments[..|fragments| - 1]) + fragments[|fragments| - 1]
  }

  lemma {:induction false} FlattenPrefix(fragments: seq<seq<byte>>, i: nat) returns (rest: seq<byte>)
    requires i <= |fragments|
    ensures Flatten(fragments) == Flatten(fragments[..i]) + rest
    decreases |fragments|
  {
    if i == |fragments| {
      assert fragments[..i] == fragments;
      rest := [];
    } else {
      var n := |fragments| - 1;
      var r := FlattenPrefix(fragments[..n], i);
      assert fragments[..n][..i] == fragments[..i];
      rest := r + fragments[n];
    }
  }

  /** The objects handed out are the replies, and lie below `high`, where nothing changes any more. */
  ghost predicate Delivered(heap: seq<Object>, high: nat, out: seq<Pointer>, replies: seq<Reply>)
  {
    |out| == |replies| && forall i :: 0 <= i < |out| ==> Denotes(heap, out[i], high, replies[i])
  }

  lemma DeliveredStays(heap: seq<Object>, heap': seq<Object>, high: nat, high': nat, out: seq<Pointer>,
          replies: seq<Reply>)
    requires Delivered(heap, high, out, replies) && Kept(high, heap, heap') && high <= high' <= |heap'|
    ensures Delivered(heap', high', out, replies)
  {
    forall i | 0 <= i < |out| ensures Denotes(heap', out[i], high', replies[i]) {
      DenotesFrame(heap, heap', out[i], 0, high, high', replies[i]);
    }
  }

  lemma DeliveredMore(heap: seq<Object>, high: nat, out: seq<Pointer>, replies: seq<Reply>, p: Pointer, r: Reply)
    requires Delivered(heap, high, out, replies) && Denotes(heap, p, high, r)
    ensures Delivered(heap, high, out + [p], replies + [r])
  {
    hide Denotes;
  }

  lemma DeliveredAll(heap: seq<Object>, high: nat, a: seq<Pointer>, x: seq<Reply>, b: seq<Pointer>, y: seq<Reply>)
    requires Delivered(heap, high, a, x) && Delivered(heap, high, b, y)
    ensures Delivered(heap, high, a + b, x + y)
  {
    hide Denotes;
  }

  /** A call hands out one reply more, or none; those handed out before stay what they are. */
  lemma HandedOut(v: View, v': View, ok: bool, p: Option<Pointer>, r: Option<Reply>, out: seq<Pointer>,
          replies: seq<Reply>)
    requires Answers(v, v', ok, p, r) && HeapKept(v, v', p) && v.error == None
    requires Delivered(v.heap, Settled(v), out, replies)
    ensures if p.Some? then r.Some? && Delivered(v'.heap, Settled(v'), out + [p.value], replies + [r.value])
            else Delivered(v'.heap, Settled(v'), out, replies)
  {
    hide Denotes, Stream, Kept;
    DeliveredStays(v.heap, v'.heap, Settled(v), Settled(v'), out, replies);
    if p.Some? {
      DeliveredMore(v'.heap, Settled(v'), out, replies, p.value, r.value);
    }
  }

  /** Take replies until there is none left or an error is met. */
  method TakeReplies(reader: Reader) returns (out: seq<Pointer>, ghost replies: seq<Reply>)
    requires reader.Valid() && reader.error == None
    modifies reader, reader.rstack
    ensures reader.Valid()
    ensures var h := old(reader.history);
      && Stream(h.fed) == Outcome(h.emitted + replies, reader.error)
      && (reader.error == None ==> reader.history.fed == h.fed && reader.history.emitted == h.emitted + replies)
    ensures Delivered(reader.heap, Settled(reader.Look()), out, replies)
    ensures Kept(old(Settled(reader.Look())), old(reader.heap), reader.heap)
    ensures old(Settled(reader.Look())) <= Settled(reader.Look()) <= |reader.heap|
  {
    ghost var h, v0 := reader.history, reader.Look();
    SettledWithin(v0);
    hide Resting, Stream, Denotes, Answers, HeapKept, Kept, Delivered, Settled;
    out, replies := [], [];
    NothingDelivered(reader.heap, Settled(v0));
    KeptSame(Settled(v0), v0.heap);
    ghost var limit := |Stream(h.fed).replies|;
    while true
      invariant reader.Valid() && reader.error == None
      invariant reader.history.fed == h.fed && reader.history.emitted == h.emitted + replies
      invariant Delivered(reader.heap, Settled(reader.Look()), out, replies)
      invariant Kept(Settled(v0), v0.heap, reader.heap) && Settled(v0) <= Settled(reader.Look()) <= |reader.heap|
      decreases limit - |reader.history.emitted|
    {
      ghost var v := reader.Look();
      EmittedWithin(v);
      var ok, p;
      ghost var r;
      ok, p, r := reader.GetReply();
      ghost var v' := reader.Look();
      EmittedWithin(v');
      HandedOut(v, v', ok, p, r, out, replies);
      StillKept(v0, v, v', p);
      AnswerIs(v, v', ok, p, r);
      if !ok || p == None {
        return;
      }
      AppendReply(h.emitted, replies, r.value);
      out, replies := out + [p.value], replies + [r.value];
    }
  }

  lemma SettledWithin(v: View)
    requires Resting(v)
    ensures Settled(v) <= |v.heap|
  {
  }

  lemma NothingDelivered(heap: seq<Object>, high: nat)
    ensures Delivered(heap, high, [], [])
  {
  }

  lemma StillKept(v0: View, v: View, v': View, p: Option<Pointer>)
    requires Kept(Settled(v0), v0.heap, v.heap) && Settled(v0) <= Settled(v) && HeapKept(v, v', p)
    ensures Kept(Settled(v0), v0.heap, v'.heap) && Settled(v0) <= Settled(v') <= |v'.heap|
  {
  }

  lemma AnswerIs(v: View, v': View, ok: bool, p: Option<Pointer>, r: Option<Reply>)
    requires Answers(v, v', ok, p, r) && v.error == None
    ensures if !ok then p == None && v'.error.Some? && Stream(v.history.fed) == Outcome(v.history.emitted, v'.error)
            else v'.error == None && v'.history.fed == v.history.fed
    ensures ok && p.Some? ==> r.Some? && v'.history.emitted == v.history.emitted + [r.value]
    ensures ok && p.None? ==>
        v'.history.emitted == v.history.emitted && Stream(v.history.fed) == Outcome(v.history.emitted, None)
  {
    hide Stream, Denotes;
  }

  /** Feed some bytes, then take the replies they complete. */
  method Receive(reader: Reader, bytes: seq<byte>) returns (out: seq<Pointer>, ghost replies: seq<Reply>)
    requires reader.Valid() && reader.error == None
    modifies reader, reader.rstack
    ensures reader.Valid()
    ensures Stream(old(reader.history.fed) + bytes) == Outcome(old(reader.history.emitted) + replies, reader.error)
    ensures reader.error == None ==>
              && reader.history.fed == old(reader.history.fed) + bytes
              && reader.history.emitted == old(reader.history.emitted) + replies
    ensures Delivered(reader.heap, Settled(reader.Look()), out, replies)
    ensures Kept(old(Settled(reader.Look())), old(reader.heap), reader.heap)
    ensures old(Settled(reader.Look())) <= Settled(reader.Look()) <= |reader.heap|
  {
    hide Stream, Resting, Kept, Delivered, Settled;
    reader.Feed(bytes);
    out, replies := TakeReplies(reader);
  }

  lemma AppendReply(x: seq<Reply>, y: seq<Reply>, r: Reply)
    ensures x + (y + [r]) == x + y + [r]
  {
  }

  lemma FlattenStep(fragments: seq<seq<byte>>, i: nat)
    requires i < |fragments|
    ensures Flatten(fragments[..i + 1]) == Flatten(fragments[..i]) + fragments[i]
  {
    assert fragments[..i + 1][..i] == fragments[..i];
  }

  /** The finished replies are among those of the bytes fed. */
  lemma EmittedWithin(v: View)
    requires Resting(v)
    ensures |v.history.emitted| <= |Stream(v.history.fed).replies|
  {
    hide Stream, InReply;
    StreamAt(v.history, v.buf[v.pos..]);
  }

  /**
   Whatever fragments the bytes come in, the objects handed out are, at the end, the replies of the
   grammar on all the bytes together, and the first error is the grammar's.
   */
  method ReadFragments(fragments: seq<seq<byte>>) returns (heap: seq<Object>, out: seq<Pointer>, error: Option<Error>)
    ensures var want := Stream(Flatten(fragments));
      error == want.error && Delivered(heap, |heap|, out, want.replies)
  {
    var reader := new Reader();
    ghost var replies: seq<Reply> := [];
    out, error := [], None;
    var i := 0;
    EmptyStream();
    hide Stream, Resting, Flatten, Delivered, Settled, Kept;
    assert fragments[..0] == [];
    NothingDelivered(reader.heap, Settled(reader.Look()));
    while i < |fragments| && error.None?
      invariant 0 <= i <= |fragments|
      invariant reader.Valid() && fresh(reader) && fresh(reader.rstack) && error == reader.error
      invariant error == None ==> reader.history.fed == Flatten(fragments[..i]) && reader.history.emitted == replies
      invariant Outcome(replies, error) == Stream(Flatten(fragments[..i]))
      invariant Delivered(reader.heap, Settled(reader.Look()), out, replies)
      decreases |fragments| - i
    {
      FlattenStep(fragments, i);
      ghost var v := reader.Look();
      var more;
      ghost var moreReplies;
      more, moreReplies := Receive(reader, fragments[i]);
      DeliveredStays(v.heap, reader.heap, Settled(v), Settled(reader.Look()), out, replies);
      DeliveredAll(reader.heap, Settled(reader.Look()), out, replies, more, moreReplies);
      i := i + 1;
      out, replies, error := out + more, replies + moreReplies, reader.error;
    }
    SettledWithin(reader.Look());
    heap := reader.heap;
    KeptSame(Settled(reader.Look()), heap);
    DeliveredStays(heap, heap, Settled(reader.Look()), |heap|, out, replies);
    if error.Some? {
      ErrorStays(fragments, i);
    } else {
      assert fragments[..i] == fragments;
    }
  }

  lemma ErrorStays(fragments: seq<seq<byte>>, i: nat)
    requires i <= |fragments| && Stream(Flatten(fragments[..i])).error.Some?
    ensures Stream(Flatten(fragments)) == Stream(Flatten(fragments[..i]))
  {
    hide Stream, Flatten;
    var rest := FlattenPrefix(fragments, i);
    StreamExtends(Flatten(fragments[..i]), rest);
  }

  lemma EmptyStream()
    ensures Flatten([]) == [] && Stream([]) == Outcome([], None)
  {
  }
}
