/**
 The HTTP parser as the source runs it: one call works through a buffer with five marks for the
 data being collected, inner loops over header names and values, a search for the end of a plain
 value, and bodies taken in bulk. It does what the automaton of HttpStates does byte by byte.
 */
module HttpParser {

  import opened Base
  import opened HttpStates

  // ---------------------------------------------------------------------
  // Callbacks
  // ---------------------------------------------------------------------

  /** A callback made: a notification, or a piece of data. */
  datatype Call = Note(note: Notice) | Give(kind: Kind, text: seq<byte>)

  function Bytes(k: Kind, t: seq<byte>): seq<Event>
  {
    seq(|t|, i requires 0 <= i < |t| => Heard(k, t[i]))
  }

  function FlatOne(c: Call): seq<Event>
  {
    if c.Note? then [Told(c.note)] else Bytes(c.kind, c.text)
  }

  /** The calls with their data taken byte by byte. */
  function Flat(cs: seq<Call>): seq<Event>
  {
    if |cs| == 0 then [] else Flat(cs[..|cs| - 1]) + FlatOne(cs[|cs| - 1])
  }

  lemma FlatMore(cs: seq<Call>, c: Call)
    ensures Flat(cs + [c]) == Flat(cs) + FlatOne(c)
  {
    assert (cs + [c])[..|cs|] == cs;
  }

  // ---------------------------------------------------------------------
  // Marks
  // ---------------------------------------------------------------------

  datatype Marks = Marks(field: Option<nat>, value: Option<nat>, url: Option<nat>, body: Option<nat>,
      status: Option<nat>)

  const NO_MARKS := Marks(None, None, None, None, None)

  function Get(m: Marks, k: Kind): Option<nat>
  {
    match k
    case Field => m.field
    case Value => m.value
    case Url => m.url
    case Body => m.body
    case Status => m.status
  }

  function Put(m: Marks, k: Kind, v: Option<nat>): Marks
  {
    match k
    case Field => m.(field := v)
    case Value => m.(value := v)
    case Url => m.(url := v)
    case Body => m.(body := v)
    case Status => m.(status := v)
  }

  function Piece(k: Kind, data: seq<byte>, mark: Option<nat>, p: nat): seq<Event>
  {
    if mark.Some? && mark.value <= p <= |data| then Bytes(k, data[mark.value..p]) else []
  }

  /** The data marked and not handed over yet, in the order of the final callbacks. */
  function Pending(data: seq<byte>, m: Marks, p: nat): seq<Event>
  {
    Piece(Field, data, m.field, p) + Piece(Value, data, m.value, p) + Piece(Url, data, m.url, p)
    + Piece(Body, data, m.body, p) + Piece(Status, data, m.status, p)
  }

  predicate AfterChunk(s: State)
  {
    s.Chunk? && s.chunk.ChunkDataAlmostDone?
  }

  predicate Upto(mark: Option<nat>, p: nat)
  {
    mark.Some? ==> mark.value <= p
  }

  /**
   A mark is set exactly while its data is collected; the mark of a body at the end of the bytes, or until the
   CR after a chunk.
   */
  predicate MarksOk(m: Marks, s: State, p: nat, n: nat)
  {
    && (m.field.Some? <==> s.HeaderField?) && (m.value.Some? <==> s.HeaderValue?)
    && (m.url.Some? <==> s.InUrl?) && (m.status.Some? <==> s.ResStatus?)
    && (m.body.Some? ==> AfterChunk(s) || (p == n && InBody(s)))
    && AllUpto(m, p)
  }

  predicate AllUpto(m: Marks, p: nat)
  {
    Upto(m.field, p) && Upto(m.value, p) && Upto(m.url, p) && Upto(m.body, p) && Upto(m.status, p)
  }

  function Marked(m: Marks): nat
  {
    (if m.field.Some? then 1 else 0) + (if m.value.Some? then 1 else 0) + (if m.url.Some? then 1 else 0)
    + (if m.body.Some? then 1 else 0) + (if m.status.Some? then 1 else 0)
  }

  /** At most one mark is set. */
  lemma OneMark(m: Marks, s: State, p: nat, n: nat)
    requires MarksOk(m, s, p, n)
    ensures Marked(m) <= 1
  {
  }

  lemma PendingNone(data: seq<byte>, m: Marks, s: State, p: nat)
    requires MarksOk(m, s, p, |data|) && Collecting(s).None? && m.body.None?
    ensures Pending(data, m, p) == [] && m == NO_MARKS
  {
  }

  lemma PendingOf(data: seq<byte>, m: Marks, s: State, p: nat, k: Kind)
    requires MarksOk(m, s, p, |data|) && p <= |data|
    requires Collecting(s) == Some(k) || (k == Body && m.body.Some?)
    ensures Get(m, k).Some? && Get(m, k).value <= p && m == Put(NO_MARKS, k, Get(m, k))
    ensures Pending(data, m, p) == Bytes(k, data[Get(m, k).value..p])
  {
  }

  lemma BytesGrow(k: Kind, data: seq<byte>, from: nat, p: nat)
    requires from <= p < |data|
    ensures Bytes(k, data[from..p + 1]) == Bytes(k, data[from..p]) + [Heard(k, data[p])]
  {
  }

  lemma BytesOne(k: Kind, data: seq<byte>, p: nat)
    requires p < |data|
    ensures Bytes(k, data[p..p + 1]) == [Heard(k, data[p])]
  {
  }

  /** The MARK a pass makes. */
  function MarkKind(s: State, ch: byte): Option<Kind>
  {
    match s
    case ResLine(r) => if r.ResStatusStart? && ch != CR && ch != LF then Some(Status) else None
    case ReqLine(r) => if r.ReqSpacesBeforeUrl? && !Is(ch, ' ') then Some(Url) else None
    case Head(h) =>
      if h.HeaderFieldStart? then (if Token(ch) == 0 then None else Some(Field))
      else if h.HeaderValueStart? then Some(Value)
      else if h.HeaderValueDiscardLws? then (if Is(ch, ' ') || ch == 9 then None else Some(Value))
      else if h.HeaderValueDiscardWs? then (if Is(ch, ' ') || ch == 9 || ch == CR
          || ch == LF then None else Some(Value))
      else None
    case _ => None
  }

  /** The data a pass hands over, up to the byte it is at. */
  function FlushKind(s: State, ch: byte): Option<Kind>
  {
    match s
    case ResStatus => if ch == CR || ch == LF then Some(Status) else None
    case InUrl(_) => if Is(ch, ' ') || ch == CR || ch == LF then Some(Url) else None
    case Head(h) => if h.HeaderValueDiscardLws? && !Is(ch, ' ') && ch != 9 then Some(Value) else None
    case Chunk(c) => if c.ChunkDataAlmostDone? && ch == CR then Some(Body) else None
    case _ => None
  }

  /** The states that have no loop of their own. */
  predicate Ordinary(s: State)
  {
    !s.HeaderField? && !s.HeaderValue? && !InBody(s)
  }

  predicate Idle(s: State)
  {
    Collecting(s).None? && !AfterChunk(s)
  }

  /** The marks and callbacks that go with the moves between what is collected. */
  predicate ActsRight(s: State, ch: byte, o: Outcome)
  {
    var was, is' := Collecting(s), Collecting(o.f.state);
    match o.flow
    case Next =>
      (!AfterChunk(o.f.state)
       && (was.Some? || is'.Some? || AfterChunk(s) ==> |o.notes| == 0) && (was.Some? && is'.Some? ==> was == is')
       && MarkKind(s, ch) == (if was.None? then is' else None)
       && FlushKind(s, ch) == (if AfterChunk(s) then Some(Body) else if is'.None? then was else None))
    case Again =>
      (Idle(s) && Idle(o.f.state) && Ordinary(o.f.state)
       && MarkKind(s, ch) == FlushKind(s, ch) == if s == Head(HeaderValueDiscardLws) then Some(Value) else None)
    case Leave => Idle(s) && MarkKind(s, ch).None? && FlushKind(s, ch).None?
    case Fail => |o.notes| == 0
  }

  lemma PrefaceActsRight(f: Fields, ch: byte)
    requires f.state.ResLine? && InPreface(f.state.res)
    ensures ActsRight(f.state, ch, ActResLine(f, ch))
  {
    hide Is;
  }

  lemma ResVersionActsRight(f: Fields, ch: byte)
    requires f.state.ResLine? && !InPreface(f.state.res)
    ensures ActsRight(f.state, ch, ActResLine(f, ch))
  {
    hide Is, IsNum, Digit;
  }

  lemma ResLineActsRight(f: Fields, ch: byte)
    requires f.state.ResLine?
    ensures ActsRight(f.state, ch, ActResLine(f, ch))
  {
    hide ActResLine, ActsRight;
    if InPreface(f.state.res) {
      PrefaceActsRight(f, ch);
    } else {
      ResVersionActsRight(f, ch);
    }
  }

  lemma UrlActsRight(f: Fields, ch: byte)
    requires f.state.InUrl?
    ensures ActsRight(f.state, ch, ActUrl(f, ch))
  {
    hide ParseUrlChar;
    ParseUrlStops(f.state.url, ch);
  }

  /** A character that ends the URL is not part of one. */
  lemma ParseUrlStops(u: UrlState, ch: byte)
    ensures Is(ch, ' ') || ch == CR || ch == LF ==> ParseUrlChar(Some(u), ch).None?
  {
  }

  lemma ReqVersionActsRight(f: Fields, ch: byte)
    requires f.state.ReqLine? && InReqVersion(f.state.req)
    ensures ActsRight(f.state, ch, ActReqLine(f, ch))
  {
    hide Is, IsNum, Digit, ParseUrlChar, ActMethod;
  }

  lemma ReqStartActsRight(f: Fields, ch: byte)
    requires f.state.ReqLine? && !InReqVersion(f.state.req)
    ensures ActsRight(f.state, ch, ActReqLine(f, ch))
  {
    hide Is, Fresh, ParseUrlChar, SwitchMethod, FirstMethod, MethodString, CharAt, IsAlpha;
  }

  lemma ReqLineActsRight(f: Fields, ch: byte)
    requires f.state.ReqLine?
    ensures ActsRight(f.state, ch, ActReqLine(f, ch))
  {
    hide ActReqLine, ActsRight;
    if InReqVersion(f.state.req) {
      ReqVersionActsRight(f, ch);
    } else {
      ReqStartActsRight(f, ch);
    }
  }

  lemma HeadActsRight(f: Fields, ch: byte)
    requires f.state.Head?
    ensures ActsRight(f.state, ch, ActHead(f, ch))
  {
    hide ActsRight;
    match f.state.head
    case HeaderFieldStart => FieldStartActsRight(f, ch);
    case HeaderValueDiscardWs => BlankActsRight(f, ch);
    case HeaderValueStart => BlankActsRight(f, ch);
    case HeaderValueDiscardLws => LineEndActsRight(f, ch);
    case HeaderValueLws => LineEndActsRight(f, ch);
    case HeaderAlmostDone => LineEndActsRight(f, ch);
    case HeaderValueDiscardWsAlmostDone => LineEndActsRight(f, ch);
    case HeadersAlmostDone => HeadersAlmostDoneActsRight(f, ch);
    case HeadersDone => HeadersDoneActsRight(f, ch);
  }

  lemma BlankActsRight(f: Fields, ch: byte)
    requires f.state == Head(HeaderValueDiscardWs) || f.state == Head(HeaderValueStart)
    ensures ActsRight(f.state, ch, ActHead(f, ch))
  {
    hide ActValueStart;
    ValueStartActsRight(f, ch);
  }

  lemma LineEndActsRight(f: Fields, ch: byte)
    requires f.state.Head?
    requires var h := f.state.head;
      h.HeaderValueDiscardLws? || h.HeaderValueLws? || h.HeaderAlmostDone? || h.HeaderValueDiscardWsAlmostDone?
    ensures ActsRight(f.state, ch, ActHead(f, ch))
  {
    hide Flagged, Is;
    FlaggedKeeps(f);
  }

  lemma FieldStartActsRight(f: Fields, ch: byte)
    ensures f.state == Head(HeaderFieldStart) ==> ActsRight(f.state, ch, ActFieldStart(f, ch))
  {
    assert Token(CR) == 0 && Token(LF) == 0;
    hide Token, FirstOfName;
  }

  lemma HeadersAlmostDoneActsRight(f: Fields, ch: byte)
    ensures f.state == Head(HeadersAlmostDone) ==> ActsRight(f.state, ch, ActHeadersAlmostDone(f, ch))
  {
  }

  lemma ValueStartActsRight(f: Fields, ch: byte)
    ensures var o := ActValueStart(f, ch);
      (o.flow.Next? || o.flow.Fail?) && o.f.state.HeaderValue? && |o.notes| == 0
  {
    hide Lower, FirstOfConnection;
  }

  lemma HeadersDoneActsRight(f: Fields, ch: byte)
    ensures f.state == Head(HeadersDone) ==> ActsRight(f.state, ch, ActHeadersDone(f, ch))
  {
    hide ShouldKeepAlive, HasBody, NeedsEof;
  }

  lemma ChunkActsRight(f: Fields, ch: byte)
    requires f.state.Chunk?
    ensures ActsRight(f.state, ch, ActChunk(f, ch))
  {
    hide Unhex, Is;
  }

  lemma EveryActRight(f: Fields, ch: byte)
    requires Ordinary(f.state)
    ensures ActsRight(f.state, ch, Act(f, ch))
  {
    hide ActResLine, ActReqLine, ActUrl, ActHead, ActChunk;
    match f.state
    case ResLine(_) => ResLineActsRight(f, ch);
    case ReqLine(_) => ReqLineActsRight(f, ch);
    case InUrl(_) => UrlActsRight(f, ch);
    case Head(_) => HeadActsRight(f, ch);
    case Chunk(_) => ChunkActsRight(f, ch);
    case _ =>
  }

  // ---------------------------------------------------------------------
  // A pass with its marks and callbacks
  // ---------------------------------------------------------------------

  /** Bodies have bytes to come; a chunk size starts a new count. */
  predicate Sound(s: Spot)
  {
    (s.f.state.BodyIdentity? || s.f.state.ChunkData? ==> s.f.length > 0)
    && (s.f.state == Chunk(ChunkSizeStart) ==> s.seen == 0)
  }

  function WithMark(m: Marks, k: Option<Kind>, p: nat): Marks
  {
    if k.Some? && Get(m, k.value).None? then Put(m, k.value, Some(p)) else m
  }

  /** CALLBACK_DATA: what it hands over. */
  function Handed(data: seq<byte>, m: Marks, k: Option<Kind>, p: nat): seq<Call>
  {
    if k.Some? && Get(m, k.value).Some? && Get(m, k.value).value <= p <= |data|
    then [Give(k.value, data[Get(m, k.value).value..p])] else []
  }

  function WithoutMark(m: Marks, k: Option<Kind>): Marks
  {
    if k.Some? then Put(m, k.value, None) else m
  }

  function NoteCalls(ns: seq<Notice>): seq<Call>
  {
    if |ns| == 0 then [] else [Note(ns[0])] + NoteCalls(ns[1..])
  }

  lemma {:induction false} FlatNotes(cs: seq<Call>, ns: seq<Notice>)
    ensures Flat(cs + NoteCalls(ns)) == Flat(cs) + Notes(ns)
    decreases |ns|
  {
    hide Flat;
    if |ns| == 0 {
      assert cs + [] == cs;
      assert Flat(cs) + [] == Flat(cs);
    } else {
      FlatMore(cs, Note(ns[0]));
      FlatNotes(cs + [Note(ns[0])], ns[1..]);
      assert cs + ([Note(ns[0])] + NoteCalls(ns[1..])) == cs + [Note(ns[0])] + NoteCalls(ns[1..]);
      assert Flat(cs) + ([Told(ns[0])] + Notes(ns[1..])) == Flat(cs) + [Told(ns[0])] + Notes(ns[1..]);
    }
  }

  /** What the callbacks have been told, and what is marked for them. */
  function Known(data: seq<byte>, calls: seq<Call>, m: Marks, p: nat): seq<Event>
  {
    Flat(calls) + Pending(data, m, p)
  }

  /** Nothing marked: what is known is what was told. */
  lemma KnownIdle(data: seq<byte>, calls: seq<Call>, m: Marks, s: State, p: nat)
    requires MarksOk(m, s, p, |data|) && Collecting(s).None? && m.body.None?
    ensures Known(data, calls, m, p) == Flat(calls) && m == NO_MARKS
  {
    PendingNone(data, m, s, p);
    assert Flat(calls) + [] == Flat(calls);
  }

  /** Handing over what is marked tells what was known. */
  lemma KnownHanded(data: seq<byte>, calls: seq<Call>, m: Marks, s: State, p: nat, k: Kind)
    requires MarksOk(m, s, p, |data|) && p <= |data|
    requires Collecting(s) == Some(k) || (k == Body && m.body.Some?)
    ensures Flat(calls + Handed(data, m, Some(k), p)) == Known(data, calls, m, p)
    ensures WithoutMark(m, Some(k)) == NO_MARKS
  {
    PendingOf(data, m, s, p, k);
    FlatMore(calls, Give(k, data[Get(m, k).value..p]));
  }

  /** One more byte of the data being collected. */
  lemma KnownGrows(data: seq<byte>, calls: seq<Call>, m: Marks, s: State, p: nat, k: Kind)
    requires MarksOk(m, s, p, |data|) && p < |data| && Collecting(s) == Some(k)
    ensures Known(data, calls, m, p + 1) == Known(data, calls, m, p) + [Heard(k, data[p])]
  {
    PendingOf(data, m, s, p, k);
    PendingOf(data, m, s, p + 1, k);
    BytesGrow(k, data, Get(m, k).value, p);
    assert Flat(calls) + (Bytes(k, data[Get(m, k).value..p]) + [Heard(k, data[p])])
        == Flat(calls) + Bytes(k, data[Get(m, k).value..p]) + [Heard(k, data[p])];
  }

  /** The first byte of the data being collected. */
  lemma KnownStarts(data: seq<byte>, calls: seq<Call>, s: State, p: nat, k: Kind)
    requires p < |data| && Collecting(s) == Some(k)
    ensures MarksOk(Put(NO_MARKS, k, Some(p)), s, p + 1, |data|)
    ensures Known(data, calls, Put(NO_MARKS, k, Some(p)), p + 1) == Flat(calls) + [Heard(k, data[p])]
  {
    PendingOf(data, Put(NO_MARKS, k, Some(p)), s, p + 1, k);
    BytesOne(k, data, p);
  }

  /** In the middle of a byte: what is known, then what a pass over the rest does, is the whole. */
  ghost predicate AtPass(want: Result, data: seq<byte>, p: nat, s: Spot, nread: nat, calls: seq<Call>, m: Marks)
  {
    && p < |data| && nread <= 2 * s.seen && MarksOk(m, s.f.state, p, |data|)
    && want == Join(Known(data, calls, m, p), p, Pass(s, data[p..]))
  }

  /** Between two bytes. */
  ghost predicate AtByte(want: Result, data: seq<byte>, p: nat, s: Spot, nread: nat, calls: seq<Call>, m: Marks)
  {
    && p <= |data| && nread <= 2 * s.seen && Sound(s) && MarksOk(m, s.f.state, p, |data|)
    && want == Join(Known(data, calls, m, p), p, Run(s, data[p..]))
  }

  /** After a pass. */
  ghost predicate AtFlow(flow: Flow, want: Result, data: seq<byte>, p: nat, s: Spot, nread: nat, calls: seq<Call>,
          m: Marks)
  {
    match flow
    case Next => AtByte(want, data, p + 1, s, nread, calls, m)
    case Again => AtPass(want, data, p, s, nread, calls, m) && Ordinary(s.f.state) && Idle(s.f.state)
    case Leave => want == Result(s, Flat(calls), p + 1, Left) && nread <= 2 * s.seen && Sound(s)
    case Fail => want.at == s && want.used == p && want.ending.Failed? && Flat(calls) <= want.told
  }

  lemma ActSound(s: Spot, ch: byte)
    requires Ordinary(s.f.state) && !Act(s.f, ch).flow.Fail?
    ensures Sound(Landed(s, Act(s.f, ch)))
  {
    hide ActResLine, ActReqLine, ActUrl, ActHead, ActChunk;
    match s.f.state
    case ResLine(_) => ResLineActsRight(s.f, ch); ResLineLands(s.f, ch);
    case ReqLine(_) => ReqLineLands(s.f, ch);
    case InUrl(_) => UrlLands(s.f, ch);
    case Head(_) => HeadLands(s, ch);
    case Chunk(_) => ChunkLands(s, ch);
    case _ =>
  }

  /** Not a state that Sound speaks about. */
  predicate Harmless(s: State)
  {
    !s.BodyIdentity? && !s.ChunkData? && s != Chunk(ChunkSizeStart)
  }

  lemma PrefaceLands(f: Fields, ch: byte)
    requires f.state.ResLine? && InPreface(f.state.res)
    ensures Harmless(ActResLine(f, ch).f.state)
  {
    hide Is;
  }

  lemma ResVersionLands(f: Fields, ch: byte)
    requires f.state.ResLine? && !InPreface(f.state.res)
    ensures Harmless(ActResLine(f, ch).f.state)
  {
    hide Is, IsNum, Digit;
  }

  lemma ResLineLands(f: Fields, ch: byte)
    requires f.state.ResLine?
    ensures Harmless(ActResLine(f, ch).f.state)
  {
    hide ActResLine, Harmless;
    if InPreface(f.state.res) {
      PrefaceLands(f, ch);
    } else {
      ResVersionLands(f, ch);
    }
  }

  lemma ReqVersionLands(f: Fields, ch: byte)
    requires f.state.ReqLine? && InReqVersion(f.state.req)
    ensures Harmless(ActReqLine(f, ch).f.state)
  {
    hide Is, IsNum, Digit, ParseUrlChar, ActMethod;
  }

  lemma ReqStartLands(f: Fields, ch: byte)
    requires f.state.ReqLine? && !InReqVersion(f.state.req)
    ensures Harmless(ActReqLine(f, ch).f.state)
  {
    hide Is, ParseUrlChar, SwitchMethod, FirstMethod, MethodString, CharAt, IsAlpha;
  }

  lemma ReqLineLands(f: Fields, ch: byte)
    requires f.state.ReqLine?
    ensures Harmless(ActReqLine(f, ch).f.state)
  {
    hide ActReqLine, Harmless;
    if InReqVersion(f.state.req) {
      ReqVersionLands(f, ch);
    } else {
      ReqStartLands(f, ch);
    }
  }

  lemma UrlLands(f: Fields, ch: byte)
    requires f.state.InUrl?
    ensures Harmless(ActUrl(f, ch).f.state)
  {
    hide Is, ParseUrlChar;
  }

  lemma HarmlessLands(s: Spot, o: Outcome)
    requires Harmless(o.f.state)
    ensures Sound(Landed(s, o))
  {
  }

  lemma FieldStartLands(f: Fields, ch: byte)
    ensures f.state.Head? ==> Harmless(ActFieldStart(f, ch).f.state) && Harmless(ActHeadersAlmostDone(f, ch).f.state)
  {
    hide Token, FirstOfName;
  }

  lemma LineEndLands(f: Fields, ch: byte)
    requires f.state.Head? && (f.state.head.HeaderValueLws? || f.state.head.HeaderValueDiscardLws?)
    ensures Harmless(ActHead(f, ch).f.state)
  {
    hide Flagged, Is, ActValueStart;
  }

  lemma BlankLands(f: Fields, ch: byte)
    requires f.state.Head?
    requires var h := f.state.head;
      h.HeaderValueDiscardWs? || h.HeaderValueStart? || h.HeaderAlmostDone? || h.HeaderValueDiscardWsAlmostDone?
    ensures Harmless(ActHead(f, ch).f.state)
  {
    hide Flagged, Is, ActValueStart;
    ValueStartActsRight(f, ch);
  }

  lemma HeadLands(s: Spot, ch: byte)
    requires s.f.state.Head? && !ActHead(s.f, ch).flow.Fail?
    ensures Sound(Landed(s, ActHead(s.f, ch)))
  {
    hide ActFieldStart, ActHeadersAlmostDone, ActValueStart, Flagged, Is, ActHeadersDone, Harmless, Sound;
    match s.f.state.head
    case HeadersDone => HeadersDoneLands(s, ch);
    case HeaderFieldStart => FieldStartLands(s.f, ch); HarmlessLands(s, ActHead(s.f, ch));
    case HeadersAlmostDone => FieldStartLands(s.f, ch); HarmlessLands(s, ActHead(s.f, ch));
    case HeaderValueLws => LineEndLands(s.f, ch); HarmlessLands(s, ActHead(s.f, ch));
    case HeaderValueDiscardLws => LineEndLands(s.f, ch); HarmlessLands(s, ActHead(s.f, ch));
    case _ => BlankLands(s.f, ch); HarmlessLands(s, ActHead(s.f, ch));
  }

  lemma HeadersDoneLands(s: Spot, ch: byte)
    requires !ActHeadersDone(s.f, ch).flow.Fail?
    ensures Sound(Landed(s, ActHeadersDone(s.f, ch)))
  {
    hide ShouldKeepAlive, HasBody, NeedsEof;
  }

  lemma ChunkLands(s: Spot, ch: byte)
    requires s.f.state.Chunk? && !ActChunk(s.f, ch).flow.Fail?
    ensures Sound(Landed(s, ActChunk(s.f, ch)))
  {
    hide Unhex, Is;
  }

  /** A pass over a byte in an ordinary state, with the marks and callbacks of the source. */
  lemma PassStep(want: Result, data: seq<byte>, p: nat, s: Spot, nread: nat, calls: seq<Call>, m: Marks)
    requires AtPass(want, data, p, s, nread, calls, m) && Ordinary(s.f.state)
    ensures var o := Act(s.f, data[p]);
      var marked := WithMark(m, MarkKind(s.f.state, data[p]), p);
      var k := if o.flow.Fail? then None else FlushKind(s.f.state, data[p]);
      AtFlow(o.flow, want, data, p, Landed(s, o), if o.reset then 0 else nread,
             calls + NoteCalls(o.notes) + Handed(data, marked, k, p), WithoutMark(marked, k))
  {
    hide Act, ActsRight, MarkKind, FlushKind, Known, MarksOk, Flat, Sound, Ordinary, Pass, Run, InBody;
    var o := Act(s.f, data[p]);
    EveryActRight(s.f, data[p]);
    if !o.flow.Fail? {
      ActSound(s, data[p]);
    }
    match o.flow
    case Next => NextStep(want, data, p, s, nread, calls, m);
    case Again => AgainStep(want, data, p, s, nread, calls, m); StaysOrdinary(s.f.state, data[p], o);
    case Leave =>
      LeaveStep(want, data, p, s, nread, calls, m);
      assert calls + NoteCalls(o.notes) + [] == calls + NoteCalls(o.notes);
    case Fail =>
      FailStep(want, data, p, s, nread, calls, m);
      assert calls + [] + [] == calls;
  }

  lemma StaysOrdinary(s: State, ch: byte, o: Outcome)
    requires o.flow.Again? && ActsRight(s, ch, o)
    ensures Ordinary(o.f.state) && Idle(o.f.state)
  {
  }

  /** Marks and callbacks of a pass that goes on to the next byte. */
  lemma KnownNext(data: seq<byte>, p: nat, s: State, o: Outcome, calls: seq<Call>, m: Marks)
    requires p < |data| && MarksOk(m, s, p, |data|) && Ordinary(s) && o.flow.Next? && ActsRight(s, data[p], o)
    ensures var marked := WithMark(m, MarkKind(s, data[p]), p);
      var k := FlushKind(s, data[p]);
      && MarksOk(WithoutMark(marked, k), o.f.state, p + 1, |data|)
      && Known(data, calls + NoteCalls(o.notes) + Handed(data, marked, k, p), WithoutMark(marked, k), p + 1)
         == Known(data, calls, m, p) + (Notes(o.notes) + Tag(o.f.state, data[p]))
  {
    hide MarkKind, FlushKind, Pending, Known, Flat, FlatOne;
    var was, is' := Collecting(s), Collecting(o.f.state);
    var told := calls + NoteCalls(o.notes);
    FlatNotes(calls, o.notes);
    if was.Some? || is'.Some? {
      assert told == calls;
      Nothing(Known(data, calls, m, p), Tag(o.f.state, data[p]));
    }
    if was.Some? && is'.Some? {
      KnownGrows(data, calls, m, o.f.state, p, was.value);
      assert calls + [] == calls;
    } else if was.Some? {
      KnownHanded(data, calls, m, s, p, was.value);
      KnownIdle(data, calls + Handed(data, m, was, p), NO_MARKS, o.f.state, p + 1);
      Nothing(Known(data, calls, m, p), []);
    } else if AfterChunk(s) && m.body.Some? {
      NoMarkAfterChunk(s, data[p]);
      HandedAfterNotes(data, p, s, o, calls, m);
    } else {
      KnownIdle(data, calls, m, s, p);
      assert Handed(data, m, FlushKind(s, data[p]), p) == [];
      assert told + [] == told;
      if is'.Some? {
        KnownStarts(data, calls, o.f.state, p, is'.value);
      } else {
        KnownIdle(data, told, NO_MARKS, o.f.state, p + 1);
        assert Notes(o.notes) + [] == Notes(o.notes);
      }
    }
  }

  lemma Nothing(a: seq<Event>, b: seq<Event>)
    ensures a + (Notes([]) + b) == a + b
  {
    assert [] + b == b;
  }

  lemma NoMarkAfterChunk(s: State, ch: byte)
    ensures AfterChunk(s) ==> MarkKind(s, ch).None?
  {
  }

  /** At the CR after a chunk, data still marked is handed over. */
  lemma HandedAfterNotes(data: seq<byte>, p: nat, s: State, o: Outcome, calls: seq<Call>, m: Marks)
    requires p < |data| && MarksOk(m, s, p, |data|) && AfterChunk(s) && m.body.Some?
    requires o.flow.Next? && ActsRight(s, data[p], o) && |o.notes| == 0 && Collecting(o.f.state).None?
    ensures MarksOk(NO_MARKS, o.f.state, p + 1, |data|)
    ensures Known(data, calls + NoteCalls(o.notes) + Handed(data, m, Some(Body), p), NO_MARKS, p + 1)
         == Known(data, calls, m, p) + (Notes(o.notes) + Tag(o.f.state, data[p]))
  {
    hide MarkKind, FlushKind, Pending, Known, Flat;
    KnownHanded(data, calls, m, s, p, Body);
    assert calls + NoteCalls(o.notes) == calls;
    KnownIdle(data, calls + Handed(data, m, Some(Body), p), NO_MARKS, o.f.state, p + 1);
    Nothing(Known(data, calls, m, p), []);
  }

  lemma NextStep(want: Result, data: seq<byte>, p: nat, s: Spot, nread: nat, calls: seq<Call>, m: Marks)
    requires AtPass(want, data, p, s, nread, calls, m) && Ordinary(s.f.state)
    requires Act(s.f, data[p]).flow.Next? && ActsRight(s.f.state, data[p], Act(s.f, data[p]))
        && Sound(Landed(s, Act(s.f, data[p])))
    ensures var o := Act(s.f, data[p]);
      var marked := WithMark(m, MarkKind(s.f.state, data[p]), p);
      var k := FlushKind(s.f.state, data[p]);
      AtByte(want, data, p + 1, Landed(s, o), if o.reset then 0 else nread,
             calls + NoteCalls(o.notes) + Handed(data, marked, k, p), WithoutMark(marked, k))
  {
    hide Act, ActsRight, MarkKind, FlushKind, Known, MarksOk, Sound, Notes, Tag, Ordinary;
    var o := Act(s.f, data[p]);
    KnownNext(data, p, s.f.state, o, calls, m);
    assert data[p..][0] == data[p] && data[p..][1..] == data[p + 1..];
    JoinJoin(Known(data, calls, m, p), p, Notes(o.notes) + Tag(o.f.state, data[p]), 1,
        Run(Landed(s, o), data[p + 1..]));
  }

  lemma AgainStep(want: Result, data: seq<byte>, p: nat, s: Spot, nread: nat, calls: seq<Call>, m: Marks)
    requires AtPass(want, data, p, s, nread, calls, m) && Ordinary(s.f.state)
    requires Act(s.f, data[p]).flow.Again? && ActsRight(s.f.state, data[p], Act(s.f, data[p]))
    ensures var o := Act(s.f, data[p]);
      var marked := WithMark(m, MarkKind(s.f.state, data[p]), p);
      var k := FlushKind(s.f.state, data[p]);
      AtPass(want, data, p, Landed(s, o), if o.reset then 0 else nread,
             calls + NoteCalls(o.notes) + Handed(data, marked, k, p), WithoutMark(marked, k))
  {
    hide Act, ActsRight, MarkKind, FlushKind, Known, MarksOk, Notes, Tag, Ordinary;
    var o := Act(s.f, data[p]);
    KnownAgain(data, p, s.f.state, o, calls, m);
    assert data[p..][0] == data[p];
    JoinJoin(Known(data, calls, m, p), p, Notes(o.notes), 0, Pass(Landed(s, o), data[p..]));
  }

  /** Marks and callbacks of a pass that executes the byte again: at most an empty value is handed over. */
  lemma KnownAgain(data: seq<byte>, p: nat, s: State, o: Outcome, calls: seq<Call>, m: Marks)
    requires p < |data| && MarksOk(m, s, p, |data|) && Ordinary(s) && o.flow.Again? && ActsRight(s, data[p], o)
    ensures var marked := WithMark(m, MarkKind(s, data[p]), p);
      var k := FlushKind(s, data[p]);
      && MarksOk(WithoutMark(marked, k), o.f.state, p, |data|)
      && Known(data, calls + NoteCalls(o.notes) + Handed(data, marked, k, p), WithoutMark(marked, k), p)
         == Known(data, calls, m, p) + Notes(o.notes)
  {
    hide MarkKind, FlushKind, Pending, Known, Flat;
    KnownIdle(data, calls, m, s, p);
    FlatNotes(calls, o.notes);
    var told := calls + NoteCalls(o.notes);
    KnownIdle(data, told, NO_MARKS, o.f.state, p);
    if s == Head(HeaderValueDiscardLws) {
      var marked := WithMark(m, Some(Value), p);
      assert Handed(data, marked, Some(Value), p) == [Give(Value, data[p..p])];
      FlatMore(told, Give(Value, data[p..p]));
      assert Flat(told) + [] == Flat(told);
      assert Bytes(Value, data[p..p]) == [];
      KnownIdle(data, told + [Give(Value, data[p..p])], NO_MARKS, o.f.state, p);
    } else {
      assert told + [] == told;
    }
  }

  lemma LeaveStep(want: Result, data: seq<byte>, p: nat, s: Spot, nread: nat, calls: seq<Call>, m: Marks)
    requires AtPass(want, data, p, s, nread, calls, m) && Ordinary(s.f.state)
    requires Act(s.f, data[p]).flow.Leave? && ActsRight(s.f.state, data[p], Act(s.f, data[p]))
    ensures var o := Act(s.f, data[p]);
      && want == Result(Landed(s, o), Flat(calls + NoteCalls(o.notes)), p + 1, Left)
      && MarkKind(s.f.state, data[p]).None? && FlushKind(s.f.state, data[p]).None?
  {
    hide Act, MarkKind, FlushKind, Known, Flat, Notes;
    var o := Act(s.f, data[p]);
    assert data[p..][0] == data[p];
    KnownIdle(data, calls, m, s.f.state, p);
    FlatNotes(calls, o.notes);
  }

  lemma FailStep(want: Result, data: seq<byte>, p: nat, s: Spot, nread: nat, calls: seq<Call>, m: Marks)
    requires AtPass(want, data, p, s, nread, calls, m) && Ordinary(s.f.state)
    requires Act(s.f, data[p]).flow.Fail? && ActsRight(s.f.state, data[p], Act(s.f, data[p]))
    ensures var o := Act(s.f, data[p]);
      want.at == Landed(s, o) && want.used == p && want.ending.Failed? && Flat(calls) <= want.told && o.notes == []
  {
    hide Act, MarkKind, FlushKind, Flat, MarksOk, Pending;
    var o := Act(s.f, data[p]);
    assert data[p..][0] == data[p];
  }

  // ---------------------------------------------------------------------
  // Steps of the inner loops
  // ---------------------------------------------------------------------

  /**
   What the call is compared on: no header so long that the count can run over, and no illegal byte
   in a value, which the search for the end of a plain value does not look at.
   */
  predicate Good(want: Result)
  {
    !want.ending.Long? && !(want.ending.Failed? && want.at.f.errno.InvalidHeaderToken? && want.at.f.state.HeaderValue?)
  }

  lemma StartByte(want: Result, data: seq<byte>, p: nat, s: Spot, nread: nat, calls: seq<Call>, m: Marks)
    requires AtByte(want, data, p, s, nread, calls, m) && p < |data| && !InBody(s.f.state) && !want.ending.Long?
    ensures !TooLong(s)
    ensures AtPass(want, data, p, Counted(s), if ParsingHeader(s.f.state) then nread + 1 else nread, calls, m)
  {
    hide Known, MarksOk, Pass, ParsingHeader;
    assert data[p..][0] == data[p];
    JoinNothing(Pass(Counted(s), data[p..]));
  }

  /** The pass goes on collecting. */
  lemma CollectStep(want: Result, data: seq<byte>, p: nat, s: Spot, nread: nat, calls: seq<Call>, m: Marks, k: Kind)
    requires AtPass(want, data, p, s, nread, calls, m)
    requires var o := Act(s.f, data[p]); o.flow.Next? && |o.notes| == 0 && !o.reset && Collecting(o.f.state) == Some(k)
    requires Collecting(s.f.state) == Some(k)
    ensures AtByte(want, data, p + 1, Landed(s, Act(s.f, data[p])), nread, calls, m)
  {
    hide Act, Known, Run;
    var o := Act(s.f, data[p]);
    assert data[p..][0] == data[p] && data[p..][1..] == data[p + 1..];
    KnownGrows(data, calls, m, s.f.state, p, k);
    Nothing(Known(data, calls, m, p), Tag(o.f.state, data[p]));
    JoinJoin(Known(data, calls, m, p), p, Notes(o.notes) + Tag(o.f.state, data[p]), 1,
        Run(Landed(s, o), data[p + 1..]));
  }

  /** The pass ends what is collected, and hands it over. */
  lemma HandStep(want: Result, data: seq<byte>, p: nat, s: Spot, nread: nat, calls: seq<Call>, m: Marks, k: Kind)
    requires AtPass(want, data, p, s, nread, calls, m) && Collecting(s.f.state) == Some(k)
    requires var o := Act(s.f, data[p]);
      (o.flow.Next? || o.flow.Again?) && |o.notes| == 0 && !o.reset && Idle(o.f.state) && Ordinary(o.f.state)
          && Harmless(o.f.state)
    ensures var o := Act(s.f, data[p]);
      AtFlow(o.flow, want, data, p, Landed(s, o), nread, calls + Handed(data, m, Some(k), p), NO_MARKS)
  {
    hide Act, Known, Run, Flat, Pending;
    var o := Act(s.f, data[p]);
    var told := calls + Handed(data, m, Some(k), p);
    assert data[p..][0] == data[p] && data[p..][1..] == data[p + 1..];
    KnownHanded(data, calls, m, s.f.state, p, k);
    Nothing(Known(data, calls, m, p), []);
    if o.flow.Next? {
      KnownIdle(data, told, NO_MARKS, o.f.state, p + 1);
      JoinJoin(Known(data, calls, m, p), p, Notes(o.notes) + Tag(o.f.state, data[p]), 1,
          Run(Landed(s, o), data[p + 1..]));
    } else {
      KnownIdle(data, told, NO_MARKS, o.f.state, p);
      JoinJoin(Known(data, calls, m, p), p, Notes(o.notes), 0, Pass(Landed(s, o), data[p..]));
      assert Known(data, calls, m, p) + [] == Known(data, calls, m, p);
    }
  }

  /** The pass finds an error while something is collected. */
  lemma ErrorStep(want: Result, data: seq<byte>, p: nat, s: Spot, nread: nat, calls: seq<Call>, m: Marks)
    requires AtPass(want, data, p, s, nread, calls, m) && Act(s.f, data[p]).flow.Fail?
    ensures AtFlow(Fail, want, data, p, Landed(s, Act(s.f, data[p])), nread, calls, m)
  {
    hide Act, MarksOk, Flat, Pending, Notes;
    assert data[p..][0] == data[p];
  }

  /** A byte of a plain value: legal, unless the run ends in the error that the search does not see. */
  lemma PlainByte(want: Result, data: seq<byte>, p: nat, s: Spot, nread: nat, calls: seq<Call>, m: Marks)
    requires AtByte(want, data, p, s, nread, calls, m) && p < |data| && Good(want)
    requires s.f.state.HeaderValue? && s.f.header.General? && data[p] != CR && data[p] != LF
    ensures AtByte(want, data, p + 1, Spot(s.f, s.seen + 1), nread, calls, m)
        && 2 * (s.seen + 1) <= HTTP_MAX_HEADER_SIZE
  {
    hide Known, Run, Pass, MarksOk;
    StartByte(want, data, p, s, nread, calls, m);
    var t := Counted(s);
    if Legal(s.f, data[p]) {
      CollectStep(want, data, p, t, nread + 1, calls, m, Value);
    } else {
      ErrorStep(want, data, p, t, nread + 1, calls, m);
    }
  }

  lemma {:induction false} PlainBytes(want: Result, data: seq<byte>, p: nat, q: nat, s: Spot, nread: nat,
          calls: seq<Call>, m: Marks)
    requires AtByte(want, data, p, s, nread, calls, m) && p <= q <= |data| && Good(want)
    requires s.f.state.HeaderValue? && s.f.header.General? && (forall i :: p <= i < q ==>
        data[i] != CR && data[i] != LF)
    ensures AtByte(want, data, q, Spot(s.f, s.seen + (q - p)), nread, calls, m)
    ensures p < q ==> 2 * (s.seen + (q - p)) <= HTTP_MAX_HEADER_SIZE
    decreases q - p
  {
    hide Known, Run, MarksOk, Good;
    if p < q {
      PlainByte(want, data, p, s, nread, calls, m);
      PlainBytes(want, data, p + 1, q, Spot(s.f, s.seen + 1), nread, calls, m);
    }
  }

  // --- bodies

  lemma BodyByteRuns(s: Spot, data: seq<byte>)
    requires InBody(s.f.state) && |data| > 0 && (s.f.state.BodyIdentityEof? || s.f.length > 1)
    ensures var t := if s.f.state.BodyIdentityEof? then s else Spot(s.f.(length := s.f.length - 1), s.seen);
      Run(s, data) == Join([Heard(Body, data[0])], 1, Run(t, data[1..]))
  {
    var t := if s.f.state.BodyIdentityEof? then s else Spot(s.f.(length := s.f.length - 1), s.seen);
    assert Landed(s, Act(s.f, data[0])) == t;
    JoinJoin([Heard(Body, data[0])], 0, [] + [], 1, Run(t, data[1..]));
    assert [Heard(Body, data[0])] + ([] + []) == [Heard(Body, data[0])];
  }

  /** k bytes of a body that goes on after them. */
  lemma {:induction false} BodyRuns(s: Spot, data: seq<byte>, k: nat)
    requires InBody(s.f.state) && k <= |data| && (s.f.state.BodyIdentityEof? || k < s.f.length)
    ensures var t := if s.f.state.BodyIdentityEof? then s else Spot(s.f.(length := s.f.length - k), s.seen);
      Run(s, data) == Join(Bytes(Body, data[..k]), k, Run(t, data[k..]))
    decreases k
  {
    hide Run, Pass, Act;
    var t := if s.f.state.BodyIdentityEof? then s else Spot(s.f.(length := s.f.length - k), s.seen);
    if k == 0 {
      assert data[0..] == data && Bytes(Body, data[..0]) == [];
      JoinNothing(Run(s, data));
    } else {
      var s' := if s.f.state.BodyIdentityEof? then s else Spot(s.f.(length := s.f.length - 1), s.seen);
      BodyByteRuns(s, data);
      BodyRuns(s', data[1..], k - 1);
      assert data[1..][k - 1..] == data[k..];
      assert [Heard(Body, data[0])] + Bytes(Body, data[1..][..k - 1]) == Bytes(Body, data[..k]);
      JoinJoin([Heard(Body, data[0])], 1, Bytes(Body, data[1..][..k - 1]), k - 1, Run(t, data[k..]));
    }
  }

  /** The last byte of a body of known length. */
  lemma BodyEnds(s: Spot, data: seq<byte>)
    requires (s.f.state.BodyIdentity? || s.f.state.ChunkData?) && |data| > 0 && s.f.length == 1
    ensures s.f.state.BodyIdentity? ==>
      Run(s, data) == Join([Heard(Body, data[0])], 0, Pass(Spot(s.f.(length := 0, state := MessageDone), s.seen), data))
    ensures s.f.state.ChunkData? ==>
      Run(s, data) == Join([Heard(Body, data[0])], 1, Run(Spot(s.f.(length := 0, state := Chunk(ChunkDataAlmostDone)),
          s.seen), data[1..]))
  {
    var o := Act(s.f, data[0]);
    if s.f.state.BodyIdentity? {
      JoinJoin([Heard(Body, data[0])], 0, [], 0, Pass(Landed(s, o), data));
      assert [Heard(Body, data[0])] + [] == [Heard(Body, data[0])];
    } else {
      JoinJoin([Heard(Body, data[0])], 0, [] + [], 1, Run(Landed(s, o), data[1..]));
      assert [Heard(Body, data[0])] + ([] + []) == [Heard(Body, data[0])];
    }
  }

  lemma BytesLast(data: seq<byte>, k: nat)
    requires 0 < k <= |data|
    ensures Bytes(Body, data[..k - 1]) + [Heard(Body, data[k - 1..][0])] == Bytes(Body, data[..k])
    ensures data[k - 1..][1..] == data[k..]
  {
  }

  /** All of a body's bytes, when they are there. */
  lemma WholeBody(s: Spot, data: seq<byte>)
    requires s.f.state.BodyIdentity? && 0 < s.f.length <= |data|
    ensures var k := s.f.length;
      Run(s, data) == Join(Bytes(Body, data[..k]), k - 1, Pass(Spot(s.f.(length := 0, state := MessageDone), s.seen),
          data[k - 1..]))
  {
    hide Run, Pass, Act, Bytes;
    var k := s.f.length;
    BodyRuns(s, data, k - 1);
    BodyEnds(Spot(s.f.(length := 1), s.seen), data[k - 1..]);
    BytesLast(data, k);
    JoinJoin(Bytes(Body, data[..k - 1]), k - 1, [Heard(Body, data[k - 1..][0])], 0,
             Pass(Spot(s.f.(length := 0, state := MessageDone), s.seen), data[k - 1..]));
  }

  lemma WholeChunk(s: Spot, data: seq<byte>)
    requires s.f.state.ChunkData? && 0 < s.f.length <= |data|
    ensures var k := s.f.length;
      Run(s, data) == Join(Bytes(Body, data[..k]), k, Run(Spot(s.f.(length := 0, state := Chunk(ChunkDataAlmostDone)),
          s.seen), data[k..]))
  {
    hide Run, Pass, Act, Bytes;
    var k := s.f.length;
    BodyRuns(s, data, k - 1);
    BodyEnds(Spot(s.f.(length := 1), s.seen), data[k - 1..]);
    BytesLast(data, k);
    JoinJoin(Bytes(Body, data[..k - 1]), k - 1, [Heard(Body, data[k - 1..][0])], 1,
             Run(Spot(s.f.(length := 0, state := Chunk(ChunkDataAlmostDone)), s.seen), data[k..]));
  }

  // --- what a call does to the marks and callbacks of a body

  /** A body that goes on past the bytes: they are marked from p on. */
  lemma BodyGoesOn(want: Result, data: seq<byte>, p: nat, s: Spot, nread: nat, calls: seq<Call>, m: Marks)
    requires AtByte(want, data, p, s, nread, calls, m) && p < |data|
    requires InBody(s.f.state) && (s.f.state.BodyIdentityEof? || |data| - p < s.f.length)
    ensures var t := if s.f.state.BodyIdentityEof? then s else Spot(s.f.(length := s.f.length - (|data| - p)), s.seen);
      AtByte(want, data, |data|, t, nread, calls, WithMark(m, Some(Body), p))
  {
    hide Run, Flat;
    var n := |data|;
    var t := if s.f.state.BodyIdentityEof? then s else Spot(s.f.(length := s.f.length - (n - p)), s.seen);
    KnownIdle(data, calls, m, s.f.state, p);
    BodyRuns(s, data[p..], n - p);
    assert data[p..][..n - p] == data[p..n] && data[p..][n - p..] == data[n..];
    PendingOf(data, Put(NO_MARKS, Body, Some(p)), t.f.state, n, Body);
    JoinJoin(Flat(calls), p, Bytes(Body, data[p..n]), n - p, Run(t, data[n..]));
  }

  /** A body that ends within the bytes: they are handed over with the last one, which is then executed again. */
  lemma BodyCloses(want: Result, data: seq<byte>, p: nat, s: Spot, nread: nat, calls: seq<Call>, m: Marks)
    requires AtByte(want, data, p, s, nread, calls, m) && s.f.state.BodyIdentity? && p + s.f.length <= |data|
    ensures var q := p + s.f.length - 1;
      AtPass(want, data, q, Spot(s.f.(length := 0, state := MessageDone), s.seen), nread,
          calls + [Give(Body, data[p..q + 1])], NO_MARKS)
    ensures m == NO_MARKS
  {
    hide Run, Pass, Flat, Bytes;
    var k := s.f.length;
    var t := Spot(s.f.(length := 0, state := MessageDone), s.seen);
    KnownIdle(data, calls, m, s.f.state, p);
    WholeBody(s, data[p..]);
    assert data[p..][..k] == data[p..p + k] && data[p..][k - 1..] == data[p + k - 1..];
    FlatMore(calls, Give(Body, data[p..p + k]));
    KnownIdle(data, calls + [Give(Body, data[p..p + k])], NO_MARKS, t.f.state, p + k - 1);
    JoinJoin(Flat(calls), p, Bytes(Body, data[p..p + k]), k - 1, Pass(t, data[p + k - 1..]));
  }

  /** A chunk that ends within the bytes stays marked until the CR after it. */
  lemma ChunkCloses(want: Result, data: seq<byte>, p: nat, s: Spot, nread: nat, calls: seq<Call>, m: Marks)
    requires AtByte(want, data, p, s, nread, calls, m) && s.f.state.ChunkData? && p + s.f.length <= |data|
    ensures AtByte(want, data, p + s.f.length, Spot(s.f.(length := 0, state := Chunk(ChunkDataAlmostDone)), s.seen),
        nread, calls,
                   WithMark(m, Some(Body), p))
  {
    hide Run, Pass, Flat, Bytes;
    var k := s.f.length;
    var t := Spot(s.f.(length := 0, state := Chunk(ChunkDataAlmostDone)), s.seen);
    KnownIdle(data, calls, m, s.f.state, p);
    WholeChunk(s, data[p..]);
    assert data[p..][..k] == data[p..p + k] && data[p..][k..] == data[p + k..];
    PendingOf(data, Put(NO_MARKS, Body, Some(p)), t.f.state, p + k, Body);
    JoinJoin(Flat(calls), p, Bytes(Body, data[p..p + k]), k, Run(t, data[p + k..]));
  }

  // ---------------------------------------------------------------------
  // http_parser_execute
  // ---------------------------------------------------------------------

  /** A body being read has bytes to come: the asserts of the body states. */
  predicate BytesToCome(f: Fields)
  {
    f.state.BodyIdentity? || f.state.ChunkData? ==> f.length > 0
  }

  predicate BetweenMessages(s: State)
  {
    match s
    case ResLine(r) => r.Dead? || r.StartReqOrRes? || r.StartRes?
    case ReqLine(r) => r.StartReq?
    case _ => false
  }

  /** memchr */
  method FindByte(data: seq<byte>, from: nat, limit: nat, c: byte) returns (at: Option<nat>)
    requires from + limit <= |data|
    ensures at.None? ==> forall i :: from <= i < from + limit ==> data[i] != c
    ensures at.Some? ==>
        from <= at.value < from + limit && data[at.value] == c && forall i :: from <= i < at.value ==> data[i] != c
  {
    var p := from;
    while p < from + limit
      invariant from <= p <= from + limit && forall i :: from <= i < p ==> data[i] != c
    {
      if data[p] == c {
        return Some(p);
      }
      p := p + 1;
    }
    at := None;
  }

  /** The next CR or LF within the size limit of a header, or the end of the bytes. */
  method FindLineEnd(data: seq<byte>, from: nat) returns (end: nat, ghost searched: nat)
    requires from < |data|
    ensures from <= searched <= end <= |data|
    ensures forall i :: from <= i < searched ==> data[i] != CR && data[i] != LF
    ensures searched == end || searched - from == HTTP_MAX_HEADER_SIZE
    ensures end == |data| || data[end] == CR || data[end] == LF
  {
    var limit := if |data| - from < HTTP_MAX_HEADER_SIZE then |data| - from else HTTP_MAX_HEADER_SIZE;
    var cr := FindByte(data, from, limit, CR);
    var lf := FindByte(data, from, limit, LF);
    if cr.Some? {
      end := if lf.Some? && cr.value >= lf.value then lf.value else cr.value;
      searched := end;
    } else if lf.Some? {
      end := lf.value;
      searched := end;
    } else {
      end := |data|;
      searched := from + limit;
    }
  }

  /** What a pass in an ordinary state keeps, whatever the bytes. */
  lemma PassKeeps(s: Spot, ch: byte, m: Marks, p: nat)
    requires Ordinary(s.f.state) && AllUpto(m, p)
    ensures var o := Act(s.f, ch);
      && (o.flow.Again? ==> Ordinary(o.f.state) && Rank(o.f.state) < Rank(s.f.state))
      && (!o.flow.Fail? ==> BytesToCome(o.f))
  {
    hide Act, ActsRight, Rank, Ordinary;
    EveryActRight(s.f, ch);
    AgainFalls(s.f, ch);
    var o := Act(s.f, ch);
    if !o.flow.Fail? {
      ActSound(s, ch);
    }
    if o.flow.Again? {
      StaysOrdinary(s.f.state, ch, o);
    }
  }

  lemma NoFlush(calls: seq<Call>, data: seq<byte>, m: Marks, k: Option<Kind>, p: nat)
    ensures k.None? ==> calls + Handed(data, m, k, p) == calls && WithoutMark(m, k) == m
  {
  }

  lemma MarksKeep(m: Marks, mk: Option<Kind>, k: Option<Kind>, p: nat)
    requires AllUpto(m, p)
    ensures AllUpto(WithMark(m, mk, p), p) && AllUpto(WithoutMark(WithMark(m, mk, p), k), p)
    ensures k.Some? ==> Upto(Get(WithMark(m, mk, p), k.value), p)
  {
    hide AllUpto, Get, Put, Upto;
    var marked := WithMark(m, mk, p);
    if mk.Some? {
      PutKeeps(m, mk.value, Some(p), p);
    }
    if k.Some? {
      PutKeeps(marked, k.value, None, p);
      GetKeeps(marked, k.value, p);
    }
  }

  lemma PutKeeps(m: Marks, k: Kind, v: Option<nat>, p: nat)
    requires AllUpto(m, p) && (v.None? || v == Some(p))
    ensures AllUpto(Put(m, k, v), p)
  {
  }

  lemma GetKeeps(m: Marks, k: Kind, p: nat)
    requires AllUpto(m, p)
    ensures Upto(Get(m, k), p)
  {
  }

  /** A character of a header's name. */
  lemma NameByte(want: Result, data: seq<byte>, p: nat, s: Spot, nread: nat, calls: seq<Call>, m: Marks)
    requires AtByte(want, data, p, s, nread, calls, m) && p < |data| && Good(want)
    requires s.f.state.HeaderField? && Token(data[p]) != 0
    ensures var (h, i) := MatchName(s.f.header, s.f.index, Token(data[p]));
      AtByte(want, data, p + 1, Spot(s.f.(header := h, index := i), s.seen + 1), nread, calls, m)
    ensures 2 * (s.seen + 1) <= HTTP_MAX_HEADER_SIZE
  {
    hide Known, Run, Pass, MarksOk, MatchName, Token;
    StartByte(want, data, p, s, nread, calls, m);
    CollectStep(want, data, p, Counted(s), nread + 1, calls, m, Field);
  }

  /** The character after a header's name. */
  lemma NameEnds(want: Result, data: seq<byte>, p: nat, s: Spot, nread: nat, calls: seq<Call>, m: Marks)
    requires AtByte(want, data, p, s, nread, calls, m) && p < |data| && Good(want)
    requires s.f.state.HeaderField? && Token(data[p]) == 0
    ensures 2 * (s.seen + 1) <= HTTP_MAX_HEADER_SIZE
    ensures WithoutMark(m, Some(Field)) == NO_MARKS
    ensures if Is(data[p], ':')
            then AtFlow(Next, want, data, p, Spot(s.f.(state := Head(HeaderValueDiscardWs)), s.seen + 1), nread + 1,
                        calls + Handed(data, m, Some(Field), p), NO_MARKS)
            else AtFlow(Fail, want, data, p, Spot(s.f.(errno := InvalidHeaderToken), s.seen + 1), nread + 1, calls, m)
  {
    hide Known, Run, Pass, Token;
    StartByte(want, data, p, s, nread, calls, m);
    KnownHanded(data, calls, m, s.f.state, p, Field);
    if Is(data[p], ':') {
      HandStep(want, data, p, Counted(s), nread + 1, calls, m, Field);
    } else {
      ErrorStep(want, data, p, Counted(s), nread + 1, calls, m);
    }
  }

  lemma InValueShape(f: Fields, ch: byte)
    requires f.state.HeaderValue?
    ensures var o := ActInValue(f, ch);
      (o.flow.Next? || o.flow.Fail?) && |o.notes| == 0 && !o.reset && o.f.state.HeaderValue?
  {
    hide MatchWord, FirstOfConnection, Token, Lower, Is, IsNum;
    FlaggedKeeps(f);
  }

  /** A byte of a value that is not its end: legal, and taken by the matcher. */
  lemma ValueByte(want: Result, data: seq<byte>, p: nat, s: Spot, nread: nat, calls: seq<Call>, m: Marks)
    requires AtByte(want, data, p, s, nread, calls, m) && p < |data| && Good(want)
    requires s.f.state.HeaderValue? && data[p] != CR && data[p] != LF
    ensures Legal(s.f, data[p]) && 2 * (s.seen + 1) <= HTTP_MAX_HEADER_SIZE
    ensures var o := ActInValue(s.f, data[p]);
      if o.flow.Fail? then AtFlow(Fail, want, data, p, Spot(o.f, s.seen + 1), nread + 1, calls, m)
      else AtByte(want, data, p + 1, Spot(o.f, s.seen + 1), nread, calls, m)
  {
    hide Known, Run, Pass, MarksOk, ActInValue, Legal;
    StartByte(want, data, p, s, nread, calls, m);
    InValueShape(s.f, data[p]);
    if !Legal(s.f, data[p]) || ActInValue(s.f, data[p]).flow.Fail? {
      ErrorStep(want, data, p, Counted(s), nread + 1, calls, m);
    } else {
      CollectStep(want, data, p, Counted(s), nread + 1, calls, m, Value);
    }
  }

  /** The end of a value: on to the next byte after CR, LF executed again. */
  lemma ValueEnds(want: Result, data: seq<byte>, p: nat, s: Spot, nread: nat, calls: seq<Call>, m: Marks)
    requires AtByte(want, data, p, s, nread, calls, m) && p < |data| && Good(want)
    requires s.f.state.HeaderValue? && (data[p] == CR || data[p] == LF)
    ensures 2 * (s.seen + 1) <= HTTP_MAX_HEADER_SIZE && WithoutMark(m, Some(Value)) == NO_MARKS
    ensures AtFlow(if data[p] == CR then Next else Again, want, data, p,
        Spot(s.f.(state := Head(HeaderAlmostDone)), s.seen + 1),
                   nread + 1, calls + Handed(data, m, Some(Value), p), NO_MARKS)
  {
    hide Known, Run, Pass, ActInValue, Legal;
    StartByte(want, data, p, s, nread, calls, m);
    KnownHanded(data, calls, m, s.f.state, p, Value);
    HandStep(want, data, p, Counted(s), nread + 1, calls, m, Value);
  }

  lemma LineEndLegal(f: Fields)
    ensures Legal(f, CR) && Legal(f, LF)
  {
  }

  /** The search for the end of a plain value takes the bytes that the automaton takes one by one. */
  lemma SearchedBytes(want: Result, data: seq<byte>, p: nat, searched: nat, end: nat, s: Spot, nread: nat,
          calls: seq<Call>, m: Marks)
    requires AtByte(want, data, p, s, nread, calls, m) && p < |data| && Good(want)
    requires s.f.state.HeaderValue? && s.f.header.General?
    requires p <= searched <= end <= |data| && (forall i :: p <= i < searched ==> data[i] != CR && data[i] != LF)
    requires searched == end || searched - p == HTTP_MAX_HEADER_SIZE
    ensures searched == end && AtByte(want, data, end, Spot(s.f, s.seen + (end - p)), nread, calls, m)
    ensures p < end ==> 2 * (s.seen + (end - p)) <= HTTP_MAX_HEADER_SIZE
  {
    hide AtByte, Good;
    PlainBytes(want, data, p, searched, s, nread, calls, m);
  }

  lemma CountBound(want: Result, data: seq<byte>, p: nat, s: Spot, nread: nat, calls: seq<Call>, m: Marks)
    requires AtByte(want, data, p, s, nread, calls, m)
    ensures nread <= 2 * s.seen
  {
  }

  lemma NextByte(want: Result, data: seq<byte>, p: nat, s: Spot, nread: nat, calls: seq<Call>, m: Marks)
    requires AtByte(want, data, p + 1, s, nread, calls, m)
    ensures AtFlow(Next, want, data, p, s, nread, calls, m)
  {
  }

  lemma AgainByte(want: Result, data: seq<byte>, p: nat, s: Spot, nread: nat, calls: seq<Call>, m: Marks)
    requires AtPass(want, data, p, s, nread, calls, m) && Ordinary(s.f.state) && Idle(s.f.state)
    ensures AtFlow(Again, want, data, p, s, nread, calls, m)
  {
  }

  lemma AgainIs(want: Result, data: seq<byte>, p: nat, s: Spot, nread: nat, calls: seq<Call>, m: Marks)
    requires AtFlow(Again, want, data, p, s, nread, calls, m)
    ensures AtPass(want, data, p, s, nread, calls, m) && Ordinary(s.f.state)
  {
  }

  lemma FlowIs(flow: Flow, want: Result, data: seq<byte>, p: nat, s: Spot, nread: nat, calls: seq<Call>, m: Marks)
    requires AtFlow(flow, want, data, p, s, nread, calls, m)
    ensures flow.Next? ==> AtByte(want, data, p + 1, s, nread, calls, m)
    ensures flow.Leave? ==> want == Result(s, Flat(calls), p + 1, Left) && nread <= 2 * s.seen && Sound(s)
    ensures flow.Fail? ==> want.at == s && want.used == p && want.ending.Failed? && Flat(calls) <= want.told
  {
  }

  /** The assert at the start of a chunk size. */
  lemma CountStarts(want: Result, data: seq<byte>, p: nat, s: Spot, nread: nat, calls: seq<Call>, m: Marks)
    requires AtByte(want, data, p, s, nread, calls, m) && s.f.state == Chunk(ChunkSizeStart)
    ensures nread == 0
  {
  }

  lemma NotLong(want: Result)
    requires Good(want)
    ensures !want.ending.Long?
  {
  }

  lemma NotTooLong(want: Result, data: seq<byte>, p: nat, s: Spot, nread: nat, calls: seq<Call>, m: Marks)
    requires AtByte(want, data, p, s, nread, calls, m) && p < |data| && Good(want) && !InBody(s.f.state)
        && ParsingHeader(s.f.state)
    ensures nread + 1 <= HTTP_MAX_HEADER_SIZE
  {
    hide Known, MarksOk, Run, Pass;
    StartByte(want, data, p, s, nread, calls, m);
  }

  lemma SoundBytes(s: Spot)
    requires Sound(s)
    ensures BytesToCome(s.f)
  {
  }

  lemma UptoStep(m: Marks, q: nat)
    ensures AllUpto(m, q) ==> AllUpto(m, q + 1)
  {
  }

  lemma BodyMark(data: seq<byte>, p: nat, q: nat)
    requires p <= q < |data|
    ensures var m := WithMark(NO_MARKS, Some(Body), p);
      WithoutMark(m, Some(Body)) == NO_MARKS && Handed(data, m, Some(Body), q + 1) == [Give(Body, data[p..q + 1])]
  {
  }

  lemma UptoLater(m: Marks, p: nat, q: nat)
    requires AllUpto(m, p) && p <= q
    ensures AllUpto(m, q)
  {
  }

  /** A smaller count will do. */
  lemma CountLess(flow: Flow, want: Result, data: seq<byte>, p: nat, s: Spot, nread: nat, nread': nat, calls: seq<Call>,
          m: Marks)
    requires AtFlow(flow, want, data, p, s, nread, calls, m) && nread' <= 2 * s.seen
    ensures AtFlow(flow, want, data, p, s, nread', calls, m)
  {
    hide Known, Run, Pass, MarksOk;
  }

  /** The marks a call starts with. */
  function StartMarks(s: State): Marks
  {
    match s
    case HeaderField => NO_MARKS.(field := Some(0))
    case HeaderValue => NO_MARKS.(value := Some(0))
    case InUrl(_) => NO_MARKS.(url := Some(0))
    case ResStatus => NO_MARKS.(status := Some(0))
    case _ => NO_MARKS
  }

  lemma Starts(want: Result, data: seq<byte>, s: Spot, nread: nat, calls: seq<Call>)
    requires nread <= 2 * s.seen && Sound(s) && want == Join(Flat(calls), 0, Run(s, data))
    ensures AtByte(want, data, 0, s, nread, calls, StartMarks(s.f.state)) && AllUpto(StartMarks(s.f.state), 0)
  {
    hide Run, Flat;
    assert data[0..] == data && data[0..0] == [];
    assert Pending(data, StartMarks(s.f.state), 0) == [];
    assert Flat(calls) + [] == Flat(calls);
  }

  lemma FlatHanded(calls: seq<Call>, data: seq<byte>, m: Marks, k: Kind, p: nat)
    ensures Flat(calls + Handed(data, m, Some(k), p)) == Flat(calls) + Piece(k, data, Get(m, k), p)
  {
    if Handed(data, m, Some(k), p) == [] {
      assert calls + [] == calls;
      assert Flat(calls) + [] == Flat(calls);
    } else {
      FlatMore(calls, Give(k, data[Get(m, k).value..p]));
    }
  }

  /** The five final callbacks hand over what is pending. */
  lemma FinalCallbacks(calls: seq<Call>, data: seq<byte>, m: Marks, p: nat)
    ensures Flat(calls + Handed(data, m, Some(Field), p) + Handed(data, m, Some(Value), p)
        + Handed(data, m, Some(Url), p)
                 + Handed(data, m, Some(Body), p) + Handed(data, m, Some(Status), p)) == Known(data, calls, m, p)
  {
    hide Flat, Handed, Piece;
    FlatHanded(calls, data, m, Field, p);
    var c1 := calls + Handed(data, m, Some(Field), p);
    FlatHanded(c1, data, m, Value, p);
    var c2 := c1 + Handed(data, m, Some(Value), p);
    FlatHanded(c2, data, m, Url, p);
    var c3 := c2 + Handed(data, m, Some(Url), p);
    FlatHanded(c3, data, m, Body, p);
    var c4 := c3 + Handed(data, m, Some(Body), p);
    FlatHanded(c4, data, m, Status, p);
    FivePieces(Flat(calls), Piece(Field, data, m.field, p), Piece(Value, data, m.value, p), Piece(Url, data, m.url, p),
               Piece(Body, data, m.body, p), Piece(Status, data, m.status, p));
  }

  lemma FivePieces(x: seq<Event>, a: seq<Event>, b: seq<Event>, c: seq<Event>, d: seq<Event>, e: seq<Event>)
    ensures x + a + b + c + d + e == x + (a + b + c + d + e)
  {
  }

  lemma Finished(want: Result, data: seq<byte>, s: Spot, nread: nat, calls: seq<Call>, m: Marks)
    requires AtByte(want, data, |data|, s, nread, calls, m)
    ensures want == Result(s, Known(data, calls, m, |data|), |data|, More)
    ensures Marked(m) <= 1 && Sound(s) && nread <= 2 * s.seen
  {
    OneMark(m, s.f.state, |data|, |data|);
    assert data[|data|..] == [];
    assert Known(data, calls, m, |data|) + [] == Known(data, calls, m, |data|);
  }

  /** The fields of a new parser. */
  function Initial(kind: Type, lenient: bool, reply: Reply): Fields
  {
    var start := if kind.Request? then ReqLine(StartReq)
                 else if kind.Response? then ResLine(StartRes)
                 else ResLine(StartReqOrRes);
    Fields(kind, start, General, 0, NO_FLAGS, 0, 0, 0, 0, DELETE, Ok, false, lenient, reply)
  }

  class Parser {
    var f: Fields
    var nread: nat
    /** The callbacks made so far. */
    var calls: seq<Call>
    /** Bytes of header since nread was reset, each counted once. */
    ghost var seen: nat

    ghost predicate Valid()
      reads this
    {
      nread <= 2 * seen && Sound(Spot(f, seen))
    }

    /** http_parser_init */
    constructor (kind: Type, lenient: bool, reply: Reply)
      ensures Valid() && calls == [] && nread == 0 && seen == 0 && f == Initial(kind, lenient, reply)
    {
      f := Initial(kind, lenient, reply);
      nread := 0;
      calls := [];
      seen := 0;
    }

    /** CALLBACK_DATA, up to p. */
    method HandOver(data: seq<byte>, m: Marks, k: Kind, p: nat) returns (m': Marks)
      requires Get(m, k).Some? ==> Get(m, k).value <= p <= |data|
      modifies this
      ensures unchanged(`f, `nread, `seen)
      ensures calls == old(calls) + Handed(data, m, Some(k), p) && m' == WithoutMark(m, Some(k))
    {
      m' := Put(m, k, None);
      if Get(m, k).Some? {
        calls := calls + [Give(k, data[Get(m, k).value..p])];
      } else {
        assert calls + [] == calls;
      }
    }

    method Notify(ns: seq<Notice>)
      modifies this
      ensures unchanged(`f, `nread, `seen)
      ensures calls == old(calls) + NoteCalls(ns)
    {
      var rest := ns;
      while |rest| > 0
        invariant unchanged(`f, `nread, `seen)
        invariant calls + NoteCalls(rest) == old(calls) + NoteCalls(ns)
        decreases |rest|
      {
        assert calls + ([Note(rest[0])] + NoteCalls(rest[1..])) == calls + [Note(rest[0])] + NoteCalls(rest[1..]);
        calls := calls + [Note(rest[0])];
        rest := rest[1..];
      }
      assert calls + [] == calls;
    }

    /** One pass through the switch in a state that has no loop of its own. */
    method PassOver(data: seq<byte>, p: nat, m: Marks, ghost want: Result) returns (flow: Flow, m': Marks)
      requires p < |data| && Ordinary(f.state)
      requires AllUpto(m, p)
      requires Good(want) ==> AtPass(want, data, p, Spot(f, seen), nread, calls, m)
      modifies this
      ensures Good(want) ==> AtFlow(flow, want, data, p, Spot(f, seen), nread, calls, m')
      ensures flow.Again? ==> Ordinary(f.state) && Rank(f.state) < Rank(old(f.state))
      ensures flow.Fail? || (BytesToCome(f) && AllUpto(m', p))
    {
      hide AtPass, AtFlow, Act, MarkKind, FlushKind, Good, Ordinary, Rank, BytesToCome, WithMark, WithoutMark, AllUpto,
           Handed, NoteCalls;
      var o := Act(f, data[p]);
      PassKeeps(Spot(f, seen), data[p], m, p);
      if Good(want) {
        PassStep(want, data, p, Spot(f, seen), nread, calls, m);
      }
      var k := if o.flow.Fail? then None else FlushKind(f.state, data[p]);
      MarksKeep(m, MarkKind(f.state, data[p]), k, p);
      m' := WithMark(m, MarkKind(f.state, data[p]), p);
      f := o.f;
      if o.reset {
        nread := 0;
        seen := 0;
      }
      Notify(o.notes);
      NoFlush(calls, data, m', k, p);
      if k.Some? {
        m' := HandOver(data, m', k.value, p);
      }
      flow := o.flow;
    }

    /** COUNT_HEADER_SIZE */
    method Count(v: nat) returns (over: bool)
      modifies this
      ensures unchanged(`calls, `seen) && nread == old(nread) + v && over == (nread > HTTP_MAX_HEADER_SIZE)
      ensures f == if over then old(f).(errno := HeaderOverflow) else old(f)
    {
      nread := nread + v;
      over := nread > HTTP_MAX_HEADER_SIZE;
      if over {
        f := f.(errno := HeaderOverflow);
      }
    }

    /** The loop over the characters of a header's name; the first of them has been counted already. */
    method ReadName(data: seq<byte>, p: nat, m: Marks, ghost want: Result) returns (flow: Flow, q: nat, m': Marks)
      requires p < |data| && f.state.HeaderField? && nread > 0 && AllUpto(m, p)
      requires Good(want) ==> AtByte(want, data, p, Spot(f, seen), nread - 1, calls, m)
      modifies this
      ensures p <= q < |data| && (flow.Next? || flow.Fail?)
      ensures Good(want) ==> AtFlow(flow, want, data, q, Spot(f, seen), nread, calls, m')
      ensures flow.Next? ==> BytesToCome(f) && AllUpto(m', q)
    {
      hide AtByte, AtFlow, Good, Token, MatchName, AllUpto;
      var i := p;
      if Good(want) {
        CountBound(want, data, p, Spot(f, seen), nread - 1, calls, m);
      }
      while i < |data| && Token(data[i]) != 0
        invariant p <= i <= |data| && unchanged(`nread, `calls) && f.state.HeaderField? && seen == old(seen) + (i - p)
        invariant Good(want) ==> AtByte(want, data, i, Spot(f, seen), nread - 1, calls, m)
        invariant Good(want) && i > p ==> 2 * seen <= HTTP_MAX_HEADER_SIZE
      {
        if Good(want) {
          NameByte(want, data, i, Spot(f, seen), nread - 1, calls, m);
        }
        var (h, index) := MatchName(f.header, f.index, Token(data[i]));
        f := f.(header := h, index := index);
        seen := seen + 1;
        i := i + 1;
      }
      flow, q, m' := FinishName(data, p, i, m, want);
    }

    /** After the loop: the count, and the character that ended it. */
    method FinishName(data: seq<byte>, p: nat, i: nat, m: Marks, ghost want: Result)
        returns (flow: Flow, q: nat, m': Marks)
      requires p <= i <= |data| && p < |data| && f.state.HeaderField? && nread > 0 && AllUpto(m, p)
      requires i < |data| ==> Token(data[i]) == 0
      requires Good(want) ==>
          AtByte(want, data, i, Spot(f, seen), nread - 1, calls, m) && nread - 1 <= 2 * (seen - (i - p))
      requires Good(want) && i > p ==> 2 * seen <= HTTP_MAX_HEADER_SIZE
      modifies this
      ensures p <= q < |data| && (flow.Next? || flow.Fail?)
      ensures Good(want) ==> AtFlow(flow, want, data, q, Spot(f, seen), nread, calls, m')
      ensures flow.Next? ==> BytesToCome(f) && AllUpto(m', q)
    {
      hide AtByte, AtFlow, Good, Token;
      ghost var spot, was := Spot(f, seen), nread;
      m' := m;
      if Good(want) && i < |data| {
        NameEnds(want, data, i, spot, nread - 1, calls, m);
      }
      var over := Count(i - p);
      if over {
        return Fail, p, m;
      }
      if i == |data| {
        if Good(want) {
          NextByte(want, data, i - 1, spot, was - 1, calls, m);
          CountLess(Next, want, data, i - 1, spot, was - 1, nread, calls, m);
        }
        return Next, i - 1, m;
      }
      seen := seen + 1;
      if Is(data[i], ':') {
        f := f.(state := Head(HeaderValueDiscardWs));
        GetKeeps(m, Field, p);
        m' := HandOver(data, m, Field, i);
        if Good(want) {
          CountLess(Next, want, data, i, Spot(f, seen), was, nread, calls, m');
        }
        flow, q := Next, i;
      } else {
        f := f.(errno := InvalidHeaderToken);
        if Good(want) {
          CountLess(Fail, want, data, i, Spot(f, seen), was, nread, calls, m);
        }
        flow, q := Fail, i;
      }
    }

    /** One turn of the loop over a header's value. */
    method ValueTurn(data: seq<byte>, i: nat, m: Marks, ghost want: Result, ghost count: nat)
        returns (flow: Flow, i': nat)
      requires i < |data| && f.state.HeaderValue? && data[i] != CR && data[i] != LF
      requires Good(want) ==> AtByte(want, data, i, Spot(f, seen), count, calls, m)
      modifies this
      ensures unchanged(`nread, `calls) && f.state.HeaderValue? && i <= i' <= |data|
          && seen == old(seen) + (if flow.Fail? then 1 else i' - i)
      ensures flow.Next? || flow.Fail?
      ensures flow.Next? ==> i < i'
      ensures flow.Next? && Good(want) ==>
          AtByte(want, data, i', Spot(f, seen), count, calls, m) && 2 * seen <= HTTP_MAX_HEADER_SIZE
      ensures flow.Fail? ==> i' == i && (Good(want) ==> AtFlow(Fail, want, data, i, Spot(f, seen), count + 1, calls, m))
      ensures old(f).header.General? ==>
          if Legal(old(f), data[i]) then f == old(f) && flow.Next? && (i' < |data| ==> data[i'] == CR || data[i'] == LF)
          else f == old(f).(errno := InvalidHeaderToken) && flow.Fail?
    {
      hide AtByte, AtFlow, Good, ActInValue, Legal;
      InValueShape(f, data[i]);
      if Good(want) {
        ValueByte(want, data, i, Spot(f, seen), count, calls, m);
      }
      if !Legal(f, data[i]) {
        f := f.(errno := InvalidHeaderToken);
        seen := seen + 1;
        return Fail, i;
      }
      if f.header.General? {
        ghost var searched;
        i', searched := FindLineEnd(data, i);
        if Good(want) {
          SearchedBytes(want, data, i, searched, i', Spot(f, seen), count, calls, m);
        }
        seen := seen + (i' - i);
        flow := Next;
      } else {
        var o := ActInValue(f, data[i]);
        f := o.f;
        seen := seen + 1;
        flow, i' := o.flow, if o.flow.Fail? then i else i + 1;
      }
    }

    /**
     The loop over a header's value; its first byte has been counted already. Of a plain value only the first
     byte is checked: the search passes over the others.
     */
    method ReadValue(data: seq<byte>, p: nat, m: Marks, ghost want: Result) returns (flow: Flow, q: nat, m': Marks)
      requires p < |data| && f.state.HeaderValue? && nread > 0 && AllUpto(m, p)
      requires Good(want) ==> AtByte(want, data, p, Spot(f, seen), nread - 1, calls, m)
      modifies this
      ensures p <= q < |data| && (flow.Next? || flow.Again? || flow.Fail?)
      ensures Good(want) ==> AtFlow(flow, want, data, q, Spot(f, seen), nread, calls, m')
      ensures !flow.Fail? ==> BytesToCome(f) && AllUpto(m', q)
      ensures flow.Again? ==> Ordinary(f.state)
      ensures old(f).header.General? && old(f).errno.Ok? ==>
          (f.errno.InvalidHeaderToken? <==> !Legal(old(f), data[p]))
    {
      hide AtByte, AtFlow, Good, AllUpto, Legal;
      LineEndLegal(f);
      var i := p;
      if Good(want) {
        CountBound(want, data, p, Spot(f, seen), nread - 1, calls, m);
      }
      while i < |data| && data[i] != CR && data[i] != LF
        invariant p <= i <= |data| && unchanged(`nread, `calls) && f.state.HeaderValue? && seen == old(seen) + (i - p)
        invariant old(f).header.General? ==>
            f == old(f) && (i > p ==> Legal(old(f), data[p]) && (i < |data| ==> data[i] == CR || data[i] == LF))
        invariant Good(want) ==> AtByte(want, data, i, Spot(f, seen), nread - 1, calls, m)
        invariant Good(want) && i > p ==> 2 * seen <= HTTP_MAX_HEADER_SIZE
      {
        var next;
        flow, next := ValueTurn(data, i, m, want, nread - 1);
        if flow.Fail? {
          return Fail, i, m;
        }
        i := next;
      }
      flow, q, m' := FinishValue(data, p, i, m, want);
    }

    /** After the loop: the count, and the CR or LF that ended it. */
    method FinishValue(data: seq<byte>, p: nat, i: nat, m: Marks, ghost want: Result)
        returns (flow: Flow, q: nat, m': Marks)
      requires p <= i <= |data| && p < |data| && f.state.HeaderValue? && nread > 0 && AllUpto(m, p)
      requires i < |data| ==> data[i] == CR || data[i] == LF
      requires Good(want) ==>
          AtByte(want, data, i, Spot(f, seen), nread - 1, calls, m) && nread - 1 <= 2 * (seen - (i - p))
      requires Good(want) && i > p ==> 2 * seen <= HTTP_MAX_HEADER_SIZE
      modifies this
      ensures p <= q < |data| && (flow.Next? || flow.Again? || flow.Fail?)
      ensures Good(want) ==> AtFlow(flow, want, data, q, Spot(f, seen), nread, calls, m')
      ensures !flow.Fail? ==> BytesToCome(f) && AllUpto(m', q)
      ensures flow.Again? ==> Ordinary(f.state)
      ensures f.errno == old(f).errno || f.errno.HeaderOverflow?
    {
      hide AtByte, AtFlow, Good;
      ghost var spot, was := Spot(f, seen), nread;
      m' := m;
      if Good(want) && i < |data| {
        ValueEnds(want, data, i, spot, nread - 1, calls, m);
      }
      var over := Count(i - p);
      if over {
        return Fail, p, m;
      }
      if i == |data| {
        if Good(want) {
          NextByte(want, data, i - 1, spot, was - 1, calls, m);
          CountLess(Next, want, data, i - 1, spot, was - 1, nread, calls, m);
        }
        return Next, i - 1, m;
      }
      seen := seen + 1;
      f := f.(state := Head(HeaderAlmostDone));
      GetKeeps(m, Value, p);
      m' := HandOver(data, m, Value, i);
      flow, q := if data[i] == CR then Next else Again, i;
      if Good(want) {
        CountLess(flow, want, data, i, Spot(f, seen), was, nread, calls, m');
      }
    }

    /** A stretch of a body: as many of its bytes as are there, at once. */
    method TakeBody(data: seq<byte>, p: nat, m: Marks, ghost want: Result) returns (flow: Flow, q: nat, m': Marks)
      requires p < |data| && InBody(f.state) && BytesToCome(f) && AllUpto(m, p)
      requires Good(want) ==> AtByte(want, data, p, Spot(f, seen), nread, calls, m)
      modifies this
      ensures p <= q < |data| && (flow.Next? || flow.Again?) && unchanged(`nread, `seen)
      ensures Good(want) ==> AtFlow(flow, want, data, q, Spot(f, seen), nread, calls, m')
      ensures BytesToCome(f) && (flow.Next? ==>
          AllUpto(m', q + 1)) && (flow.Again? ==> AllUpto(m', q) && Ordinary(f.state))
    {
      hide AtByte, AtPass, AtFlow, Good, AllUpto, WithMark, WithoutMark, Handed;
      MarksKeep(m, Some(Body), None, p);
      ghost var s := Spot(f, seen);
      m' := WithMark(m, Some(Body), p);
      var toRead := if f.state.BodyIdentityEof? || |data| - p < f.length then |data| - p else f.length;
      q := p + toRead - 1;
      UptoLater(m', p, q);
      UptoLater(m', p, q + 1);
      if f.state.BodyIdentityEof? || toRead < f.length {
        if !f.state.BodyIdentityEof? {
          f := f.(length := f.length - toRead);
        }
        if Good(want) {
          BodyGoesOn(want, data, p, s, nread, calls, m);
          NextByte(want, data, q, Spot(f, seen), nread, calls, m');
        }
        flow := Next;
      } else if f.state.ChunkData? {
        f := f.(length := 0, state := Chunk(ChunkDataAlmostDone));
        if Good(want) {
          ChunkCloses(want, data, p, s, nread, calls, m);
          NextByte(want, data, q, Spot(f, seen), nread, calls, m');
        }
        flow := Next;
      } else {
        f := f.(length := 0, state := MessageDone);
        MarksKeep(m, Some(Body), Some(Body), p);
        UptoLater(WithoutMark(m', Some(Body)), p, q);
        m' := HandOver(data, m', Body, q + 1);
        if Good(want) {
          BodyCloses(want, data, p, s, nread, old(calls), m);
          BodyMark(data, p, q);
          AgainByte(want, data, q, Spot(f, seen), nread, calls, m');
        }
        flow := Again;
      }
    }

    /** Passes over one byte until none asks for another. */
    method Reexecute(data: seq<byte>, p: nat, m: Marks, ghost want: Result) returns (flow: Flow, m': Marks)
      requires p < |data| && Ordinary(f.state) && AllUpto(m, p)
      requires Good(want) ==> AtPass(want, data, p, Spot(f, seen), nread, calls, m)
      modifies this
      ensures !flow.Again? && (Good(want) ==> AtFlow(flow, want, data, p, Spot(f, seen), nread, calls, m'))
      ensures flow.Fail? || (BytesToCome(f) && AllUpto(m', p))
    {
      hide AtPass, AtFlow, Good, Ordinary, Rank, BytesToCome, AllUpto;
      flow, m' := PassOver(data, p, m, want);
      while flow.Again?
        invariant flow.Again? ==> Ordinary(f.state)
        invariant flow.Fail? || (BytesToCome(f) && AllUpto(m', p))
        invariant Good(want) ==> AtFlow(flow, want, data, p, Spot(f, seen), nread, calls, m')
        decreases if flow.Again? then 1 + Rank(f.state) else 0
      {
        if Good(want) {
          AgainIs(want, data, p, Spot(f, seen), nread, calls, m');
        }
        flow, m' := PassOver(data, p, m', want);
      }
    }

    /** One turn of the loop over the bytes: q is the last byte it took. */
    method Turn(data: seq<byte>, p: nat, m: Marks, ghost want: Result) returns (flow: Flow, q: nat, m': Marks)
      requires p < |data| && AllUpto(m, p) && BytesToCome(f)
      requires Good(want) ==> AtByte(want, data, p, Spot(f, seen), nread, calls, m)
      modifies this
      ensures p <= q < |data| && !flow.Again?
      ensures Good(want) ==> AtFlow(flow, want, data, q, Spot(f, seen), nread, calls, m')
      ensures flow.Next? ==> BytesToCome(f) && AllUpto(m', q + 1)
    {
      hide AtByte, AtPass, AtFlow, Good, AllUpto, BytesToCome, TooLong;
      ghost var s, was := Spot(f, seen), nread;
      flow, q, m' := Again, p, m;
      if ParsingHeader(f.state) {
        if Good(want) && !InBody(f.state) {
          NotTooLong(want, data, p, s, nread, calls, m);
        }
        var over := Count(1);
        if over {
          return Fail, p, m;
        }
        if Good(want) && f.state == Chunk(ChunkSizeStart) {
          CountStarts(want, data, p, s, was, calls, m);
          assert nread == 1;
        }
      }
      if f.state.HeaderField? {
        flow, q, m' := ReadName(data, p, m, want);
      } else if f.state.HeaderValue? {
        flow, q, m' := ReadValue(data, p, m, want);
      } else if InBody(f.state) {
        flow, q, m' := TakeBody(data, p, m, want);
        UptoStep(m', q);
      } else {
        if Good(want) {
          NotLong(want);
          StartByte(want, data, p, s, was, calls, m);
        }
        if ParsingHeader(f.state) {
          seen := seen + 1;
        }
        flow, m' := Reexecute(data, p, m, want);
      }
      if flow.Again? {
        if Good(want) {
          AgainIs(want, data, q, Spot(f, seen), nread, calls, m');
        }
        flow, m' := Reexecute(data, q, m', want);
      }
      UptoStep(m', q);
    }

    /** The end of the stream: an empty buffer. */
    method AtEof() returns (used: nat)
      requires Valid()
      modifies this
      ensures Valid() && unchanged(`nread, `seen)
      ensures !old(f).errno.Ok? ==> used == 0 && unchanged(this)
      ensures old(f).errno.Ok? ==>
        if old(f).state.BodyIdentityEof? then
          used == 0 && f == old(f) && calls == old(calls) + [Note(MessageComplete)]
        else if BetweenMessages(old(f).state) then
          used == 0 && f == old(f) && calls == old(calls)
        else
          used == 1 && f == old(f).(errno := InvalidEofState) && calls == old(calls)
    {
      if !f.errno.Ok? {
        return 0;
      }
      if f.state.BodyIdentityEof? {
        calls := calls + [Note(MessageComplete)];
        used := 0;
      } else if BetweenMessages(f.state) {
        used := 0;
      } else {
        f := f.(errno := InvalidEofState);
        used := 1;
      }
    }

    /** http_parser_execute on a buffer that is not empty. */
    method Execute(data: seq<byte>) returns (used: nat)
      requires Valid() && |data| > 0
      modifies this
      ensures !old(f).errno.Ok? ==> used == 0 && unchanged(this)
      ensures old(f).errno.Ok? ==>
        var want := Join(Flat(old(calls)), 0, Run(Spot(old(f), old(seen)), data));
        Good(want) ==>
          && used == want.used && Spot(f, seen) == want.at
          && (if want.ending.Failed? then Flat(calls) <= want.told else Flat(calls) == want.told && Valid())
    {
      hide AtByte, AtFlow, Good, Run, Flat, AllUpto, BytesToCome, Sound, StartMarks, Known, Handed;
      if !f.errno.Ok? {
        return 0;
      }
      ghost var want := Join(Flat(calls), 0, Run(Spot(f, seen), data));
      Starts(want, data, Spot(f, seen), nread, calls);
      SoundBytes(Spot(f, seen));
      var m := StartMarks(f.state);
      var p := 0;
      while p < |data|
        invariant p <= |data| && AllUpto(m, p) && BytesToCome(f)
        invariant Good(want) ==> AtByte(want, data, p, Spot(f, seen), nread, calls, m)
      {
        var flow, q, m' := Turn(data, p, m, want);
        if Good(want) {
          FlowIs(flow, want, data, q, Spot(f, seen), nread, calls, m');
        }
        if flow.Fail? {
          return q;
        }
        if flow.Leave? {
          return q + 1;
        }
        p, m := q + 1, m';
      }
      if Good(want) {
        Finished(want, data, Spot(f, seen), nread, calls, m);
        assert Marked(m) <= 1;
        FinalCallbacks(calls, data, m, p);
      }
      RunCallbacks(data, m);
      used := |data|;
    }

    /** The callbacks for marks left over at the end of the bytes. */
    method RunCallbacks(data: seq<byte>, m: Marks)
      requires AllUpto(m, |data|)
      modifies this
      ensures unchanged(`f, `nread, `seen)
      ensures var n := |data|;
        calls == old(calls) + Handed(data, m, Some(Field), n) + Handed(data, m, Some(Value), n)
            + Handed(data, m, Some(Url), n)
                 + Handed(data, m, Some(Body), n) + Handed(data, m, Some(Status), n)
    {
      var n := |data|;
      var m1 := HandOver(data, m, Field, n);
      var m2 := HandOver(data, m1, Value, n);
      var m3 := HandOver(data, m2, Url, n);
      var m4 := HandOver(data, m3, Body, n);
      var m5 := HandOver(data, m4, Status, n);
    }
  }
}
