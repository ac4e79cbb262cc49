/** Which body the header lines announce, and whole messages read from the start line to the end of the body. */
module HttpFraming {

  import opened Base
  import opened HttpStates
  import opened HttpParser
  import opened HttpRuns
  import opened HttpMessages
  import opened HttpHeaders
  import opened HttpValues
  import opened HttpBodies
  import opened HttpStartLines

  // ---------------------------------------------------------------------
  // What one line does to the length and the chunked flag
  // ---------------------------------------------------------------------

  predicate IsNamed(l: Line, word: string)
  {
    Lowered(l.name) == Chars(word)
  }

  /** A Transfer-Encoding line whose value is "chunked", in any case. */
  predicate SaysChunked(l: Line)
  {
    IsNamed(l, "transfer-encoding") && WordThenSpaces(l.value, Chars("chunked"))
  }

  /** A Content-Length line with a value. */
  predicate SaysLength(l: Line)
  {
    IsNamed(l, "content-length") && |l.value| > 0
  }

  /** The states of the matcher of names. */
  predicate OfName(h: HeaderState)
  {
    || h.General? || h.C? || h.CO? || h.CON? || MatcherOf(h).Some?
    || h.Connection? || h.ContentLength? || h.TransferEncoding? || h.Upgrade?
  }

  lemma MatchNameOfName(h: HeaderState, i: nat, c: byte)
    requires OfName(h)
    ensures OfName(MatchName(h, i, c).0)
  {
    hide Is, CharAt;
  }

  lemma {:induction false} FoldNameOfName(h: HeaderState, i: nat, t: seq<byte>)
    requires OfName(h)
    ensures OfName(FoldName(h, i, t).0)
    decreases |t|
  {
    hide Token, MatchName, OfName;
    if |t| > 0 {
      MatchNameOfName(h, i, Token(t[0]));
      var (h', i') := MatchName(h, i, Token(t[0]));
      FoldNameOfName(h', i', t[1..]);
    }
  }

  lemma NameStateOfName(name: seq<byte>)
    requires |name| > 0
    ensures OfName(NameState(name))
  {
    hide Token, FoldName, Is;
    FoldNameOfName(FirstOfName(Token(name[0])), 0, name[1..]);
  }

  /** A name never stands for a flag. */
  lemma NameNotFlagged(f: Fields)
    requires OfName(f.header)
    ensures Flagged(f) == f
  {
  }

  /** The states of the matcher of values other than lengths and encodings. */
  predicate OfOther(h: HeaderState)
  {
    !h.MatchingChunked? && !h.Chunked? && !h.ContentLength?
  }

  /** What no header line touches. */
  predicate SameMessage(f: Fields, g: Fields)
  {
    && g.flags.skipBody == f.flags.skipBody && g.flags.trailing == f.flags.trailing && g.method_ == f.method_
    && g.reply == f.reply && g.upgrade == f.upgrade && g.kind == f.kind && g.status == f.status
  }

  /** The fields that say which body follows. */
  predicate SameFraming(f: Fields, g: Fields)
  {
    && SameMessage(f, g) && g.length == f.length && g.flags.contentLength == f.flags.contentLength
    && g.flags.chunked == f.flags.chunked
  }

  lemma FlaggedSame(f: Fields)
    requires !f.header.Chunked?
    ensures SameFraming(f, Flagged(f))
  {
    var flags, g := f.flags, Flagged(f);
    match f.header {
      case KeepAlive => assert g.flags == flags.(keepAlive := true);
      case Close => assert g.flags == flags.(close := true);
      case ConnectionUpgrade => assert g.flags == flags.(connectionUpgrade := true);
      case _ =>
    }
  }

  lemma AfterTokenSame(f: Fields, ch: byte)
    requires !f.header.Chunked?
    ensures SameFraming(f, ActAfterToken(f, ch).f)
  {
    hide Is, Flagged;
    FlaggedSame(f);
  }

  lemma InValueSame(f: Fields, ch: byte)
    requires OfOther(f.header)
    ensures SameFraming(f, ActInValue(f, ch).f) && OfOther(ActInValue(f, ch).f.header)
  {
    hide Lower, Token, ActAfterToken, Is, SameFraming, CharAt;
    InValueOther(f, ch);
    if f.header.KeepAlive? || f.header.Close? || f.header.ConnectionUpgrade? {
      AfterTokenSame(f, ch);
    } else {
      InValuePlain(f, ch);
    }
  }

  lemma InValueOther(f: Fields, ch: byte)
    requires OfOther(f.header)
    ensures OfOther(ActInValue(f, ch).f.header)
  {
    hide Lower, Token, Is, CharAt, Flagged;
    match f.header {
      case MatchingTokenStart =>
      case MatchingKeepAlive =>
      case MatchingClose =>
      case MatchingConnectionUpgrade =>
      case MatchingToken =>
      case _ =>
    }
  }

  lemma InValuePlain(f: Fields, ch: byte)
    requires OfOther(f.header) && !f.header.KeepAlive? && !f.header.Close? && !f.header.ConnectionUpgrade?
    ensures SameFraming(f, ActInValue(f, ch).f)
  {
    hide Lower, Token, Is, MatchWord, FirstOfConnection;
    var g := ActInValue(f, ch).f;
    match f.header {
      case MatchingTokenStart => assert g == f.(header := g.header);
      case MatchingKeepAlive => assert g == f.(index := g.index, header := g.header);
      case MatchingClose => assert g == f.(index := g.index, header := g.header);
      case MatchingConnectionUpgrade => assert g == f.(index := g.index, header := g.header);
      case MatchingToken => assert g == f.(index := g.index, header := g.header);
      case _ =>
    }
  }

  lemma {:induction false} FoldOther(f: Fields, t: seq<byte>)
    requires OfOther(f.header)
    ensures SameFraming(f, FoldValue(f, t)) && OfOther(FoldValue(f, t).header)
    decreases |t|
  {
    hide ActInValue;
    if |t| > 0 {
      InValueSame(f, t[0]);
      FoldOther(ActInValue(f, t[0]).f, t[1..]);
    }
  }

  /** A value that is neither a length nor an encoding. */
  lemma OtherLine(f: Fields, t: seq<byte>)
    requires |t| > 0 && OfName(f.header) && !f.header.ContentLength? && !f.header.TransferEncoding?
    ensures SameFraming(f, AfterValue(f, t))
  {
    hide FoldValue, Flagged, Lower, Is, SameFraming, OfName;
    var g := ActValueStart(f, t[0]).f;
    OtherStart(f, t[0]);
    FoldOther(g, t[1..]);
    FlaggedSame(FoldValue(g, t[1..]));
    SameThrough(f, g, FoldValue(g, t[1..]), Flagged(FoldValue(g, t[1..])));
  }

  lemma OtherStart(f: Fields, ch: byte)
    requires OfName(f.header) && !f.header.ContentLength? && !f.header.TransferEncoding?
    ensures SameFraming(f, ActValueStart(f, ch).f) && OfOther(ActValueStart(f, ch).f.header)
  {
    hide Lower, Is;
    var g := ActValueStart(f, ch).f;
    match f.header {
      case Upgrade => assert g.flags == f.flags.(upgrade := true);
      case Connection => assert g.flags == f.flags;
      case _ =>
    }
  }

  lemma SameThrough(a: Fields, b: Fields, c: Fields, d: Fields)
    requires SameFraming(a, b) && SameFraming(b, c) && SameFraming(c, d)
    ensures SameFraming(a, d.(state := Head(HeaderFieldStart)))
  {
  }

  // --- encodings

  lemma {:induction false} FoldChunkedSame(f: Fields, t: seq<byte>)
    requires AboutChunked(f)
    ensures SameFraming(f, FoldValue(f, t)) && AboutChunked(FoldValue(f, t))
    decreases |t|
  {
    hide ActInValue;
    if |t| > 0 {
      ChunkedStep(f, t[0]);
      FoldChunkedSame(ActInValue(f, t[0]).f, t[1..]);
    }
  }

  lemma ChunkedStep(f: Fields, ch: byte)
    requires AboutChunked(f)
    ensures SameFraming(f, ActInValue(f, ch).f) && AboutChunked(ActInValue(f, ch).f)
  {
    hide Lower, Is, CharAt;
  }

  /** The framing as it was, except for the chunked flag. */
  predicate SameButChunked(f: Fields, g: Fields, chunked: bool)
  {
    && SameMessage(f, g) && g.length == f.length && g.flags.contentLength == f.flags.contentLength
    && g.flags.chunked == chunked
  }

  lemma FlaggedChunked(f: Fields)
    requires AboutChunked(f)
    ensures SameButChunked(f, Flagged(f).(state := Head(HeaderFieldStart)), f.flags.chunked || f.header.Chunked?)
  {
    if f.header.Chunked? {
      assert Flagged(f).flags == f.flags.(chunked := true);
    } else {
      assert Flagged(f) == f;
    }
  }

  lemma ButChunkedThrough(a: Fields, b: Fields, c: Fields, d: Fields, chunked: bool)
    requires SameFraming(a, b) && SameFraming(b, c) && SameButChunked(c, d, chunked)
    ensures SameButChunked(a, d, chunked)
  {
  }

  lemma EncodingLine(f: Fields, t: seq<byte>)
    requires |t| > 0 && f.header.TransferEncoding?
    ensures SameButChunked(f, AfterValue(f, t), f.flags.chunked || WordThenSpaces(t, Chars("chunked")))
  {
    hide FoldValue, Flagged, Lower, Is, SameFraming, WordThenSpaces, SameButChunked;
    var g := ActValueStart(f, t[0]).f;
    ChunkedValue(f, t);
    EncodingStart(f, t[0]);
    FoldChunkedSame(g, t[1..]);
    var h := FoldValue(g, t[1..]);
    FlaggedChunked(h);
    SameChunked(f, g, h);
    ButChunkedThrough(f, g, h, AfterValue(f, t), h.flags.chunked || h.header.Chunked?);
  }

  lemma SameChunked(f: Fields, g: Fields, h: Fields)
    requires SameFraming(f, g) && SameFraming(g, h)
    ensures h.flags.chunked == f.flags.chunked
  {
  }

  lemma EncodingStart(f: Fields, ch: byte)
    requires f.header.TransferEncoding?
    ensures SameFraming(f, ActValueStart(f, ch).f) && AboutChunked(ActValueStart(f, ch).f)
  {
    hide Lower, Is;
  }

  // --- one line

  /** What is known about the body behind a line, given what was known in front of it. */
  predicate LineDeclares(f: Fields, l: Line, g: Fields)
  {
    && g.flags.chunked == (f.flags.chunked || SaysChunked(l))
    && g.flags.contentLength == (f.flags.contentLength || SaysLength(l))
    && g.length == (if SaysLength(l) && IsLength(l.value) then Numeral(10, Digits(l.value), 0) else f.length)
    && SameMessage(f, g)
  }

  lemma WordsDiffer()
    ensures Chars("content-length") != Chars("transfer-encoding")
  {
    assert Chars("content-length")[0] != Chars("transfer-encoding")[0];
  }

  lemma NoWordInNothing(w: string)
    requires |w| > 0
    ensures !WordThenSpaces([], Chars(w))
  {
  }

  lemma OneLineDeclares(f: Fields, l: Line)
    requires IsLine(f, l)
    ensures LineDeclares(f, l, AfterField(f, l))
  {
    hide IsToken, IsBlank, Lowered, NameState, FoldName, AfterValue, IsLength, Inside, Flagged, WordThenSpaces, OfName,
         Token, FirstOfName, Numeral, Digits;
    var n := Named(f, l.name);
    NameMatched(l.name);
    NameStateOfName(l.name);
    WordsDiffer();
    if |l.value| == 0 {
      NameNotFlagged(n);
      NoWordInNothing("chunked");
    } else if n.header.ContentLength? {
      LengthFields(n, l.value);
    } else if n.header.TransferEncoding? {
      EncodingLine(n, l.value);
    } else {
      OtherLine(n, l.value);
    }
  }

  // --- all lines

  predicate AnyChunked(ls: seq<Line>)
  {
    exists l :: l in ls && SaysChunked(l)
  }

  predicate AnyLength(ls: seq<Line>)
  {
    exists l :: l in ls && SaysLength(l)
  }

  /** The length that the lines announce, if they do. */
  function LengthOf(ls: seq<Line>, otherwise: nat): nat
  {
    if |ls| == 0 then otherwise
    else
      var l := ls[0];
      LengthOf(ls[1..], if SaysLength(l) && IsLength(l.value) then Numeral(10, Digits(l.value), 0) else otherwise)
  }

  /** What is known about the body behind all lines. */
  predicate LinesDeclare(f: Fields, ls: seq<Line>, g: Fields)
  {
    && g.flags.chunked == (f.flags.chunked || AnyChunked(ls))
    && g.flags.contentLength == (f.flags.contentLength || AnyLength(ls))
    && g.length == LengthOf(ls, f.length)
    && SameMessage(f, g)
  }

  lemma AnyStep(ls: seq<Line>)
    requires |ls| > 0
    ensures AnyChunked(ls) <==> SaysChunked(ls[0]) || AnyChunked(ls[1..])
    ensures AnyLength(ls) <==> SaysLength(ls[0]) || AnyLength(ls[1..])
  {
    hide SaysChunked, SaysLength;
    assert ls == [ls[0]] + ls[1..];
  }

  lemma DeclareStep(f: Fields, g: Fields, ls: seq<Line>, h: Fields)
    requires |ls| > 0 && LineDeclares(f, ls[0], g) && LinesDeclare(g, ls[1..], h)
    ensures LinesDeclare(f, ls, h)
  {
    hide SaysChunked, SaysLength, AnyChunked, AnyLength, IsLength, Numeral, Digits;
    AnyStep(ls);
  }

  /** Behind all lines the flags and the length say what the lines say, whatever other lines stand among them. */
  lemma {:induction false} HeadersDeclare(f: Fields, ls: seq<Line>)
    requires AreLines(f, ls)
    ensures LinesDeclare(f, ls, AfterFields(f, ls))
    decreases |ls|
  {
    hide AfterField, IsLine, LinesDeclare;
    if |ls| == 0 {
      NothingDeclared(f);
    } else {
      NameNotEmpty(f, ls[0]);
      var g := AfterField(f, ls[0]);
      OneLineDeclares(f, ls[0]);
      HeadersDeclare(g, ls[1..]);
      DeclareStep(f, g, ls, AfterFields(f, ls));
    }
  }

  lemma NothingDeclared(f: Fields)
    ensures LinesDeclare(f, [], f)
  {
  }

  /** A line that says a length is the only one, and the length is the value of its digits. */
  lemma {:induction false} OnlyLength(f: Fields, ls: seq<Line>, l: Line, otherwise: nat)
    requires AreLines(f, ls) && l in ls && SaysLength(l)
    ensures !f.flags.contentLength && IsLength(l.value) && LengthOf(ls, otherwise) == Numeral(10, Digits(l.value), 0)
    decreases |ls|
  {
    hide AfterField, IsLine, SaysLength, Numeral, Digits, Accumulate, IsNum;
    var first := ls[0];
    NameNotEmpty(f, first);
    var g := AfterField(f, first);
    OneLineDeclares(f, first);
    if SaysLength(first) {
      LengthOk(f, first);
      NoMoreLength(g, ls[1..], Numeral(10, Digits(first.value), 0));
      assert l == first;
    } else {
      OnlyLength(g, ls[1..], l, otherwise);
    }
  }

  lemma {:induction false} NoMoreLength(f: Fields, ls: seq<Line>, otherwise: nat)
    requires AreLines(f, ls) && f.flags.contentLength
    ensures !AnyLength(ls) && LengthOf(ls, otherwise) == otherwise
    decreases |ls|
  {
    hide AfterField, IsLine, SaysLength, IsLength, Numeral, Digits;
    if |ls| > 0 {
      var first := ls[0];
      NameNotEmpty(f, first);
      OneLineDeclares(f, first);
      if SaysLength(first) {
        LengthOk(f, first);
      }
      NoMoreLength(AfterField(f, first), ls[1..], otherwise);
      AnyStep(ls);
    }
  }

  lemma LengthOk(f: Fields, l: Line)
    requires IsLine(f, l) && SaysLength(l)
    ensures !f.flags.contentLength && IsLength(l.value)
  {
    hide Lowered, NameState, IsToken, IsBlank, IsLength, Inside;
    NameMatched(l.name);
  }

  // ---------------------------------------------------------------------
  // The end of the header, and the body
  // ---------------------------------------------------------------------

  /** The body of a message: none, of a length given in front, or in chunks. */
  datatype Content = Absent | Sized(data: seq<byte>) | InChunks(chunks: Chunks)

  /** The header lines say that this body follows (section 3.3.3 of RFC 7230). */
  predicate Announces(kind: Type, ls: seq<Line>, b: Content)
  {
    match b
    case Absent => kind.Request? && !AnyChunked(ls) && !AnyLength(ls)
    case Sized(data) => !AnyChunked(ls) && exists l :: l in ls && SaysLength(l) && IsLengthOf(l.value, |data|)
    case InChunks(_) => AnyChunked(ls) && !AnyLength(ls)
  }

  predicate IsLengthOf(t: seq<byte>, n: nat)
  {
    IsLength(t) && Numeral(10, Digits(t), 0) == n
  }

  /** In front of the header lines of a message whose body is wanted. */
  predicate AtHeaders(f: Fields)
  {
    && f.state == Head(HeaderFieldStart) && f.reply.ReadBody? && !f.method_.CONNECT? && f.length == ULLONG_MAX
    && !f.flags.trailing && !f.flags.skipBody && !f.flags.chunked && !f.flags.contentLength
  }

  /** Behind the header lines, when no other protocol is asked for. */
  predicate NoUpgrade(f: Fields)
  {
    !(f.flags.upgrade && f.flags.connectionUpgrade)
  }

  /** The fields behind the empty line, but for the state. */
  function HeaderRead(f: Fields): Fields
  {
    f.(state := Head(HeadersDone), upgrade := false)
  }

  function ContentText(b: Content): seq<byte>
  {
    match b
    case Absent => []
    case Sized(data) => data
    case InChunks(c) => ChunksText(c)
  }

  function ContentEvents(b: Content): seq<Event>
  {
    match b
    case Absent => [Told(MessageComplete)]
    case Sized(data) => Bytes(Body, data) + [Told(MessageComplete)]
    case InChunks(c) => ChunksEvents(c)
  }

  predicate IsContent(f: Fields, b: Content)
  {
    b.InChunks? ==> IsChunks(f, b.chunks)
  }

  /** Where the parser stands behind the body. */
  function AfterContent(f: Fields, b: Content): Spot
    requires IsContent(f, b)
  {
    match b
    case Absent => Spot(f, 0)
    case Sized(data) => Spot(f.(length := 0), 0)
    case InChunks(c) => Spot(AfterChunks(f, c), |LinesText(c.trailers)| + 2)
  }

  lemma HeaderEndActs(f: Fields)
    requires f.state == Head(HeaderFieldStart) && f.reply.ReadBody? && !f.method_.CONNECT? && !f.flags.trailing
        && !f.flags.skipBody && NoUpgrade(f) && !(f.flags.chunked && f.flags.contentLength)
    ensures Act(f, CR) == Move(f, Head(HeadersAlmostDone))
    ensures Act(f.(state := Head(HeadersAlmostDone)), LF) == Outcome(HeaderRead(f), [HeadersComplete], Again, false)
  {
    assert f.flags.(skipBody := f.flags.skipBody) == f.flags;
  }

  /** The empty line behind the header lines. */
  lemma HeaderEnds(s: Spot, rest: seq<byte>)
    requires s.f.state == Head(HeaderFieldStart) && s.f.reply.ReadBody? && !s.f.method_.CONNECT? && !s.f.flags.trailing
        && !s.f.flags.skipBody && NoUpgrade(s.f) && !(s.f.flags.chunked && s.f.flags.contentLength)
    requires 2 * (s.seen + 2) <= HTTP_MAX_HEADER_SIZE
    ensures Run(s, [CR, LF] + rest)
         == Join([Told(HeadersComplete)], 1, Pass(Spot(HeaderRead(s.f), s.seen + 2), [LF] + rest))
  {
    hide Run, Pass, Act, HeaderRead, NoUpgrade;
    var data := [CR, LF] + rest;
    var s1 := Spot(s.f.(state := Head(HeadersAlmostDone)), s.seen + 1);
    var s2 := Spot(HeaderRead(s.f), s.seen + 2);
    HeaderEndActs(s.f);
    assert data[0] == CR && data[1..][0] == LF && data[1..] == [LF] + rest;
    QuietByte(s, data);
    AgainHeader(s1, data[1..]);
    assert Notes([HeadersComplete]) == [Told(HeadersComplete)];
    JoinJoin([], 1, [Told(HeadersComplete)], 0, Pass(s2, data[1..]));
    AddNothing([Told(HeadersComplete)]);
  }

  /** The pass over the LF of the empty line that decides about the body. */
  lemma BodyDecided(f: Fields)
    requires f.state == Head(HeadersDone) && !f.upgrade && !f.flags.skipBody
    ensures f.flags.chunked ==> Act(f, LF) == Outcome(f.(state := Chunk(ChunkSizeStart)), [], Next, true)
    ensures !f.flags.chunked && 0 < f.length < ULLONG_MAX ==> Act(f, LF) == Outcome(f.(state := BodyIdentity), [], Next,
        true)
    ensures !f.flags.chunked && (f.length == 0 || (f.length == ULLONG_MAX && f.kind.Request?))
        ==> Act(f, LF) == Ended(f, Next, true)
  {
    hide ShouldKeepAlive, NewMessage;
  }

  lemma NextByte(s: Spot, rest: seq<byte>, g: Fields, notes: seq<Notice>)
    requires Act(s.f, LF) == Outcome(g, notes, Next, true) && Collecting(g.state).None?
    ensures Pass(s, [LF] + rest) == Join(Notes(notes), 1, Run(Spot(g, 0), rest))
  {
    hide Act, Run, Notes;
    var data := [LF] + rest;
    assert data[0] == LF && data[1..] == rest;
    AddNothing(Notes(notes));
  }

  lemma NextMessage(f: Fields, a: State, seen: nat, rest: seq<byte>)
    ensures AfterMessage(f.(state := a), seen, rest) == AfterMessage(f, seen, rest)
    ensures Collecting(NewMessage(f)).None?
  {
    hide Run;
  }

  /** The pass over the LF, and the run over the body, tell what the body is and go on behind the message. */
  predicate ReadsBody(s: Spot, b: Content, rest: seq<byte>)
    requires IsContent(s.f, b)
  {
    var at := AfterContent(s.f, b);
    Pass(s, [LF] + (ContentText(b) + rest))
    == Join(ContentEvents(b), |ContentText(b)| + 1, AfterMessage(at.f, at.seen, rest))
  }

  predicate Decided(f: Fields, b: Content)
  {
    match b
    case Absent => !f.flags.chunked && f.length == ULLONG_MAX && f.kind.Request?
    case Sized(data) => !f.flags.chunked && f.length == |data| < ULLONG_MAX
    case InChunks(_) => f.flags.chunked
  }

  lemma NoBodyFollows(s: Spot, b: Content, rest: seq<byte>)
    requires s.f.state == Head(HeadersDone) && !s.f.upgrade && !s.f.flags.skipBody
    requires Decided(s.f, b) && (b.Absent? || (b.Sized? && |b.data| == 0))
    ensures ReadsBody(s, b, rest)
  {
    hide Act, Run, Pass, NewMessage;
    BodyDecided(s.f);
    var g := s.f.(state := NewMessage(s.f));
    NextMessage(s.f, g.state, 0, rest);
    assert ContentText(b) + rest == rest;
    NextByte(s, rest, g, [MessageComplete]);
    assert Notes([MessageComplete]) == [Told(MessageComplete)];
    if b.Sized? {
      assert b.data == [];
      BytesNone(Body);
      AddNothing([Told(MessageComplete)]);
    }
  }

  lemma SizedBodyFollows(s: Spot, data: seq<byte>, rest: seq<byte>)
    requires s.f.state == Head(HeadersDone) && !s.f.upgrade && !s.f.flags.skipBody
    requires Decided(s.f, Sized(data)) && |data| > 0
    ensures ReadsBody(s, Sized(data), rest)
  {
    hide Act, Run, Pass, AfterMessage, Bytes;
    BodyDecided(s.f);
    var g, told := s.f.(state := BodyIdentity), Bytes(Body, data) + [Told(MessageComplete)];
    NextByte(s, data + rest, g, []);
    IdentityBody(Spot(g, 0), data, rest);
    NextMessage(s.f.(length := 0), MessageDone, 0, rest);
    assert Notes([]) == [];
    BlanksFirst(1, told, |data|, Pass(s, [LF] + (data + rest)), Run(Spot(g, 0), data + rest),
        AfterMessage(s.f.(length := 0), 0, rest));
  }

  lemma ChunkedBodyFollows(s: Spot, c: Chunks, rest: seq<byte>)
    requires s.f.state == Head(HeadersDone) && !s.f.upgrade && !s.f.flags.skipBody && IsChunks(s.f, c)
    requires Decided(s.f, InChunks(c))
    ensures ReadsBody(s, InChunks(c), rest)
  {
    hide Act, Run, Pass, AfterMessage, ChunksText, ChunksEvents, AfterFields, AreLines, IsPart;
    BodyDecided(s.f);
    var g := s.f.(state := Chunk(ChunkSizeStart));
    assert InTrailer(g.(length := 0)) == InTrailer(s.f.(length := 0));
    var r := AfterMessage(AfterChunks(s.f, c), |LinesText(c.trailers)| + 2, rest);
    NextByte(s, ChunksText(c) + rest, g, []);
    ChunkedBody(Spot(g, 0), c, rest);
    assert Notes([]) == [];
    BlanksFirst(1, ChunksEvents(c), |ChunksText(c)|, Pass(s, [LF] + (ChunksText(c) + rest)),
        Run(Spot(g, 0), ChunksText(c) + rest), r);
  }

  lemma BodyFollows(s: Spot, b: Content, rest: seq<byte>)
    requires s.f.state == Head(HeadersDone) && !s.f.upgrade && !s.f.flags.skipBody && IsContent(s.f, b)
    requires Decided(s.f, b)
    ensures ReadsBody(s, b, rest)
  {
    hide ReadsBody, IsChunks;
    match b
    case Absent => NoBodyFollows(s, b, rest);
    case Sized(data) =>
      if |data| == 0 {
        NoBodyFollows(s, b, rest);
      } else {
        SizedBodyFollows(s, data, rest);
      }
    case InChunks(c) => ChunkedBodyFollows(s, c, rest);
  }

  // ---------------------------------------------------------------------
  // Whole messages
  // ---------------------------------------------------------------------

  /** The header lines and the body of a message. */
  datatype Message = Message(lines: seq<Line>, body: Content)

  function MessageText(m: Message): seq<byte>
  {
    LinesText(m.lines) + [CR, LF] + ContentText(m.body)
  }

  function MessageEvents(m: Message): seq<Event>
  {
    LinesEvents(m.lines) + [Told(HeadersComplete)] + ContentEvents(m.body)
  }

  /** A message whose lines announce its body. */
  predicate IsMessage(s: Spot, m: Message)
  {
    && AreLines(s.f, m.lines) && 2 * (s.seen + |LinesText(m.lines)| + 2) <= HTTP_MAX_HEADER_SIZE
    && var g := AfterFields(s.f, m.lines);
       NoUpgrade(g) && Announces(s.f.kind, m.lines, m.body) && IsContent(HeaderRead(g), m.body)
  }

  /** Where the parser stands in front of what follows the message. */
  function AfterWhole(s: Spot, m: Message): Spot
    requires IsMessage(s, m)
  {
    AfterContent(HeaderRead(AfterFields(s.f, m.lines)), m.body)
  }

  predicate ReadsMessage(s: Spot, m: Message, rest: seq<byte>)
    requires IsMessage(s, m)
  {
    var at := AfterWhole(s, m);
    Run(s, MessageText(m) + rest) == Join(MessageEvents(m), |MessageText(m)|, AfterMessage(at.f, at.seen, rest))
  }

  /** The header lines decide about the body. */
  lemma LinesDecide(f: Fields, m: Message)
    requires AtHeaders(f) && AreLines(f, m.lines) && Announces(f.kind, m.lines, m.body)
    ensures Decided(HeaderRead(AfterFields(f, m.lines)), m.body)
    ensures var g := AfterFields(f, m.lines);
      && SameMessage(f, g) && !(g.flags.chunked && g.flags.contentLength)
  {
    hide AfterFields, AreLines, SaysChunked, SaysLength, AnyChunked, AnyLength, Numeral, Digits, IsNum, Accumulate;
    HeadersDeclare(f, m.lines);
    match m.body
    case Absent => NoLength(m.lines, f.length);
    case Sized(data) =>
      var l :| l in m.lines && SaysLength(l) && IsLengthOf(l.value, |data|);
      OnlyLength(f, m.lines, l, f.length);
      LengthIs(l.value);
    case InChunks(_) =>
  }

  lemma {:induction false} NoLength(ls: seq<Line>, otherwise: nat)
    requires !AnyLength(ls)
    ensures LengthOf(ls, otherwise) == otherwise
    decreases |ls|
  {
    hide SaysLength, SaysChunked, IsLength, Numeral, Digits;
    if |ls| > 0 {
      AnyStep(ls);
      NoLength(ls[1..], otherwise);
    }
  }

  /**
   A message from behind its start line to its end: every header line gives its name and its value, the body
   that the lines announce is handed over and nothing else is, and the message is complete once.
   */
  lemma WholeMessage(s: Spot, m: Message, rest: seq<byte>)
    requires AtHeaders(s.f) && IsMessage(s, m)
    ensures ReadsMessage(s, m, rest)
  {
    hide Run, Pass, AreLines, AfterFields, LinesText, LinesEvents, Decided, Announces, ContentText, ContentEvents,
         AfterContent, IsContent, AfterMessage, NoUpgrade;
    var x, y := LinesText(m.lines), ContentText(m.body);
    var g := AfterFields(s.f, m.lines);
    var s1, s2 := Spot(g, s.seen + |x|), Spot(HeaderRead(g), s.seen + |x| + 2);
    var at := AfterWhole(s, m);
    var r := AfterMessage(at.f, at.seen, rest);
    LinesDecide(s.f, m);
    AfterFieldsStart(s.f, m.lines);
    ManyLines(s, m.lines, [CR, LF] + (y + rest));
    HeaderEnds(s1, y + rest);
    BodyFollows(s2, m.body, rest);
    assert Run(s1, [CR, LF] + (y + rest)) == Join([Told(HeadersComplete)], 1,
        Join(ContentEvents(m.body), |y| + 1, r));
    JoinJoin([Told(HeadersComplete)], 1, ContentEvents(m.body), |y| + 1, r);
    JoinJoin(LinesEvents(m.lines), |x|, [Told(HeadersComplete)] + ContentEvents(m.body), |y| + 2, r);
    assert x + ([CR, LF] + (y + rest)) == MessageText(m) + rest;
    assert LinesEvents(m.lines) + ([Told(HeadersComplete)] + ContentEvents(m.body)) == MessageEvents(m);
  }

  // ---------------------------------------------------------------------
  // Messages in a row
  // ---------------------------------------------------------------------

  /** A message with its start line. */
  datatype Whole = Whole(start: StartLine, message: Message)

  function Behind(s: Spot, l: StartLine): Spot
    requires IsStart(l)
  {
    Spot(AfterStart(s.f, l), s.seen + |StartText(l)|)
  }

  /** A message that this parser, with a caller who wants bodies, can read here. */
  predicate IsWhole(s: Spot, w: Whole)
  {
    && IsStart(w.start) && Expects(s.f, w.start) && 2 * (s.seen + |StartText(w.start)|) <= HTTP_MAX_HEADER_SIZE
    && s.f.reply.ReadBody? && !(if w.start.RequestLine? then w.start.method_ else s.f.method_).CONNECT?
    && IsMessage(Behind(s, w.start), w.message)
  }

  function WholeText(w: Whole): seq<byte>
  {
    StartText(w.start) + MessageText(w.message)
  }

  function WholeEvents(w: Whole): seq<Event>
  {
    StartEvents(w.start) + MessageEvents(w.message)
  }

  /** Where the next message starts. */
  function NextSpot(s: Spot, w: Whole): Spot
    requires IsWhole(s, w)
  {
    var at := AfterWhole(Behind(s, w.start), w.message);
    Spot(at.f.(state := NewMessage(at.f)), at.seen)
  }

  lemma StartsAtHeaders(s: Spot, w: Whole)
    requires IsWhole(s, w)
    ensures AtHeaders(Behind(s, w.start).f)
  {
    hide IsMessage, IsStart, StartText, MethodString, CodeValue;
  }

  lemma AfterContentKeeps(f: Fields, b: Content)
    requires IsContent(f, b) && !f.upgrade
    ensures !AfterContent(f, b).f.upgrade
  {
    hide AreLines, AfterFields, IsPart;
    if b.InChunks? {
      HeadersDeclare(InTrailer(f.(length := 0)), b.chunks.trailers);
    }
  }

  lemma NotUpgraded(s: Spot, m: Message)
    requires IsMessage(s, m)
    ensures !AfterWhole(s, m).f.upgrade
  {
    hide AreLines, AfterFields, IsContent, AfterContent, NoUpgrade, Announces;
    AfterContentKeeps(HeaderRead(AfterFields(s.f, m.lines)), m.body);
  }

  lemma AfterMessageRuns(f: Fields, seen: nat, rest: seq<byte>)
    requires !f.upgrade
    ensures AfterMessage(f, seen, rest) == Run(Spot(f.(state := NewMessage(f)), seen), rest)
  {
    hide Run, NewMessage;
  }

  /** A message from its first byte to its last, and on to the next. */
  lemma WholeRead(s: Spot, w: Whole, rest: seq<byte>)
    requires IsWhole(s, w)
    ensures Tells(s, WholeText(w), WholeEvents(w), NextSpot(s, w), rest)
  {
    hide IsStart, AfterStart, StartText, StartEvents, AtHeaders, IsMessage, MessageText, MessageEvents, AfterWhole,
         NewMessage, Expects, AfterMessage, Run;
    var s1, y := Behind(s, w.start), MessageText(w.message);
    StartRead(s, w.start, y + rest);
    StartsAtHeaders(s, w);
    WholeMessage(s1, w.message, rest);
    NotUpgraded(s1, w.message);
    var at := AfterWhole(s1, w.message);
    AfterMessageRuns(at.f, at.seen, rest);
    TellsThenTells(s, StartText(w.start), StartEvents(w.start), s1, y, MessageEvents(w.message), NextSpot(s, w), rest);
  }

  function StreamText(ws: seq<Whole>): seq<byte>
  {
    if |ws| == 0 then [] else WholeText(ws[0]) + StreamText(ws[1..])
  }

  function StreamEvents(ws: seq<Whole>): seq<Event>
  {
    if |ws| == 0 then [] else WholeEvents(ws[0]) + StreamEvents(ws[1..])
  }

  /** Messages one behind the other: each is one that the parser can read where the one before has left it. */
  predicate AreMessages(s: Spot, ws: seq<Whole>)
    decreases |ws|
  {
    |ws| > 0 ==> IsWhole(s, ws[0]) && AreMessages(NextSpot(s, ws[0]), ws[1..])
  }

  function AfterStream(s: Spot, ws: seq<Whole>): Spot
    requires AreMessages(s, ws)
    decreases |ws|
  {
    if |ws| == 0 then s else AfterStream(NextSpot(s, ws[0]), ws[1..])
  }

  /** Messages on one connection are read one after the other. */
  lemma {:induction false} StreamRead(s: Spot, ws: seq<Whole>, rest: seq<byte>)
    requires AreMessages(s, ws)
    ensures Tells(s, StreamText(ws), StreamEvents(ws), AfterStream(s, ws), rest)
    decreases |ws|
  {
    hide Tells, IsWhole, NextSpot, WholeText, WholeEvents;
    if |ws| == 0 {
      TellsNothing(s, rest);
    } else {
      var s1 := NextSpot(s, ws[0]);
      WholeRead(s, ws[0], StreamText(ws[1..]) + rest);
      StreamRead(s1, ws[1..], rest);
      TellsThenTells(s, WholeText(ws[0]), WholeEvents(ws[0]), s1, StreamText(ws[1..]), StreamEvents(ws[1..]),
          AfterStream(s, ws), rest);
    }
  }

  // ---------------------------------------------------------------------
  // What the callbacks get
  // ---------------------------------------------------------------------

  /** The bytes handed over as body. */
  function BodyOf(told: seq<Event>): seq<byte>
  {
    if |told| == 0 then []
    else (if told[0].Heard? && told[0].kind.Body? then [told[0].b] else []) + BodyOf(told[1..])
  }

  function Times(told: seq<Event>, note: Notice): nat
  {
    multiset(told)[Told(note)]
  }

  lemma {:induction false} BodyOfSum(a: seq<Event>, b: seq<Event>)
    ensures BodyOf(a + b) == BodyOf(a) + BodyOf(b)
    decreases |a|
  {
    if |a| == 0 {
      assert a + b == b;
    } else {
      assert (a + b)[0] == a[0] && (a + b)[1..] == a[1..] + b;
      BodyOfSum(a[1..], b);
    }
  }

  lemma {:induction false} BodyOfBytes(k: Kind, t: seq<byte>)
    ensures BodyOf(Bytes(k, t)) == if k.Body? then t else []
    decreases |t|
  {
    if |t| > 0 {
      BytesFirst(k, t);
      BodyOfBytes(k, t[1..]);
      assert Bytes(k, t)[1..] == Bytes(k, t[1..]);
    } else {
      BytesNone(k);
    }
  }

  lemma BytesTellNothing(k: Kind, t: seq<byte>, note: Notice)
    ensures Times(Bytes(k, t), note) == 0
  {
  }

  lemma OneNotice(n: Notice, note: Notice)
    ensures BodyOf([Told(n)]) == [] && Times([Told(n)], note) == if n == note then 1 else 0
  {
    assert [Told(n)][1..] == [];
  }

  lemma TimesSum(a: seq<Event>, b: seq<Event>, note: Notice)
    ensures Times(a + b, note) == Times(a, note) + Times(b, note)
  {
  }

  /** The data of chunks. */
  function Data(cs: seq<Part>): seq<byte>
  {
    if |cs| == 0 then [] else cs[0].body + Data(cs[1..])
  }

  function ContentData(b: Content): seq<byte>
  {
    match b
    case Absent => []
    case Sized(data) => data
    case InChunks(c) => Data(c.parts)
  }

  /** The bodies of all messages. */
  function StreamData(ws: seq<Whole>): seq<byte>
  {
    if |ws| == 0 then [] else ContentData(ws[0].message.body) + StreamData(ws[1..])
  }

  /** This data as body, and so many messages complete. */
  predicate Delivers(told: seq<Event>, data: seq<byte>, completed: nat)
  {
    BodyOf(told) == data && Times(told, MessageComplete) == completed
  }

  lemma BothDeliver(a: seq<Event>, x: seq<byte>, m: nat, b: seq<Event>, y: seq<byte>, n: nat, z: seq<byte>)
    requires Delivers(a, x, m) && Delivers(b, y, n) && z == x + y
    ensures Delivers(a + b, z, m + n)
  {
    hide BodyOf, Times;
    BodyOfSum(a, b);
    TimesSum(a, b, MessageComplete);
  }

  lemma BytesDeliver(k: Kind, t: seq<byte>)
    ensures Delivers(Bytes(k, t), if k.Body? then t else [], 0)
  {
    BodyOfBytes(k, t);
    BytesTellNothing(k, t, MessageComplete);
  }

  lemma NoticeDelivers(n: Notice)
    ensures Delivers([Told(n)], [], if n.MessageComplete? then 1 else 0)
  {
    OneNotice(n, MessageComplete);
  }

  lemma {:induction false} LinesDeliver(ls: seq<Line>)
    ensures Delivers(LinesEvents(ls), [], 0)
    decreases |ls|
  {
    hide Bytes, Delivers;
    if |ls| == 0 {
      NothingDelivered();
    } else {
      BytesDeliver(Field, ls[0].name);
      BytesDeliver(Value, ls[0].value);
      BothDeliver(Bytes(Field, ls[0].name), [], 0, Bytes(Value, ls[0].value), [], 0, []);
      LinesDeliver(ls[1..]);
      BothDeliver(LineEvents(ls[0]), [], 0, LinesEvents(ls[1..]), [], 0, []);
    }
  }

  lemma NothingDelivered()
    ensures Delivers([], [], 0)
  {
  }

  lemma {:induction false} PartsDeliver(cs: seq<Part>)
    ensures Delivers(Bodies(cs), Data(cs), 0)
    decreases |cs|
  {
    hide Bytes, Delivers;
    if |cs| == 0 {
      NothingDelivered();
    } else {
      var first, body := [Told(ChunkHeader)] + Bytes(Body, cs[0].body), cs[0].body;
      NoticeDelivers(ChunkHeader);
      NoticeDelivers(ChunkComplete);
      BytesDeliver(Body, body);
      BothDeliver([Told(ChunkHeader)], [], 0, Bytes(Body, body), body, 0, body);
      BothDeliver(first, body, 0, [Told(ChunkComplete)], [], 0, body);
      PartsDeliver(cs[1..]);
      BothDeliver(first + [Told(ChunkComplete)], body, 0, Bodies(cs[1..]), Data(cs[1..]), 0, Data(cs));
    }
  }

  lemma ChunksDeliver(c: Chunks)
    ensures Delivers(ChunksEvents(c), Data(c.parts), 1)
  {
    hide Bytes, Delivers, Bodies, LinesEvents, Data;
    var a, d := Bodies(c.parts) + [Told(ChunkHeader)], Data(c.parts);
    var end := [Told(ChunkComplete), Told(MessageComplete)];
    PartsDeliver(c.parts);
    NoticeDelivers(ChunkHeader);
    LinesDeliver(c.trailers);
    NoticeDelivers(ChunkComplete);
    NoticeDelivers(MessageComplete);
    BothDeliver([Told(ChunkComplete)], [], 0, [Told(MessageComplete)], [], 1, []);
    assert [Told(ChunkComplete)] + [Told(MessageComplete)] == end;
    BothDeliver(Bodies(c.parts), d, 0, [Told(ChunkHeader)], [], 0, d);
    BothDeliver(a, d, 0, LinesEvents(c.trailers), [], 0, d);
    BothDeliver(a + LinesEvents(c.trailers), d, 0, end, [], 1, d);
  }

  lemma ContentDelivers(b: Content)
    ensures Delivers(ContentEvents(b), ContentData(b), 1)
  {
    hide Bytes, Delivers, ChunksEvents, Data;
    NoticeDelivers(MessageComplete);
    match b
    case Absent =>
    case Sized(data) =>
      BytesDeliver(Body, data);
      BothDeliver(Bytes(Body, data), data, 0, [Told(MessageComplete)], [], 1, data);
    case InChunks(c) => ChunksDeliver(c);
  }

  lemma StartDelivers(l: StartLine)
    ensures Delivers(StartEvents(l), [], 0)
  {
    hide Bytes, Delivers;
    NoticeDelivers(MessageBegin);
    var k, t := if l.RequestLine? then Url else Status, if l.RequestLine? then l.url else l.reason;
    BytesDeliver(k, t);
    BothDeliver([Told(MessageBegin)], [], 0, Bytes(k, t), [], 0, []);
  }

  /** A message delivers its body and completes once. */
  lemma WholeDelivers(w: Whole)
    ensures Delivers(WholeEvents(w), ContentData(w.message.body), 1)
  {
    hide Delivers, StartEvents, LinesEvents, ContentEvents, ContentData;
    var m, lines := w.message, LinesEvents(w.message.lines);
    var data := ContentData(m.body);
    StartDelivers(w.start);
    LinesDeliver(m.lines);
    NoticeDelivers(HeadersComplete);
    ContentDelivers(m.body);
    BothDeliver(lines, [], 0, [Told(HeadersComplete)], [], 0, []);
    BothDeliver(lines + [Told(HeadersComplete)], [], 0, ContentEvents(m.body), data, 1, data);
    BothDeliver(StartEvents(w.start), [], 0, MessageEvents(m), data, 1, data);
  }

  /** A stream delivers the bodies of its messages in order, and completes as many messages as it has. */
  lemma {:induction false} StreamDelivers(ws: seq<Whole>)
    ensures Delivers(StreamEvents(ws), StreamData(ws), |ws|)
    decreases |ws|
  {
    hide Delivers, WholeEvents, ContentData;
    if |ws| == 0 {
      NothingDelivered();
    } else {
      WholeDelivers(ws[0]);
      StreamDelivers(ws[1..]);
      BothDeliver(WholeEvents(ws[0]), ContentData(ws[0].message.body), 1, StreamEvents(ws[1..]), StreamData(ws[1..]),
          |ws| - 1, StreamData(ws));
    }
  }

  lemma {:induction false} FieldsDeliver(told: seq<Event>)
    requires FieldsOnly(told)
    ensures Delivers(told, [], 0)
    decreases |told|
  {
    hide Delivers;
    if |told| == 0 {
      NothingDelivered();
    } else {
      OneField(told[0]);
      FieldsDeliver(told[1..]);
      BothDeliver([told[0]], [], 0, told[1..], [], 0, []);
      assert [told[0]] + told[1..] == told;
    }
  }

  lemma OneField(e: Event)
    requires e.Heard? && !e.kind.Body?
    ensures Delivers([e], [], 0)
  {
    assert [e][1..] == [];
  }

  lemma BodyEndDelivers()
    ensures Delivers([Told(ChunkComplete), Told(MessageComplete)], [], 1)
  {
    hide Delivers;
    NoticeDelivers(ChunkComplete);
    NoticeDelivers(MessageComplete);
    BothDeliver([Told(ChunkComplete)], [], 0, [Told(MessageComplete)], [], 1, []);
    assert [Told(ChunkComplete)] + [Told(MessageComplete)] == [Told(ChunkComplete), Told(MessageComplete)];
  }

  /**
   Behind the size line of the last chunk, whatever bytes follow: no byte of them is handed over as body, and
   the run either has not reached the end of the message, or reached it behind n bytes with one completion.
   */
  lemma TrailersDeliverNothing(s: Spot, data: seq<byte>) returns (n: nat, told: seq<Event>, at: Spot)
    requires Trailing(s.f)
    ensures var r := Run(s, data);
      || (r.told == told && !r.ending.Left? && Delivers(told, [], 0))
      || (n <= |data| && Delivers(told, [], 1) && r == Join(told, n, AfterMessage(at.f, at.seen, data[n..])))
  {
    hide Run, AfterMessage, Delivers;
    var fields;
    n, fields, at := TrailersTell(s, data);
    FieldsDeliver(fields);
    BodyEndDelivers();
    var end := [Told(ChunkComplete), Told(MessageComplete)];
    BothDeliver(fields, [], 0, end, [], 1, []);
    var r := Run(s, data);
    told := if r.told == fields && !r.ending.Left? then fields else fields + end;
  }

  /**
   A stream of messages that arrives in any pieces: the callbacks get exactly the names, values and bodies in it,
   and one completion for every message.
   */
  method FeedStream(parser: Parser, ws: seq<Whole>, pieces: seq<seq<byte>>) returns (used: nat)
    requires parser.Valid() && parser.f.errno.Ok? && !parser.f.upgrade && AreMessages(Spot(parser.f, parser.seen), ws)
    requires Concat(pieces) == StreamText(ws) && forall i :: 0 <= i < |pieces| ==> |pieces[i]| > 0
    modifies parser
    ensures parser.Valid() && used == |StreamText(ws)|
    ensures Spot(parser.f, parser.seen) == AfterStream(Spot(old(parser.f), old(parser.seen)), ws)
    ensures Flat(parser.calls) == Flat(old(parser.calls)) + StreamEvents(ws)
    ensures BodyOf(StreamEvents(ws)) == StreamData(ws) && Times(StreamEvents(ws), MessageComplete) == |ws|
  {
    hide AreMessages, AfterStream, StreamText, StreamEvents, Flat, Run, StreamData;
    ghost var s := Spot(parser.f, parser.seen);
    StreamRead(s, ws, []);
    StreamEnds(s, StreamText(ws), StreamEvents(ws), AfterStream(s, ws));
    StreamDelivers(ws);
    used := ExecuteAll(parser, pieces);
  }

  lemma StreamEnds(s: Spot, x: seq<byte>, told: seq<Event>, at: Spot)
    requires Tells(s, x, told, at, [])
    ensures Run(s, x) == Result(at, told, |x|, More)
  {
    assert x + [] == x && told + [] == told;
  }
}
