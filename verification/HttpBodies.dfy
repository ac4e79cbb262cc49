/** Header lines in a row, chunked bodies with trailers, and bodies that arrive in pieces. */
module HttpBodies {

  import opened Base
  import opened HttpStates
  import opened HttpParser
  import opened HttpRuns
  import opened HttpMessages
  import opened HttpHeaders
  import opened HttpValues

  /** A run over x tells this and goes on behind it. */
  predicate Tells(s: Spot, x: seq<byte>, told: seq<Event>, s': Spot, rest: seq<byte>)
  {
    Run(s, x + rest) == Join(told, |x|, Run(s', rest))
  }

  lemma TellsThenTells(s: Spot, x: seq<byte>, a: seq<Event>, s1: Spot, y: seq<byte>, b: seq<Event>, s2: Spot,
          rest: seq<byte>)
    requires Tells(s, x, a, s1, y + rest) && Tells(s1, y, b, s2, rest)
    ensures Tells(s, x + y, a + b, s2, rest)
  {
    hide Run;
    assert x + (y + rest) == x + y + rest;
    JoinJoin(a, |x|, b, |y|, Run(s2, rest));
  }

  lemma TellsNothing(s: Spot, rest: seq<byte>)
    ensures Tells(s, [], [], s, rest)
  {
    hide Run;
    assert [] + rest == rest;
    JoinNothing(Run(s, rest));
  }

  // ---------------------------------------------------------------------
  // One header line
  // ---------------------------------------------------------------------

  /** A header field: its name, the blanks behind the colon, and its value, which may be empty. */
  datatype Line = Line(name: seq<byte>, blanks: seq<byte>, value: seq<byte>)

  function LineText(l: Line): seq<byte>
  {
    l.name + [COLON] + (l.blanks + l.value + [CR, LF])
  }

  function LineEvents(l: Line): seq<Event>
  {
    Bytes(Field, l.name) + Bytes(Value, l.value)
  }

  predicate IsLength(t: seq<byte>)
  {
    |t| > 0 && IsNum(t[0]) && IsNumeral(t) && Accumulate(10, Digits(t), 0).Some?
  }

  predicate NoBlank(ch: byte)
  {
    !Is(ch, ' ') && ch != 9
  }

  /**
   A field in the form of section 3.2 of RFC 7230, on one line. The value of Content-Length is a number, and
   the first one of the message.
   */
  predicate IsLine(f: Fields, l: Line)
  {
    && |l.name| > 0 && IsToken(l.name) && IsBlank(l.blanks)
    && (|l.value| > 0 ==>
          && NoBlank(l.value[0])
          && if NameState(l.name).ContentLength? then !f.flags.contentLength && IsLength(l.value)
             else Inside(f, l.value))
  }

  /** The fields behind the colon. */
  function Named(f: Fields, name: seq<byte>): Fields
    requires |name| > 0
  {
    f.(state := Head(HeaderValueDiscardWs), header := NameState(name),
       index := FoldName(FirstOfName(Token(name[0])), 0, name[1..]).1)
  }

  /** The fields behind the line. */
  function AfterField(f: Fields, l: Line): Fields
    requires |l.name| > 0
  {
    if |l.value| > 0 then AfterValue(Named(f, l.name), l.value)
    else Flagged(Named(f, l.name)).(state := Head(HeaderFieldStart))
  }

  // --- lengths

  lemma {:induction false} FoldLength(f: Fields, t: seq<byte>, v: nat)
    requires f.header.ContentLength? && IsNumeral(t) && Accumulate(10, Digits(t), f.length) == Some(v)
    ensures FoldValue(f, t) == f.(length := v)
    decreases |t|
  {
    if |t| > 0 {
      hide IsNum, Digit, Accumulate;
      var n := f.length;
      if IsNum(t[0]) {
        DigitsStep(t, n);
        DigitInValue(f, t[0]);
        n := n * 10 + Digit(t[0]);
      } else {
        assert ActInValue(f, t[0]).f == f;
      }
      hide Digits, ActInValue;
      FoldLength(f.(length := n), t[1..], v);
    }
  }

  lemma DigitInValue(f: Fields, ch: byte)
    requires f.header.ContentLength? && IsNum(ch) && f.length <= (ULLONG_MAX - 10) / 10
    ensures ActInValue(f, ch).f == f.(length := f.length * 10 + Digit(ch))
  {
    NoWrap(10, f.length, Digit(ch));
  }

  /** Behind the line of a length, that is the length. */
  lemma LengthFields(f: Fields, t: seq<byte>)
    requires f.header.ContentLength? && !f.flags.contentLength && IsLength(t)
    ensures AfterValue(f, t) == f.(state := Head(HeaderFieldStart), index := 0,
                                   flags := f.flags.(contentLength := true), length := Numeral(10, Digits(t), 0))
  {
    hide IsNum, Digits, Accumulate, FoldValue, Digit;
    LengthIs(t);
    var g := ActValueStart(f, t[0]).f;
    FoldLength(g, t[1..], Numeral(10, Digits(t), 0));
  }

  // --- the whole line

  lemma NameTells(s: Spot, name: seq<byte>, rest: seq<byte>)
    requires s.f.state == Head(HeaderFieldStart) && |name| > 0 && IsToken(name)
    requires 2 * (s.seen + |name| + 1) <= HTTP_MAX_HEADER_SIZE
    ensures Tells(s, name + [COLON], Bytes(Field, name), Spot(Named(s.f, name), s.seen + |name| + 1), rest)
  {
    hide Run, FoldName, FirstOfName, Token, NameState, Bytes;
    assert name + ([COLON] + rest) == name + [COLON] + rest;
    HeaderName(s, name, rest, FoldName(FirstOfName(Token(name[0])), 0, name[1..]).1);
  }

  lemma LengthTells(s: Spot, blanks: seq<byte>, t: seq<byte>, rest: seq<byte>)
    requires s.f.state == Head(HeaderValueDiscardWs) && s.f.header.ContentLength? && !s.f.flags.contentLength
    requires IsBlank(blanks) && IsLength(t) && |rest| > 0 && NoBlank(rest[0])
    requires 2 * (s.seen + |blanks| + |t| + 3) <= HTTP_MAX_HEADER_SIZE
    ensures Tells(s, blanks + t + [CR, LF], Bytes(Value, t),
                  Spot(AfterValue(s.f, t), s.seen + |blanks| + |t| + 2), rest)
  {
    hide Run, AfterValue, Bytes, IsNumeral, Digits, Accumulate, Numeral, IsNum, IsBlank;
    assert blanks + (t + ([CR, LF] + rest)) == blanks + t + [CR, LF] + rest;
    LengthValue(s, blanks, t, rest);
    LengthFields(s.f, t);
    var s2 := Spot(s.f.(state := Head(HeaderValueLws), index := 0, flags := s.f.flags.(contentLength := true),
        length := Numeral(10, Digits(t), 0)), s.seen + |blanks| + |t| + 2);
    LineFlagged(s2, rest);
  }

  lemma ValueTells(s: Spot, blanks: seq<byte>, t: seq<byte>, rest: seq<byte>)
    requires s.f.state == Head(HeaderValueDiscardWs) && !s.f.header.ContentLength? && IsBlank(blanks)
    requires |t| > 0 && NoBlank(t[0]) && Inside(s.f, t) && |rest| > 0 && NoBlank(rest[0])
    requires 2 * (s.seen + |blanks| + |t| + 3) <= HTTP_MAX_HEADER_SIZE
    ensures Tells(s, blanks + t + [CR, LF], Bytes(Value, t),
                  Spot(AfterValue(s.f, t), s.seen + |blanks| + |t| + 2), rest)
  {
    hide Run, AfterValue, Bytes, IsBlank, Inside;
    assert blanks + (t + ([CR, LF] + rest)) == blanks + t + [CR, LF] + rest;
    ValueLine(s, blanks, t, rest);
  }

  /** The end of a line without a value. */
  lemma EmptyActs(f: Fields, ch: byte)
    requires f.state == Head(HeaderValueDiscardWs)
    ensures Act(f, CR) == Move(f, Head(HeaderValueDiscardWsAlmostDone))
    ensures Act(f.(state := Head(HeaderValueDiscardWsAlmostDone)), LF) == Move(f, Head(HeaderValueDiscardLws))
    ensures NoBlank(ch) ==>
              Act(f.(state := Head(HeaderValueDiscardLws)), ch)
              == Redo(Flagged(f.(state := Head(HeaderValueDiscardLws))), Head(HeaderFieldStart))
  {
    hide Flagged;
  }

  lemma FlaggedState(f: Fields, a: State)
    ensures Flagged(f.(state := a)).(state := Head(HeaderFieldStart)) == Flagged(f).(state := Head(HeaderFieldStart))
  {
  }

  lemma EmptyEnd(s: Spot, rest: seq<byte>)
    requires s.f.state == Head(HeaderValueDiscardWs) && |rest| > 0 && NoBlank(rest[0])
    requires 2 * (s.seen + 3) <= HTTP_MAX_HEADER_SIZE
    ensures Tells(s, [CR, LF], [], Spot(Flagged(s.f).(state := Head(HeaderFieldStart)), s.seen + 2), rest)
  {
    hide Run, Act, Flagged, NoBlank;
    var data := [CR, LF] + rest;
    var s1 := Spot(s.f.(state := Head(HeaderValueDiscardWsAlmostDone)), s.seen + 1);
    var s2 := Spot(s.f.(state := Head(HeaderValueDiscardLws)), s.seen + 2);
    EmptyActs(s.f, rest[0]);
    assert data[0] == CR && data[1..][0] == LF && data[1..][1..] == rest;
    QuietByte(s, data);
    QuietByte(s1, data[1..]);
    FlaggedState(s.f, s2.f.state);
    Redone(s2, rest, Flagged(s.f).(state := Head(HeaderFieldStart)));
    JoinJoin([], 1, [], 1, Run(s2, rest));
  }

  lemma EmptyTells(s: Spot, blanks: seq<byte>, rest: seq<byte>)
    requires s.f.state == Head(HeaderValueDiscardWs) && IsBlank(blanks) && |rest| > 0 && NoBlank(rest[0])
    requires 2 * (s.seen + |blanks| + 3) <= HTTP_MAX_HEADER_SIZE
    ensures Tells(s, blanks + [CR, LF], [],
                  Spot(Flagged(s.f).(state := Head(HeaderFieldStart)), s.seen + |blanks| + 2), rest)
  {
    var s1 := Spot(s.f, s.seen + |blanks|);
    Blanks(s, blanks, [CR, LF] + rest);
    assert Tells(s, blanks, [], s1, [CR, LF] + rest);
    hide Tells, Flagged, IsBlank, NoBlank;
    EmptyEnd(s1, rest);
    var s2 := Spot(Flagged(s.f).(state := Head(HeaderFieldStart)), s.seen + |blanks| + 2);
    TellsThenTells(s, blanks, [], s1, [CR, LF], [], s2, rest);
    AddNothing([]);
  }

  /** What follows the colon. */
  lemma RestOfLine(s: Spot, f: Fields, l: Line, rest: seq<byte>)
    requires IsLine(f, l) && s.f == Named(f, l.name) && |rest| > 0 && NoBlank(rest[0])
    requires 2 * (s.seen + |l.blanks| + |l.value| + 3) <= HTTP_MAX_HEADER_SIZE
    ensures Tells(s, l.blanks + l.value + [CR, LF], Bytes(Value, l.value),
                  Spot(AfterField(f, l), s.seen + |l.blanks| + |l.value| + 2), rest)
  {
    hide Tells, AfterValue, Flagged, IsBlank, IsToken, IsLength, FoldName, NameState, Bytes, NoBlank;
    if |l.value| == 0 {
      assert l.value == [] && l.blanks + [] == l.blanks;
      BytesNone(Value);
      EmptyTells(s, l.blanks, rest);
    } else if s.f.header.ContentLength? {
      LengthTells(s, l.blanks, l.value, rest);
    } else {
      ValueTells(s, l.blanks, l.value, rest);
    }
  }

  /** A header line: its name and its value are handed over, and nothing else is told. */
  lemma OneLine(s: Spot, l: Line, rest: seq<byte>)
    requires s.f.state == Head(HeaderFieldStart) && IsLine(s.f, l) && |rest| > 0 && NoBlank(rest[0])
    requires 2 * (s.seen + |LineText(l)| + 1) <= HTTP_MAX_HEADER_SIZE
    ensures Tells(s, LineText(l), LineEvents(l), Spot(AfterField(s.f, l), s.seen + |LineText(l)|), rest)
  {
    hide Tells, AfterField, Named, IsToken, IsBlank, NoBlank, Bytes;
    var x, y := l.name + [COLON], l.blanks + l.value + [CR, LF];
    var s1 := Spot(Named(s.f, l.name), s.seen + |x|);
    NameTells(s, l.name, y + rest);
    RestOfLine(s1, s.f, l, rest);
    TellsThenTells(s, x, Bytes(Field, l.name), s1, y, Bytes(Value, l.value),
        Spot(AfterField(s.f, l), s.seen + |LineText(l)|), rest);
  }

  // ---------------------------------------------------------------------
  // Header lines in a row
  // ---------------------------------------------------------------------

  function LinesText(ls: seq<Line>): seq<byte>
  {
    if |ls| == 0 then [] else LineText(ls[0]) + LinesText(ls[1..])
  }

  function LinesEvents(ls: seq<Line>): seq<Event>
  {
    if |ls| == 0 then [] else LineEvents(ls[0]) + LinesEvents(ls[1..])
  }

  /** Every line is well formed for a parser that has read the lines before it. */
  predicate AreLines(f: Fields, ls: seq<Line>)
    decreases |ls|
  {
    |ls| > 0 ==> IsLine(f, ls[0]) && AreLines(AfterField(f, ls[0]), ls[1..])
  }

  function AfterFields(f: Fields, ls: seq<Line>): Fields
    requires AreLines(f, ls)
    decreases |ls|
  {
    if |ls| == 0 then f else AfterFields(AfterField(f, ls[0]), ls[1..])
  }

  lemma LineStarts(f: Fields, ls: seq<Line>, rest: seq<byte>)
    requires AreLines(f, ls) && |rest| > 0 && NoBlank(rest[0])
    ensures var data := LinesText(ls) + rest;
      |data| > 0 && NoBlank(data[0])
  {
    hide AfterField, Bytes;
    if |ls| > 0 {
      assert (LinesText(ls) + rest)[0] == ls[0].name[0] && Token(ls[0].name[0]) != 0;
    }
  }

  lemma AfterFieldStarts(f: Fields, l: Line)
    requires |l.name| > 0
    ensures AfterField(f, l).state == Head(HeaderFieldStart)
  {
  }

  /** Any number of header lines. */
  lemma {:induction false} ManyLines(s: Spot, ls: seq<Line>, rest: seq<byte>)
    requires s.f.state == Head(HeaderFieldStart) && AreLines(s.f, ls) && |rest| > 0 && NoBlank(rest[0])
    requires 2 * (s.seen + |LinesText(ls)| + 1) <= HTTP_MAX_HEADER_SIZE
    ensures Tells(s, LinesText(ls), LinesEvents(ls), Spot(AfterFields(s.f, ls), s.seen + |LinesText(ls)|), rest)
    decreases |ls|
  {
    hide Tells, AfterField, LineText, LineEvents, IsLine, NoBlank;
    if |ls| == 0 {
      TellsNothing(s, rest);
    } else {
      var l, tail := ls[0], LinesText(ls[1..]) + rest;
      NameNotEmpty(s.f, l);
      var s1 := Spot(AfterField(s.f, l), s.seen + |LineText(l)|);
      LineStarts(s1.f, ls[1..], rest);
      OneLine(s, l, tail);
      AfterFieldStarts(s.f, l);
      ManyLines(s1, ls[1..], rest);
      TellsThenTells(s, LineText(l), LineEvents(l), s1, LinesText(ls[1..]), LinesEvents(ls[1..]),
          Spot(AfterFields(s.f, ls), s.seen + |LinesText(ls)|), rest);
    }
  }

  lemma NameNotEmpty(f: Fields, l: Line)
    requires IsLine(f, l)
    ensures |l.name| > 0
  {
  }

  // ---------------------------------------------------------------------
  // Trailers
  // ---------------------------------------------------------------------

  lemma {:induction false} FoldKeepsTrailing(f: Fields, t: seq<byte>)
    ensures FoldValue(f, t).flags.trailing == f.flags.trailing
    decreases |t|
  {
    hide ActInValue;
    if |t| > 0 {
      InValueKeepsMode(f, t[0]);
      FoldKeepsTrailing(ActInValue(f, t[0]).f, t[1..]);
    }
  }

  lemma AfterFieldKeepsTrailing(f: Fields, l: Line)
    requires |l.name| > 0
    ensures AfterField(f, l).flags.trailing == f.flags.trailing
  {
    hide FoldValue, FoldName, NameState, FirstOfName, ActValueStart, Flagged;
    var g := Named(f, l.name);
    FlaggedKeepsMode(g);
    if |l.value| > 0 {
      var v := ActValueStart(g, l.value[0]).f;
      ValueStartKeepsMode(g, l.value[0]);
      FoldKeepsTrailing(v, l.value[1..]);
      FlaggedKeepsMode(FoldValue(v, l.value[1..]));
    }
  }

  lemma {:induction false} AfterFieldsStart(f: Fields, ls: seq<Line>)
    requires AreLines(f, ls) && f.state == Head(HeaderFieldStart)
    ensures AfterFields(f, ls).state == Head(HeaderFieldStart)
    ensures AfterFields(f, ls).flags.trailing == f.flags.trailing
    decreases |ls|
  {
    hide AfterField, IsLine;
    if |ls| > 0 {
      NameNotEmpty(f, ls[0]);
      AfterFieldStarts(f, ls[0]);
      AfterFieldKeepsTrailing(f, ls[0]);
      AfterFieldsStart(AfterField(f, ls[0]), ls[1..]);
    }
  }

  /** The LF behind the size of the last chunk: what follows are trailers. */
  function InTrailer(f: Fields): Fields
  {
    f.(flags := f.flags.(trailing := true), state := Head(HeaderFieldStart))
  }

  lemma LastLineFeed(s: Spot, rest: seq<byte>)
    requires HasState(s.f, ChunkSizeAlmostDone) && s.f.length == 0 && 2 * (s.seen + 1) <= HTTP_MAX_HEADER_SIZE
    ensures Tells(s, [LF], [Told(ChunkHeader)], Spot(InTrailer(s.f), 0), rest)
  {
    hide Run, Act;
    var data := [LF] + rest;
    TrailerActs(s.f);
    assert data[0] == LF && data[1..] == rest;
    HeaderByte(s, data);
    assert Notes([ChunkHeader]) + [] == [Told(ChunkHeader)];
  }

  lemma TrailerActs(f: Fields)
    requires HasState(f, ChunkSizeAlmostDone) && f.length == 0
    ensures Act(f, LF) == Outcome(InTrailer(f), [ChunkHeader], Next, true)
  {
  }

  lemma EmptyLineActs(f: Fields)
    requires f.state == Head(HeaderFieldStart) && f.flags.trailing
    ensures Act(f, CR) == Move(f, Head(HeadersAlmostDone))
    ensures Act(f.(state := Head(HeadersAlmostDone)), LF)
         == Outcome(f.(state := MessageDone), [ChunkComplete], Again, false)
  {
  }

  /** The empty line behind the trailers ends the message. */
  lemma EmptyLineEnds(s: Spot, rest: seq<byte>, r: Result)
    requires s.f.state == Head(HeaderFieldStart) && s.f.flags.trailing && 2 * (s.seen + 2) <= HTTP_MAX_HEADER_SIZE
    requires r == AfterMessage(s.f.(state := MessageDone), s.seen + 2, rest)
    ensures Run(s, [CR, LF] + rest) == Join([Told(ChunkComplete), Told(MessageComplete)], 2, r)
  {
    hide Act, AfterMessage, Run, Pass;
    var data := [CR, LF] + rest;
    var s1 := Spot(s.f.(state := Head(HeadersAlmostDone)), s.seen + 1);
    var s2 := Spot(s.f.(state := MessageDone), s.seen + 2);
    EmptyLineActs(s.f);
    assert data[0] == CR && data[1..][0] == LF && data[1..][1..] == rest;
    QuietByte(s, data);
    AgainHeader(s1, data[1..]);
    MessageEnds(s2, data[1..]);
    assert Notes([ChunkComplete]) == [Told(ChunkComplete)];
    JoinJoin([Told(ChunkComplete)], 0, [Told(MessageComplete)], 1, r);
    JoinJoin([], 1, [Told(ChunkComplete), Told(MessageComplete)], 1, r);
    AddNothing([Told(ChunkComplete), Told(MessageComplete)]);
  }

  // ---------------------------------------------------------------------
  // Chunked bodies
  // ---------------------------------------------------------------------

  /** A chunked body in the form of section 4.1 of RFC 7230: chunks, the last chunk, trailers, and an empty line. */
  datatype Chunks = Chunks(parts: seq<Part>, last: Part, trailers: seq<Line>)

  /** The line of the last chunk with its LF. */
  function LastLine(last: Part): seq<byte>
  {
    last.size + last.extension + [CR] + [LF]
  }

  function ChunksText(c: Chunks): seq<byte>
  {
    EncodeAll(c.parts) + LastLine(c.last) + LinesText(c.trailers) + [CR, LF]
  }

  function ChunksEvents(c: Chunks): seq<Event>
  {
    Bodies(c.parts) + [Told(ChunkHeader)] + LinesEvents(c.trailers) + [Told(ChunkComplete), Told(MessageComplete)]
  }

  predicate IsChunks(f: Fields, c: Chunks)
  {
    && (forall i :: 0 <= i < |c.parts| ==> IsPart(c.parts[i]) && |c.parts[i].body| > 0)
    && IsPart(c.last) && |c.last.body| == 0
    && AreLines(InTrailer(f.(length := 0)), c.trailers)
    && 2 * (|LinesText(c.trailers)| + 2) <= HTTP_MAX_HEADER_SIZE
  }

  /** Where the parser stands in front of what follows the message. */
  function AfterChunks(f: Fields, c: Chunks): Fields
    requires IsChunks(f, c)
  {
    AfterFields(InTrailer(f.(length := 0)), c.trailers).(state := MessageDone)
  }

  lemma LastChunk(s: Spot, last: Part, rest: seq<byte>)
    requires HasState(s.f, ChunkSizeStart) && s.seen == 0 && IsPart(last) && |last.body| == 0
    ensures Tells(s, LastLine(last), [Told(ChunkHeader)], Spot(InTrailer(s.f.(length := 0)), 0), rest)
  {
    var x := last.size + last.extension + [CR];
    var s1 := Spot(s.f.(length := 0, state := Chunk(ChunkSizeAlmostDone)), |last.size| + |last.extension| + 1);
    SizeLine(s, last, s1, [LF] + rest);
    assert Tells(s, x, [], s1, [LF] + rest);
    PartFits(last);
    hide Tells, IsPart;
    LastLineFeed(s1, rest);
    assert InTrailer(s1.f) == InTrailer(s.f.(length := 0));
    TellsThenTells(s, x, [], s1, [LF], [Told(ChunkHeader)], Spot(InTrailer(s.f.(length := 0)), 0), rest);
    AddNothing([Told(ChunkHeader)]);
  }

  /** The run over a whole body tells exactly this and goes on behind the message. */
  predicate TellsBody(s: Spot, c: Chunks, rest: seq<byte>)
    requires IsChunks(s.f, c)
  {
    Run(s, ChunksText(c) + rest)
    == Join(ChunksEvents(c), |ChunksText(c)|, AfterMessage(AfterChunks(s.f, c), |LinesText(c.trailers)| + 2, rest))
  }

  /**
   A chunked body: exactly the data of its chunks is handed over, every chunk is announced and
   completed, every trailer gives its name and value, and the message is complete once.
   */
  lemma ChunkedBody(s: Spot, c: Chunks, rest: seq<byte>)
    requires HasState(s.f, ChunkSizeStart) && s.seen == 0 && IsChunks(s.f, c)
    ensures TellsBody(s, c, rest)
  {
    var x, y, z := EncodeAll(c.parts), LastLine(c.last), LinesText(c.trailers);
    var end := [CR, LF] + rest;
    var s1 := if |c.parts| == 0 then s else Spot(s.f.(length := 0), 0);
    var f := InTrailer(s.f.(length := 0));
    var s3 := Spot(AfterFields(f, c.trailers), |z|);
    ManyChunks(s, c.parts, y + (z + end));
    assert Tells(s, x, Bodies(c.parts), s1, y + (z + end));
    hide Tells, InTrailer, AfterFields, AreLines, LineText, LineEvents, IsPart, LastLine, Bodies, EncodeAll;
    ChunksPieces(s, c, rest, s1, f, s3);
  }

  lemma ChunksPieces(s: Spot, c: Chunks, rest: seq<byte>, s1: Spot, f: Fields, s3: Spot)
    requires HasState(s.f, ChunkSizeStart) && s.seen == 0 && IsChunks(s.f, c)
    requires s1 == if |c.parts| == 0 then s else Spot(s.f.(length := 0), 0)
    requires f == InTrailer(s.f.(length := 0)) && s3 == Spot(AfterFields(f, c.trailers), |LinesText(c.trailers)|)
    requires Tells(s, EncodeAll(c.parts), Bodies(c.parts), s1,
        LastLine(c.last) + (LinesText(c.trailers) + ([CR, LF] + rest)))
    ensures TellsBody(s, c, rest)
  {
    hide Run, Tells, AfterFields, AreLines, LineText, LineEvents, IsPart, LastLine, Bodies, EncodeAll, LinesText,
         LinesEvents, AfterMessage;
    var x, y, z := EncodeAll(c.parts), LastLine(c.last), LinesText(c.trailers);
    var end := [CR, LF] + rest;
    assert InTrailer(s1.f.(length := 0)) == f;
    LastChunk(s1, c.last, z + end);
    ManyLines(Spot(f, 0), c.trailers, end);
    AfterFieldsStart(f, c.trailers);
    TellsThenTells(s, x, Bodies(c.parts), s1, y, [Told(ChunkHeader)], Spot(f, 0), z + end);
    TellsThenTells(s, x + y, Bodies(c.parts) + [Told(ChunkHeader)], Spot(f, 0), z, LinesEvents(c.trailers), s3, end);
    EmptyLineEnds(s3, rest, AfterMessage(AfterChunks(s.f, c), |z| + 2, rest));
    ThenEnds(s, x + y + z, Bodies(c.parts) + [Told(ChunkHeader)] + LinesEvents(c.trailers), s3, rest,
        AfterMessage(AfterChunks(s.f, c), |z| + 2, rest));
  }

  lemma ThenEnds(s: Spot, x: seq<byte>, told: seq<Event>, s3: Spot, rest: seq<byte>, r: Result)
    requires Tells(s, x, told, s3, [CR, LF] + rest)
    requires Run(s3, [CR, LF] + rest) == Join([Told(ChunkComplete), Told(MessageComplete)], 2, r)
    ensures Run(s, x + [CR, LF] + rest) == Join(told + [Told(ChunkComplete), Told(MessageComplete)], |x| + 2, r)
  {
    hide Run;
    assert x + ([CR, LF] + rest) == x + [CR, LF] + rest;
    JoinJoin(told, |x|, [Told(ChunkComplete), Told(MessageComplete)], 2, r);
  }

  // ---------------------------------------------------------------------
  // Any bytes behind the last chunk
  // ---------------------------------------------------------------------

  /** Somewhere in the trailers of a chunked body. */
  predicate Trailing(f: Fields)
  {
    f.flags.trailing && (f.state.HeaderField? || f.state.HeaderValue? || (f.state.Head? && !f.state.head.HeadersDone?))
  }

  /** Names and values, and nothing else. */
  predicate FieldsOnly(told: seq<Event>)
  {
    forall i :: 0 <= i < |told| ==> told[i].Heard? && (told[i].kind.Field? || told[i].kind.Value?)
  }

  /** A pass in the trailers stays in them and notifies of nothing, or fails, or is the one that ends the body. */
  predicate StaysTrailing(o: Outcome)
  {
    match o.flow
    case Next => Trailing(o.f) && o.notes == [] && !o.reset
    case Again =>
      !o.reset && if o.f.state.MessageDone? then o.notes == [ChunkComplete] else Trailing(o.f) && o.notes == []
    case Fail => o.notes == []
    case Leave => false
  }

  lemma ValueStartTrailing(f: Fields, ch: byte)
    requires Trailing(f)
    ensures StaysTrailing(ActValueStart(f, ch))
  {
    hide FirstOfConnection, IsNum, Digit, Lower, Is;
    match f.header {
      case Upgrade =>
      case TransferEncoding =>
      case ContentLength =>
      case Connection =>
      case MatchingTokenStart =>
      case _ =>
    }
  }

  lemma InValueTrailing(f: Fields, ch: byte)
    requires Trailing(f) && f.state.HeaderValue?
    ensures StaysTrailing(ActInValue(f, ch))
  {
    if f.header.ContentLength? {
      hide Is, IsNum, Digit;
    } else {
      hide ActInValue;
      InValueKeepsMode(f, ch);
      InValueStays(f, ch);
    }
  }

  lemma FieldTrailing(f: Fields, ch: byte)
    requires Trailing(f)
    ensures f.state.HeaderField? ==> StaysTrailing(ActField(f, ch))
    ensures StaysTrailing(ActFieldStart(f, ch))
    ensures f.state == Head(HeadersAlmostDone) ==> StaysTrailing(ActHeadersAlmostDone(f, ch))
  {
    hide MatchName, FirstOfName, Token, Is;
  }

  lemma BlankTrailing(f: Fields, ch: byte)
    requires Trailing(f) && f.state.Head?
    requires var h := f.state.head;
      h.HeaderValueDiscardWs? || h.HeaderValueStart? || h.HeaderAlmostDone? || h.HeaderValueDiscardWsAlmostDone?
    ensures StaysTrailing(ActHead(f, ch))
  {
    hide ActFieldStart, ActHeadersAlmostDone, Flagged, ActValueStart, ActHeadersDone, Is;
    ValueStartTrailing(f, ch);
  }

  lemma LwsTrailing(f: Fields, ch: byte)
    requires Trailing(f) && f.state.Head? && (f.state.head.HeaderValueLws? || f.state.head.HeaderValueDiscardLws?)
    ensures StaysTrailing(ActHead(f, ch))
  {
    hide ActFieldStart, ActHeadersAlmostDone, Flagged, ActValueStart, ActHeadersDone, Is;
    FlaggedKeepsMode(f);
  }

  lemma HeadTrailing(f: Fields, ch: byte)
    requires Trailing(f) && f.state.Head?
    ensures StaysTrailing(ActHead(f, ch))
  {
    hide ActFieldStart, ActHeadersAlmostDone, Flagged, ActValueStart, ActHeadersDone, Is, StaysTrailing;
    match f.state.head
    case HeaderFieldStart => FieldTrailing(f, ch);
    case HeadersAlmostDone => FieldTrailing(f, ch);
    case HeaderValueLws => LwsTrailing(f, ch);
    case HeaderValueDiscardLws => LwsTrailing(f, ch);
    case _ => BlankTrailing(f, ch);
  }

  lemma TrailingActs(f: Fields, ch: byte)
    requires Trailing(f)
    ensures StaysTrailing(Act(f, ch))
  {
    hide ActHead, ActInValue, ActField, StaysTrailing, Legal;
    if f.state.Head? {
      HeadTrailing(f, ch);
    } else if f.state.HeaderField? {
      FieldTrailing(f, ch);
    } else {
      InValueTrailing(f, ch);
      LineEndTrailing(f, ch);
    }
  }

  lemma LineEndTrailing(f: Fields, ch: byte)
    requires Trailing(f) && f.state.HeaderValue?
    ensures ch == CR || ch == LF || !Legal(f, ch) ==> StaysTrailing(ActValue(f, ch))
  {
    hide ActInValue, Legal;
  }

  /** A run that has not got to the end of the message, or has got there behind n bytes. */
  predicate TrailersOrEnd(r: Result, data: seq<byte>, n: nat, told: seq<Event>, at: Spot)
  {
    && FieldsOnly(told)
    && (|| (r.told == told && !r.ending.Left? && (r.ending.More? ==> Trailing(r.at.f)))
        || (0 < n <= |data| && at.f.state.MessageDone?
            && r == Join(told + [Told(ChunkComplete), Told(MessageComplete)], n,
                         AfterMessage(at.f, at.seen, data[n..]))))
  }

  lemma EndsHere(r: Result, data: seq<byte>, at: Spot)
    requires |data| > 0 && at.f.state.MessageDone?
    requires r == Join([Told(ChunkComplete)], 0, Join([Told(MessageComplete)], 1,
        AfterMessage(at.f, at.seen, data[1..])))
    ensures TrailersOrEnd(r, data, 1, [], at)
  {
    hide AfterMessage;
    JoinJoin([Told(ChunkComplete)], 0, [Told(MessageComplete)], 1, AfterMessage(at.f, at.seen, data[1..]));
    AddNothing([Told(ChunkComplete), Told(MessageComplete)]);
  }

  lemma OneMoreByte(r: Result, data: seq<byte>, n: nat, told: seq<Event>, at: Spot, tag: seq<Event>)
    requires |data| > 0 && FieldsOnly(tag) && TrailersOrEnd(r, data[1..], n, told, at)
    ensures TrailersOrEnd(Join(tag, 1, r), data, n + 1, tag + told, at)
  {
    hide AfterMessage;
    if r.told != told || r.ending.Left? || (r.ending.More? && !Trailing(r.at.f)) {
      var end := [Told(ChunkComplete), Told(MessageComplete)];
      assert data[1..][n..] == data[n + 1..];
      JoinJoin(tag, 1, told + end, n, AfterMessage(at.f, at.seen, data[n + 1..]));
      assert tag + (told + end) == tag + told + end;
    }
  }

  lemma FailsHere(s: Spot, data: seq<byte>)
    ensures TrailersOrEnd(Result(s, Notes([]), 0, Failed), data, 0, [], s)
  {
  }

  lemma TagIsField(f: Fields, ch: byte)
    requires Trailing(f)
    ensures FieldsOnly(Tag(f.state, ch)) && Notes([]) + Tag(f.state, ch) == Tag(f.state, ch)
  {
  }

  /**
   Whatever bytes follow the last chunk, well formed or not: until the message ends only names and values are
   handed over, no byte of them as body, and it ends with a single notification.
   */
  lemma {:induction false} TrailersTell(s: Spot, data: seq<byte>) returns (n: nat, told: seq<Event>, at: Spot)
    requires Trailing(s.f)
    ensures TrailersOrEnd(Run(s, data), data, n, told, at)
    decreases |data|, 9
  {
    if |data| == 0 || TooLong(s) {
      n, told, at := 0, [], s;
    } else {
      hide Act;
      n, told, at := TrailerPass(Counted(s), data);
      JoinNothing(Pass(Counted(s), data));
    }
  }

  lemma {:induction false} TrailerPass(s: Spot, data: seq<byte>) returns (n: nat, told: seq<Event>, at: Spot)
    requires Trailing(s.f) && |data| > 0
    ensures TrailersOrEnd(Pass(s, data), data, n, told, at)
    decreases |data|, Rank(s.f.state)
  {
    hide Act, Rank, AfterMessage, Run, TrailersOrEnd, Trailing;
    var o := Act(s.f, data[0]);
    TrailingActs(s.f, data[0]);
    AgainFalls(s.f, data[0]);
    if o.flow.Again? {
      if o.f.state.MessageDone? {
        n, told, at := 1, [], Landed(s, o);
        assert Notes([ChunkComplete]) == [Told(ChunkComplete)];
        MessageEnds(at, data);
        EndsHere(Pass(s, data), data, at);
        } else {
        n, told, at := TrailerPass(Landed(s, o), data);
        assert Notes([]) == [];
        JoinNothing(Pass(Landed(s, o), data));
        }
    } else if o.flow.Next? {
      n, told, at := TrailersTell(Landed(s, o), data[1..]);
      TagIsField(o.f, data[0]);
      OneMoreByte(Run(Landed(s, o), data[1..]), data, n, told, at, Tag(o.f.state, data[0]));
      n, told := n + 1, Tag(o.f.state, data[0]) + told;
    } else {
      n, told, at := 0, [], Landed(s, o);
      FailsHere(at, data);
    }
  }
}
