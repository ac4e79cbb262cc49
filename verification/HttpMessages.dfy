/** What the HTTP parser makes of header names, lengths and bodies. */
module HttpMessages {

  import opened Base
  import opened HttpStates
  import opened HttpParser
  import opened HttpRuns

  // ---------------------------------------------------------------------
  // Steps
  // ---------------------------------------------------------------------

  /** A byte of header that is read in one pass. */
  lemma HeaderByte(s: Spot, data: seq<byte>)
    requires |data| > 0 && !TooLong(s) && ParsingHeader(s.f.state) && Act(s.f, data[0]).flow.Next?
    ensures var o := Act(s.f, data[0]);
      Run(s, data) == Join(Notes(o.notes) + Tag(o.f.state, data[0]), 1,
          Run(Spot(o.f, if o.reset then 0 else s.seen + 1), data[1..]))
  {
    hide Act, Notes, Tag;
    var o := Act(s.f, data[0]);
    var told := Notes(o.notes) + Tag(o.f.state, data[0]);
    JoinJoin([], 0, told, 1, Run(Landed(Counted(s), o), data[1..]));
    assert [] + told == told;
  }

  /** The same when nothing is told or collected. */
  lemma QuietByte(s: Spot, data: seq<byte>)
    requires |data| > 0 && !TooLong(s) && ParsingHeader(s.f.state)
    requires var o := Act(s.f, data[0]); o.flow.Next? && |o.notes| == 0 && Collecting(o.f.state).None? && !o.reset
    ensures Run(s, data) == Join([], 1, Run(Spot(Act(s.f, data[0]).f, s.seen + 1), data[1..]))
  {
    hide Act;
    HeaderByte(s, data);
    assert Notes(Act(s.f, data[0]).notes) + [] == [];
  }

  // ---------------------------------------------------------------------
  // Chunks
  // ---------------------------------------------------------------------

  /** A chunk: its size in hexadecimal digits, extensions, and data. */
  datatype Part = Part(size: seq<byte>, extension: seq<byte>, body: seq<byte>)

  function HexDigits(t: seq<byte>): seq<nat>
    requires forall i :: 0 <= i < |t| ==> Unhex(t[i]) >= 0
  {
    if |t| == 0 then [] else [Unhex(t[0])] + HexDigits(t[1..])
  }

  function HexValue(t: seq<byte>): nat
    requires forall i :: 0 <= i < |t| ==> Unhex(t[i]) >= 0
  {
    Numeral(16, HexDigits(t), 0)
  }

  predicate IsExtension(t: seq<byte>)
  {
    |t| > 0 ==> (Is(t[0], ';') || Is(t[0], ' ')) && CR !in t
  }

  /** The size is the length of the data, the guard lets its digits pass, and its line fits the header limit. */
  predicate IsPart(c: Part)
  {
    && |c.size| > 0 && (forall i :: 0 <= i < |c.size| ==> Unhex(c.size[i]) >= 0)
    && HexValue(c.size) == |c.body|
    && Accumulate(16, HexDigits(c.size), 0).Some?
    && IsExtension(c.extension)
    && 2 * (|c.size| + |c.extension| + 2) <= HTTP_MAX_HEADER_SIZE
  }

  /** section 4.1 of RFC 7230 */
  function Encode(c: Part): seq<byte>
  {
    c.size + c.extension + [CR, LF] + c.body + [CR, LF]
  }

  function EncodeAll(cs: seq<Part>): seq<byte>
  {
    if |cs| == 0 then [] else Encode(cs[0]) + EncodeAll(cs[1..])
  }

  function Bodies(cs: seq<Part>): seq<Event>
  {
    if |cs| == 0 then [] else [Told(ChunkHeader)] + Bytes(Body, cs[0].body) + [Told(ChunkComplete)] + Bodies(cs[1..])
  }

  predicate HasState(f: Fields, c: ChunkState)
  {
    f.state == Chunk(c)
  }

  lemma OneDigit(s: Spot, data: seq<byte>, d: nat)
    requires HasState(s.f, ChunkSize) && 2 * (s.seen + 1) <= HTTP_MAX_HEADER_SIZE
    requires |data| > 0 && Unhex(data[0]) == d && s.f.length <= (ULLONG_MAX - 16) / 16
    ensures Run(s, data) == Join([], 1, Run(Spot(s.f.(length := s.f.length * 16 + d), s.seen + 1), data[1..]))
  {
    hide Run, Act, Unhex;
    DigitActs(s.f, data[0]);
    QuietByte(s, data);
  }

  lemma HexDigitsStep(t: seq<byte>, from: nat)
    requires |t| > 0 && (forall i :: 0 <= i < |t| ==> Unhex(t[i]) >= 0) && Accumulate(16, HexDigits(t), from).Some?
    ensures from <= (ULLONG_MAX - 16) / 16
    ensures Accumulate(16, HexDigits(t), from) == Accumulate(16, HexDigits(t[1..]), from * 16 + Unhex(t[0]))
  {
    hide Unhex, Accumulate;
    HexDigitsSmall(t);
    assert HexDigits(t)[0] == Unhex(t[0]) && HexDigits(t)[1..] == HexDigits(t[1..]);
    AccumulateStep(16, HexDigits(t), from);
  }

  /** The digits of a size after its first. */
  lemma {:induction false} SizeDigits(s: Spot, t: seq<byte>, rest: seq<byte>)
    requires HasState(s.f, ChunkSize) && 2 * (s.seen + |t|) <= HTTP_MAX_HEADER_SIZE
    requires (forall i :: 0 <= i < |t| ==> Unhex(t[i]) >= 0) && Accumulate(16, HexDigits(t), s.f.length).Some?
    ensures Run(s, t + rest)
         == Join([], |t|, Run(Spot(s.f.(length := Accumulate(16, HexDigits(t), s.f.length).value), s.seen + |t|), rest))
    decreases |t|
  {
    hide Run, Unhex;
    if |t| == 0 {
      assert t + rest == rest;
      JoinNothing(Run(s, rest));
    } else {
      hide Accumulate, HexDigits;
      HexDigitsStep(t, s.f.length);
      assert (t + rest)[0] == t[0] && (t + rest)[1..] == t[1..] + rest;
      OneDigit(s, t + rest, Unhex(t[0]));
      var s' := Spot(s.f.(length := s.f.length * 16 + Unhex(t[0])), s.seen + 1);
      SizeDigits(s', t[1..], rest);
      JoinJoin([], 1, [], |t| - 1, Run(Spot(s'.f.(length := Accumulate(16, HexDigits(t[1..]), s'.f.length).value),
          s'.seen + |t| - 1), rest));
    }
  }

  lemma DigitActs(f: Fields, ch: byte)
    requires HasState(f, ChunkSize) && Unhex(ch) >= 0 && (ULLONG_MAX - 16) / 16 >= f.length
    ensures Act(f, ch) == Go(f.(length := f.length * 16 + Unhex(ch)))
  {
    NoWrap(16, f.length, Unhex(ch));
  }

  lemma FirstDigitActs(f: Fields, ch: byte)
    requires HasState(f, ChunkSizeStart) && Unhex(ch) >= 0
    ensures Act(f, ch) == Move(f.(length := Unhex(ch)), Chunk(ChunkSize))
  {
  }

  lemma ParameterActs(f: Fields, ch: byte)
    requires HasState(f, ChunkParameters)
    ensures Act(f, ch) == if ch == CR then Move(f, Chunk(ChunkSizeAlmostDone)) else Go(f)
  {
  }

  lemma SizeEndActs(f: Fields, ch: byte)
    requires HasState(f, ChunkSize) && (ch == CR || Is(ch, ';') || Is(ch, ' '))
    ensures Act(f, ch) == Move(f, if ch == CR then Chunk(ChunkSizeAlmostDone) else Chunk(ChunkParameters))
  {
  }

  lemma {:induction false} ExtensionBytes(s: Spot, t: seq<byte>, rest: seq<byte>)
    requires HasState(s.f, ChunkParameters) && CR !in t && 2 * (s.seen + |t| + 1) <= HTTP_MAX_HEADER_SIZE
    ensures Run(s, t + [CR] + rest) == Join([], |t| + 1, Run(Spot(s.f.(state := Chunk(ChunkSizeAlmostDone)),
        s.seen + |t| + 1), rest))
    decreases |t|
  {
    hide Run, Act;
    var data := t + [CR] + rest;
    ParameterActs(s.f, data[0]);
    QuietByte(s, data);
    if |t| == 0 {
      assert data[1..] == rest;
    } else {
      assert data[1..] == t[1..] + [CR] + rest;
      ExtensionBytes(Spot(s.f, s.seen + 1), t[1..], rest);
      JoinJoin([], 1, [], |t|, Run(Spot(s.f.(state := Chunk(ChunkSizeAlmostDone)), s.seen + |t| + 1), rest));
    }
  }

  /** A run over x tells nothing and goes on behind it. */
  predicate RunsQuietly(s: Spot, x: seq<byte>, s': Spot, rest: seq<byte>)
  {
    Run(s, x + rest) == Join([], |x|, Run(s', rest))
  }

  lemma QuietThenQuiet(s: Spot, x: seq<byte>, s1: Spot, y: seq<byte>, s2: Spot, rest: seq<byte>)
    requires RunsQuietly(s, x, s1, y + rest) && RunsQuietly(s1, y, s2, rest)
    ensures RunsQuietly(s, x + y, s2, rest)
  {
    hide Run;
    assert x + (y + rest) == x + y + rest;
    JoinJoin([], |x|, [], |y|, Run(s2, rest));
  }

  /** From the end of the digits to the CR of the line. */
  lemma SizeLineEnds(s: Spot, t: seq<byte>, s': Spot, rest: seq<byte>)
    requires HasState(s.f, ChunkSize) && IsExtension(t) && 2 * (s.seen + |t| + 1) <= HTTP_MAX_HEADER_SIZE
    requires s' == Spot(s.f.(state := Chunk(ChunkSizeAlmostDone)), s.seen + |t| + 1)
    ensures RunsQuietly(s, t + [CR], s', rest)
  {
    hide Run, Act;
    var data := t + [CR] + rest;
    SizeEndActs(s.f, data[0]);
    QuietByte(s, data);
    if |t| == 0 {
      assert t + [CR] == [CR] && data[1..] == rest;
    } else {
      assert data[1..] == t[1..] + [CR] + rest;
      ExtensionBytes(Spot(s.f.(state := Chunk(ChunkParameters)), s.seen + 1), t[1..], rest);
      JoinJoin([], 1, [], |t|, Run(s', rest));
    }
  }

  lemma FirstSizeDigit(s: Spot, ch: byte, s': Spot, rest: seq<byte>)
    requires HasState(s.f, ChunkSizeStart) && s.seen == 0 && Unhex(ch) >= 0
    requires s' == Spot(s.f.(length := Unhex(ch), state := Chunk(ChunkSize)), 1)
    ensures RunsQuietly(s, [ch], s', rest)
  {
    hide Run, Act;
    var data := [ch] + rest;
    FirstDigitActs(s.f, ch);
    QuietByte(s, data);
    assert data[1..] == rest;
  }

  lemma MoreSizeDigits(s: Spot, t: seq<byte>, n: nat, s': Spot, rest: seq<byte>)
    requires HasState(s.f, ChunkSize) && 2 * (s.seen + |t| + 1) <= HTTP_MAX_HEADER_SIZE
    requires (forall i :: 0 <= i < |t| ==> Unhex(t[i]) >= 0) && Accumulate(16, HexDigits(t), s.f.length) == Some(n)
    requires s' == Spot(s.f.(length := n), s.seen + |t|)
    ensures RunsQuietly(s, t, s', rest)
  {
    hide Run, Act;
    SizeDigits(s, t, rest);
  }

  /** The line of a chunk, up to its CR. */
  lemma SizeLine(s: Spot, c: Part, s': Spot, rest: seq<byte>)
    requires HasState(s.f, ChunkSizeStart) && s.seen == 0 && IsPart(c)
    requires s' == Spot(s.f.(length := |c.body|, state := Chunk(ChunkSizeAlmostDone)), |c.size| + |c.extension| + 1)
    ensures RunsQuietly(s, c.size + c.extension + [CR], s', rest)
  {
    hide RunsQuietly, Accumulate, HexDigits, IsExtension, Unhex;
    var first, more, end := [c.size[0]], c.size[1..], c.extension + [CR];
    FirstOfAccumulate(c.size);
    var s1 := Spot(s.f.(length := Unhex(c.size[0]), state := Chunk(ChunkSize)), 1);
    var s2 := Spot(s1.f.(length := |c.body|), |c.size|);
    FirstSizeDigit(s, c.size[0], s1, more + (end + rest));
    MoreSizeDigits(s1, more, |c.body|, s2, end + rest);
    SizeLineEnds(s2, c.extension, s', rest);
    QuietThenQuiet(s, first, s1, more, s2, end + rest);
    QuietThenQuiet(s, first + more, s2, end, s', rest);
    assert first + more + end == c.size + c.extension + [CR];
  }

  lemma FirstOfAccumulate(t: seq<byte>)
    requires |t| > 0 && (forall i :: 0 <= i < |t| ==> Unhex(t[i]) >= 0) && Accumulate(16, HexDigits(t), 0).Some?
    ensures var more := Accumulate(16, HexDigits(t[1..]), Unhex(t[0]));
      more.Some? && more.value == HexValue(t)
  {
    hide Unhex, Numeral, Accumulate;
    HexDigitsSmall(t);
    var ds := HexDigits(t);
    assert ds[0] == Unhex(t[0]) && ds[1..] == HexDigits(t[1..]);
    AccumulateStep(16, ds, 0);
    AccumulateExactly(16, ds, 0);
  }

  lemma {:induction false} HexDigitsSmall(t: seq<byte>)
    requires forall i :: 0 <= i < |t| ==> Unhex(t[i]) >= 0
    ensures |HexDigits(t)| == |t| && forall i :: 0 <= i < |t| ==> HexDigits(t)[i] < 16
    decreases |t|
  {
    if |t| > 0 {
      HexDigitsSmall(t[1..]);
    }
  }

  /** The LF of the line, the data and its CR LF. */
  lemma ChunkBody(s: Spot, body: seq<byte>, rest: seq<byte>)
    requires HasState(s.f, ChunkSizeAlmostDone) && s.f.length == |body| > 0 && 2 * (s.seen + 1) <= HTTP_MAX_HEADER_SIZE
    ensures Run(s, [LF] + body + [CR, LF] + rest)
         == Join([Told(ChunkHeader)] + Bytes(Body, body) + [Told(ChunkComplete)], |body| + 3,
                 Run(Spot(s.f.(length := 0, state := Chunk(ChunkSizeStart)), 0), rest))
  {
    hide Run, Act, Bytes;
    var data := [LF] + body + [CR, LF] + rest;
    var tail := body + [CR, LF] + rest;
    var end := [CR, LF] + rest;
    assert data[0] == LF && data[1..] == tail;
    LineFeedActs(s.f);
    HeaderByte(s, data);
    var s1 := Spot(s.f.(state := ChunkData), 0);
    assert Notes([ChunkHeader]) + [] == [Told(ChunkHeader)];
    WholeChunk(s1, tail);
    assert tail[..|body|] == body && tail[|body|..] == end;
    var s2 := Spot(s.f.(length := 0, state := Chunk(ChunkDataAlmostDone)), 0);
    ChunkTail(s2, rest);
    var s3 := Spot(s2.f.(state := Chunk(ChunkSizeStart)), 0);
    JoinJoin(Bytes(Body, body), |body|, [Told(ChunkComplete)], 2, Run(s3, rest));
    JoinJoin([Told(ChunkHeader)], 1, Bytes(Body, body) + [Told(ChunkComplete)], |body| + 2, Run(s3, rest));
    assert [Told(ChunkHeader)] + (Bytes(Body, body) + [Told(ChunkComplete)]) == [Told(ChunkHeader)] + Bytes(Body, body)
        + [Told(ChunkComplete)];
  }

  lemma LineFeedActs(f: Fields)
    requires HasState(f, ChunkSizeAlmostDone) && f.length > 0
    ensures Act(f, LF) == Outcome(f.(state := ChunkData), [ChunkHeader], Next, true)
  {
  }

  /** The CR LF after a chunk's data, which do not count as header. */
  lemma ChunkTail(s: Spot, rest: seq<byte>)
    requires HasState(s.f, ChunkDataAlmostDone)
    ensures Run(s, [CR, LF] + rest) == Join([Told(ChunkComplete)], 2,
        Run(Spot(s.f.(state := Chunk(ChunkSizeStart)), 0), rest))
  {
    hide Act, Run;
    var data := [CR, LF] + rest;
    var s1 := Spot(s.f.(state := Chunk(ChunkDataDone)), s.seen);
    var s2 := Spot(s.f.(state := Chunk(ChunkSizeStart)), 0);
    ChunkTailActs(s.f);
    assert data[0] == CR && data[1..][0] == LF && data[1..][1..] == rest;
    FreeByte(s, data);
    FreeByte(s1, data[1..]);
    assert Notes([ChunkComplete]) + [] == [Told(ChunkComplete)] && [] + [Told(ChunkComplete)] == [Told(ChunkComplete)];
    assert Notes([]) + [] == [];
    JoinJoin([], 1, [Told(ChunkComplete)], 1, Run(s2, rest));
  }

  lemma ChunkTailActs(f: Fields)
    requires HasState(f, ChunkDataAlmostDone)
    ensures Act(f, CR) == Move(f, Chunk(ChunkDataDone))
    ensures Act(f.(state := Chunk(ChunkDataDone)), LF) == Outcome(f.(state := Chunk(ChunkSizeStart)), [ChunkComplete],
        Next, true)
  {
  }

  /** A byte that does not count as header, read in one pass. */
  lemma FreeByte(s: Spot, data: seq<byte>)
    requires |data| > 0 && !ParsingHeader(s.f.state) && !InBody(s.f.state) && Act(s.f, data[0]).flow.Next?
    ensures var o := Act(s.f, data[0]);
      Run(s, data) == Join(Notes(o.notes) + Tag(o.f.state, data[0]), 1, Run(Landed(s, o), data[1..]))
  {
    hide Act, Notes, Tag;
    var o := Act(s.f, data[0]);
    var told := Notes(o.notes) + Tag(o.f.state, data[0]);
    JoinJoin([], 0, told, 1, Run(Landed(s, o), data[1..]));
    assert [] + told == told;
  }

  /** A whole chunk: exactly its data is handed over. */
  lemma OneChunk(s: Spot, c: Part, rest: seq<byte>)
    requires HasState(s.f, ChunkSizeStart) && s.seen == 0 && IsPart(c) && |c.body| > 0
    ensures Run(s, Encode(c) + rest)
         == Join([Told(ChunkHeader)] + Bytes(Body, c.body) + [Told(ChunkComplete)], |Encode(c)|,
                 Run(Spot(s.f.(length := 0), 0), rest))
  {
    hide Run, Bytes, IsPart;
    var end := [LF] + c.body + [CR, LF] + rest;
    assert Encode(c) + rest == c.size + c.extension + [CR] + end;
    var s1 := Spot(s.f.(length := |c.body|, state := Chunk(ChunkSizeAlmostDone)), |c.size| + |c.extension| + 1);
    SizeLine(s, c, s1, end);
    PartFits(c);
    ChunkBody(s1, c.body, rest);
    var s2 := Spot(s1.f.(length := 0, state := Chunk(ChunkSizeStart)), 0);
    assert s2 == Spot(s.f.(length := 0), 0);
    var told := [Told(ChunkHeader)] + Bytes(Body, c.body) + [Told(ChunkComplete)];
    JoinJoin([], |c.size| + |c.extension| + 1, told, |c.body| + 3, Run(s2, rest));
    assert [] + told == told;
  }

  lemma PartFits(c: Part)
    requires IsPart(c)
    ensures 2 * (|c.size| + |c.extension| + 1 + 1) <= HTTP_MAX_HEADER_SIZE
  {
  }

  /** Any number of chunks. */
  lemma {:induction false} ManyChunks(s: Spot, cs: seq<Part>, rest: seq<byte>)
    requires HasState(s.f, ChunkSizeStart) && s.seen == 0
    requires forall i :: 0 <= i < |cs| ==> IsPart(cs[i]) && |cs[i].body| > 0
    ensures Run(s, EncodeAll(cs) + rest)
         == Join(Bodies(cs), |EncodeAll(cs)|, Run(if |cs| == 0 then s else Spot(s.f.(length := 0), 0), rest))
    decreases |cs|
  {
    hide Run, Bytes, IsPart, Encode;
    if |cs| == 0 {
      assert EncodeAll(cs) + rest == rest;
      JoinNothing(Run(s, rest));
    } else {
      var tail := EncodeAll(cs[1..]) + rest;
      assert EncodeAll(cs) + rest == Encode(cs[0]) + tail;
      OneChunk(s, cs[0], tail);
      var s1 := Spot(s.f.(length := 0), 0);
      ManyChunks(s1, cs[1..], rest);
      assert s1 == Spot(s1.f.(length := 0), 0);
      var told := [Told(ChunkHeader)] + Bytes(Body, cs[0].body) + [Told(ChunkComplete)];
      JoinJoin(told, |Encode(cs[0])|, Bodies(cs[1..]), |EncodeAll(cs[1..])|, Run(s1, rest));
    }
  }

  // ---------------------------------------------------------------------
  // Ends of bodies
  // ---------------------------------------------------------------------

  /** What follows the end of a message: on with the rest, or out for another protocol. */
  function AfterMessage(f: Fields, seen: nat, rest: seq<byte>): Result
  {
    var s := Spot(f.(state := NewMessage(f)), seen);
    if f.upgrade then Result(s, [], 0, Left) else Run(s, rest)
  }

  /** The pass that ends a message. */
  lemma MessageEnds(s: Spot, data: seq<byte>)
    requires s.f.state.MessageDone? && |data| > 0
    ensures Pass(s, data) == Join([Told(MessageComplete)], 1, AfterMessage(s.f, s.seen, data[1..]))
  {
    hide Run, ShouldKeepAlive;
    var o := Act(s.f, data[0]);
    assert Notes(o.notes) == [Told(MessageComplete)];
    assert [Told(MessageComplete)] + [] == [Told(MessageComplete)];
  }

  /** A body of known length: exactly its bytes are handed over, and the message is complete once. */
  lemma IdentityBody(s: Spot, body: seq<byte>, rest: seq<byte>)
    requires s.f.state.BodyIdentity? && s.f.length == |body| > 0
    ensures Run(s, body + rest)
         == Join(Bytes(Body, body) + [Told(MessageComplete)], |body|,
             AfterMessage(s.f.(length := 0, state := MessageDone), s.seen, rest))
  {
    hide Run, Pass, Bytes, AfterMessage;
    var data := body + rest;
    var k := |body|;
    WholeBody(s, data);
    assert data[..k] == body && data[k - 1..][1..] == rest;
    var t := Spot(s.f.(length := 0, state := MessageDone), s.seen);
    MessageEnds(t, data[k - 1..]);
    JoinJoin(Bytes(Body, body), k - 1, [Told(MessageComplete)], 1, AfterMessage(t.f, t.seen, rest));
  }

  /** A body that lasts until the connection closes. */
  lemma EofBody(s: Spot, body: seq<byte>)
    requires s.f.state.BodyIdentityEof?
    ensures Run(s, body) == Result(s, Bytes(Body, body), |body|, More)
  {
    hide Pass, Act;
    BodyRuns(s, body, |body|);
    assert body[..|body|] == body && body[|body|..] == [];
    assert Bytes(Body, body) + [] == Bytes(Body, body);
  }

  /** A byte of header that asks for another pass. */
  lemma AgainHeader(s: Spot, data: seq<byte>)
    requires |data| > 0 && !TooLong(s) && ParsingHeader(s.f.state) && Act(s.f, data[0]).flow.Again?
    ensures var o := Act(s.f, data[0]);
      Run(s, data) == Join(Notes(o.notes), 0, Pass(Landed(Counted(s), o), data))
  {
    hide Act, Notes;
    JoinNothing(Pass(Counted(s), data));
  }
}
