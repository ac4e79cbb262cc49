/** What the HTTP parser takes from the values of Transfer-Encoding and Connection headers. */
module HttpValues {

  import opened Base
  import opened HttpStates
  import opened HttpParser
  import opened HttpHeaders

  // ---------------------------------------------------------------------
  // A value and the end of its line
  // ---------------------------------------------------------------------

  /** Characters that stay inside a value. */
  predicate Inside(f: Fields, t: seq<byte>)
  {
    forall i :: 0 <= i < |t| ==> t[i] != CR && t[i] != LF && Legal(f, t[i])
  }

  /** The matcher of the value over characters after its first. */
  function FoldValue(f: Fields, t: seq<byte>): Fields
    decreases |t|
  {
    if |t| == 0 then f else FoldValue(ActInValue(f, t[0]).f, t[1..])
  }

  /** The fields behind a value and its line end, when the next line does not continue it. */
  function AfterValue(f: Fields, t: seq<byte>): Fields
    requires |t| > 0
  {
    Flagged(FoldValue(ActValueStart(f, t[0]).f, t[1..])).(state := Head(HeaderFieldStart))
  }

  /** Where the parser stands then. */
  function AfterLine(s: Spot, blanks: nat, t: seq<byte>): Spot
    requires |t| > 0
  {
    Spot(AfterValue(s.f, t), s.seen + blanks + |t| + 2)
  }

  /** The same for the characters after the first. */
  function AfterRest(s: Spot, t: seq<byte>): Spot
  {
    Spot(Flagged(FoldValue(s.f, t)).(state := Head(HeaderFieldStart)), s.seen + |t| + 2)
  }

  lemma AfterLineIs(s: Spot, t: seq<byte>, s1: Spot)
    requires |t| > 0 && s1 == Spot(ActValueStart(s.f, t[0]).f, s.seen + 1)
    ensures AfterLine(s, 0, t) == AfterRest(s1, t[1..])
  {
    hide FoldValue, Flagged, ActValueStart;
  }

  /** Another character of the same value. */
  predicate StaysInValue(f: Fields, o: Outcome)
  {
    o == Go(o.f) && o.f.state == f.state && !o.f.header.ContentLength? && o.f.lenient == f.lenient
  }

  lemma FlaggedKeepsValue(f: Fields)
    ensures Flagged(f).state == f.state && Flagged(f).header == f.header && Flagged(f).lenient == f.lenient
  {
  }

  lemma AfterTokenStays(f: Fields, ch: byte)
    requires !f.header.ContentLength?
    ensures StaysInValue(f, ActAfterToken(f, ch))
  {
    hide Flagged;
    FlaggedKeepsValue(f);
  }

  lemma MatchWordStays(word: string, i: nat, c: byte, matching: HeaderState, matched: HeaderState, failed: HeaderState)
    requires |word| > 0 && !matching.ContentLength? && !matched.ContentLength? && !failed.ContentLength?
    ensures !MatchWord(word, i, c, matching, matched, failed).ContentLength?
  {
  }

  lemma InValueStays(f: Fields, ch: byte)
    requires !f.header.ContentLength?
    ensures StaysInValue(f, ActInValue(f, ch))
  {
    hide Lower, Token, MatchWord, ActAfterToken, StaysInValue;
    var c, i, h := Lower(ch), f.index + 1, f.header;
    match h {
      case MatchingChunked =>
        MatchWordStays("chunked", i, c, h, Chunked, General);
        GoStays(f, f.(index := i, header := MatchWord("chunked", i, c, h, Chunked, General)));
      case MatchingKeepAlive =>
        MatchWordStays("keep-alive", i, c, h, KeepAlive, MatchingToken);
        GoStays(f, f.(index := i, header := MatchWord("keep-alive", i, c, h, KeepAlive, MatchingToken)));
      case MatchingClose =>
        MatchWordStays("close", i, c, h, Close, MatchingToken);
        GoStays(f, f.(index := i, header := MatchWord("close", i, c, h, Close, MatchingToken)));
      case MatchingConnectionUpgrade =>
        MatchWordStays("upgrade", i, c, h, ConnectionUpgrade, MatchingToken);
        GoStays(f, f.(index := i, header := MatchWord("upgrade", i, c, h, ConnectionUpgrade, MatchingToken)));
      case KeepAlive => AfterTokenStays(f, ch);
      case Close => AfterTokenStays(f, ch);
      case ConnectionUpgrade => AfterTokenStays(f, ch);
      case _ => GoStays(f, ActInValue(f, ch).f);
    }
  }

  lemma GoStays(f: Fields, g: Fields)
    requires g.state == f.state && !g.header.ContentLength? && g.lenient == f.lenient
    ensures StaysInValue(f, Go(g))
  {
  }

  /** A character of a value that is not a length. */
  lemma ValueCharActs(f: Fields, ch: byte)
    requires f.state.HeaderValue? && !f.header.ContentLength? && ch != CR && ch != LF && Legal(f, ch)
    ensures Act(f, ch) == ActInValue(f, ch) && StaysInValue(f, Act(f, ch))
  {
    InValueStays(f, ch);
    hide StaysInValue, ActInValue;
    assert ActValue(f, ch) == ActInValue(f, ch);
  }

  lemma {:induction false} ValueBytes(s: Spot, t: seq<byte>, rest: seq<byte>)
    requires s.f.state.HeaderValue? && !s.f.header.ContentLength? && Inside(s.f, t)
    requires 2 * (s.seen + |t|) <= HTTP_MAX_HEADER_SIZE
    ensures FoldValue(s.f, t).state.HeaderValue?
    ensures Run(s, t + rest) == Join(Bytes(Value, t), |t|, Run(Spot(FoldValue(s.f, t), s.seen + |t|), rest))
    decreases |t|
  {
    hide Run, Act, ActInValue, Bytes;
    if |t| == 0 {
      assert t + rest == rest && t == [];
      BytesNone(Value);
      JoinNothing(Run(s, rest));
    } else {
      FirstAndRest(t, rest);
      ValueCharActs(s.f, t[0]);
      KeptByte(s, t + rest, Value);
      var s' := Spot(Act(s.f, t[0]).f, s.seen + 1);
      ValueBytes(s', t[1..], rest);
      hide Join;
      BytesJoin(Value, t, Run(s, t + rest), Run(s', t[1..] + rest), Run(Spot(FoldValue(s.f, t), s.seen + |t|), rest));
    }
  }

  lemma FirstCharActs(f: Fields, ch: byte)
    requires f.state == Head(HeaderValueDiscardWs) && !f.header.ContentLength?
    requires ch != CR && ch != LF && !Is(ch, ' ') && ch != 9
    ensures Act(f, ch) == ActValueStart(f, ch) && Act(f, ch) == Go(Act(f, ch).f)
    ensures var g := Act(f, ch).f;
      g.state.HeaderValue? && !g.header.ContentLength? && g.lenient == f.lenient
  {
    hide Lower, Token;
  }

  /** The flag is set when the next line turns out not to continue the value. */
  lemma LineFlagged(s: Spot, data: seq<byte>)
    requires s.f.state == Head(HeaderValueLws) && 2 * (s.seen + 1) <= HTTP_MAX_HEADER_SIZE && |data| > 0
        && !Is(data[0], ' ') && data[0] != 9
    ensures Run(s, data) == Run(Spot(Flagged(s.f).(state := Head(HeaderFieldStart)), s.seen), data)
  {
    hide Flagged, Run;
    var g := Flagged(s.f).(state := Head(HeaderFieldStart));
    LineEndRedo(s.f, data[0]);
    hide Act;
    Redone(s, data, g);
  }

  lemma LineEndRedo(f: Fields, ch: byte)
    requires f.state == Head(HeaderValueLws) && !Is(ch, ' ') && ch != 9
    ensures Act(f, ch) == Redo(Flagged(f), Head(HeaderFieldStart))
  {
    hide Flagged;
  }

  /** A byte executed again runs as from the state it is executed again in. */
  lemma Redone(s: Spot, data: seq<byte>, g: Fields)
    requires |data| > 0 && ParsingHeader(s.f.state) && ParsingHeader(g.state) && s.f.state.Head? && g.state.Head?
    requires Act(s.f, data[0]) == Outcome(g, [], Again, false)
    requires !TooLong(s)
    ensures Run(s, data) == Run(Spot(g, s.seen), data)
  {
    hide Act, Rank;
    JoinNothing(Pass(Counted(Spot(g, s.seen)), data));
    JoinNothing(Join([], 0, Pass(Counted(Spot(g, s.seen)), data)));
  }

  /** The characters of a value after its first, and the end of the line. */
  lemma RestOfValue(s: Spot, t: seq<byte>, rest: seq<byte>, r: Result)
    requires s.f.state.HeaderValue? && !s.f.header.ContentLength? && Inside(s.f, t)
    requires |rest| > 0 && !Is(rest[0], ' ') && rest[0] != 9
    requires 2 * (s.seen + |t| + 3) <= HTTP_MAX_HEADER_SIZE
    requires r == Run(AfterRest(s, t), rest)
    ensures Run(s, t + ([CR, LF] + rest)) == Join(Bytes(Value, t), |t| + 2, r)
  {
    hide Run, FoldValue, Flagged, Bytes, Is, Join, Inside, TooLong;
    var lines := [CR, LF] + rest;
    ValueBytes(s, t, lines);
    var s2 := Spot(FoldValue(s.f, t), s.seen + |t|);
    ValueLineEnds(s2, rest);
    var s3 := Spot(s2.f.(state := Head(HeaderValueLws)), s.seen + |t| + 2);
    LineFlagged(s3, rest);
    FlaggedCommutes(s2.f);
    assert Run(s3, rest) == r;
    JoinJoin(Bytes(Value, t), |t|, [], 2, r);
    AddNothing(Bytes(Value, t));
  }

  /** The characters of a value from its first, and the end of the line. */
  lemma ValueFromFirst(s: Spot, t: seq<byte>, rest: seq<byte>, r: Result)
    requires s.f.state == Head(HeaderValueDiscardWs) && !s.f.header.ContentLength?
    requires |t| > 0 && !Is(t[0], ' ') && t[0] != 9 && Inside(s.f, t)
    requires |rest| > 0 && !Is(rest[0], ' ') && rest[0] != 9
    requires 2 * (s.seen + |t| + 3) <= HTTP_MAX_HEADER_SIZE
    requires r == Run(AfterLine(s, 0, t), rest)
    ensures Run(s, t + ([CR, LF] + rest)) == Join(Bytes(Value, t), |t| + 2, r)
  {
    hide Run, Act, ActInValue, ActValueStart, FoldValue, Flagged, Bytes, Is, Join, TooLong, IsHeaderChar, AfterLine,
         AfterRest;
    var lines := [CR, LF] + rest;
    FirstAndRest(t, lines);
    FirstCharActs(s.f, t[0]);
    Fits(s, 1);
    KeptByte(s, t + lines, Value);
    var s1 := Spot(Act(s.f, t[0]).f, s.seen + 1);
    InsideRest(s.f, s1.f, t);
    hide Inside;
    AfterLineIs(s, t, s1);
    RestOfValue(s1, t[1..], rest, r);
    FirstAndOthers(t, Run(s, t + lines), Run(s1, t[1..] + lines), r);
  }

  lemma FirstAndOthers(t: seq<byte>, whole: Result, mid: Result, r: Result)
    requires |t| > 0 && whole == Join([Heard(Value, t[0])], 1, mid) && mid == Join(Bytes(Value, t[1..]), |t| + 1, r)
    ensures whole == Join(Bytes(Value, t), |t| + 2, r)
  {
    BytesFirst(Value, t);
    JoinJoin([Heard(Value, t[0])], 1, Bytes(Value, t[1..]), |t| + 1, r);
  }

  lemma InsideRest(f: Fields, g: Fields, t: seq<byte>)
    requires |t| > 0 && Inside(f, t) && g.lenient == f.lenient
    ensures Inside(g, t[1..])
  {
    assert forall i :: 0 <= i < |t[1..]| ==> t[1..][i] == t[i + 1];
  }

  lemma FlaggedCommutes(f: Fields)
    ensures Flagged(f.(state := Head(HeaderValueLws))).(state := Head(HeaderFieldStart))
        == Flagged(f).(state := Head(HeaderFieldStart))
  {
  }

  /** The run over blanks, a value and the end of its line hands over the value, and goes on behind the line. */
  predicate RunsLine(s: Spot, blanks: seq<byte>, t: seq<byte>, rest: seq<byte>)
    requires |t| > 0
  {
    Run(s, blanks + (t + ([CR, LF] + rest))) == Join(Bytes(Value, t), |blanks| + |t| + 2,
        Run(AfterLine(s, |blanks|, t), rest))
  }

  /** A value that is not a length, with its line: it is handed over, and the matcher's verdict is in the flags. */
  lemma ValueLine(s: Spot, blanks: seq<byte>, t: seq<byte>, rest: seq<byte>)
    requires s.f.state == Head(HeaderValueDiscardWs) && !s.f.header.ContentLength? && IsBlank(blanks)
    requires |t| > 0 && !Is(t[0], ' ') && t[0] != 9 && Inside(s.f, t)
    requires |rest| > 0 && !Is(rest[0], ' ') && rest[0] != 9
    requires 2 * (s.seen + |blanks| + |t| + 3) <= HTTP_MAX_HEADER_SIZE
    ensures RunsLine(s, blanks, t, rest)
  {
    hide Run, Act, AfterLine, Bytes, Is, Inside, IsBlank, Join, TooLong;
    var line, s1 := t + ([CR, LF] + rest), Spot(s.f, s.seen + |blanks|);
    Blanks(s, blanks, line);
    var r := Run(AfterLine(s, |blanks|, t), rest);
    BlanksCount(s, s1, |blanks|, t);
    ValueFromFirst(s1, t, rest, r);
    BlanksFirst(|blanks|, Bytes(Value, t), |t| + 2, Run(s, blanks + line), Run(s1, line), r);
  }

  lemma BlanksCount(s: Spot, s1: Spot, n: nat, t: seq<byte>)
    requires |t| > 0 && s1 == Spot(s.f, s.seen + n)
    ensures AfterLine(s1, 0, t) == AfterLine(s, n, t)
  {
    hide AfterValue;
  }

  lemma BlanksFirst(m: nat, told: seq<Event>, n: nat, whole: Result, mid: Result, r: Result)
    requires whole == Join([], m, mid) && mid == Join(told, n, r)
    ensures whole == Join(told, m + n, r)
  {
    hide Join;
    JoinJoin([], m, told, n, r);
    AddNothing(told);
  }

  // ---------------------------------------------------------------------
  // Transfer-Encoding
  // ---------------------------------------------------------------------

  /** LOWER over a value. */
  function LowerAll(t: seq<byte>): seq<int>
  {
    seq(|t|, i requires 0 <= i < |t| => Lower(t[i]))
  }

  predicate IsSpaces(t: seq<byte>)
  {
    forall i :: 0 <= i < |t| ==> Is(t[i], ' ')
  }

  /** The word, and nothing after it but spaces. */
  predicate WordThenSpaces(t: seq<byte>, w: seq<int>)
  {
    |t| >= |w| && LowerAll(t[..|w|]) == w && IsSpaces(t[|w|..])
  }

  lemma {:induction false} FoldPlain(f: Fields, t: seq<byte>)
    requires f.header.General?
    ensures FoldValue(f, t) == f
    decreases |t|
  {
    if |t| > 0 {
      FoldPlain(f, t[1..]);
    }
  }

  lemma {:induction false} FoldSpaces(f: Fields, t: seq<byte>)
    requires f.header.Chunked?
    ensures FoldValue(f, t).header.Chunked? <==> IsSpaces(t)
    ensures IsSpaces(t) ==> FoldValue(f, t) == f
    decreases |t|
  {
    if |t| > 0 {
      if Is(t[0], ' ') {
        FoldSpaces(f, t[1..]);
        assert IsSpaces(t[1..]) ==> forall i :: 0 <= i < |t| ==> t[i] == if i == 0 then t[0] else t[1..][i - 1];
      } else {
        FoldPlain(f.(header := General), t[1..]);
      }
    }
  }

  lemma ChunkedCharActs(f: Fields, ch: byte)
    requires f.header.MatchingChunked?
    ensures ActInValue(f, ch)
         == Go(f.(index := f.index + 1, header := MatchWord("chunked", f.index + 1, Lower(ch), MatchingChunked, Chunked,
             General)))
  {
    hide Lower;
  }

  lemma ConsWord(t: seq<byte>, w: seq<int>)
    requires |t| > 0 && |w| > 0
    ensures WordThenSpaces(t, w) <==> Lower(t[0]) as int == w[0] && WordThenSpaces(t[1..], w[1..])
  {
    hide Lower, Is;
    if |t| >= |w| {
      assert t[|w|..] == t[1..][|w| - 1..];
      assert LowerAll(t[..|w|]) == [Lower(t[0]) as int] + LowerAll(t[1..][..|w| - 1]);
      assert w == [w[0]] + w[1..];
      if LowerAll(t[..|w|]) == w {
        assert LowerAll(t[..|w|])[1..] == w[1..];
        assert LowerAll(t[..|w|])[1..] == LowerAll(t[1..][..|w| - 1]);
      }
    }
  }

  /** From the middle of "chunked": matched by exactly its rest and spaces. */
  lemma {:induction false} FoldChunked(f: Fields, t: seq<byte>)
    requires f.header.MatchingChunked? && f.index < 6
    ensures FoldValue(f, t).header.Chunked? <==> WordThenSpaces(t, Chars("chunked")[f.index + 1..])
    decreases |t|
  {
    hide Lower, ActInValue, WordThenSpaces;
    var w := Chars("chunked")[f.index + 1..];
    if |t| == 0 {
      NotShort(t, w);
    } else {
      ChunkedCharActs(f, t[0]);
      ConsWord(t, w);
      assert w[0] == CharAt("chunked", f.index + 1) && w[1..] == Chars("chunked")[f.index + 2..];
      var g := ActInValue(f, t[0]).f;
      if Lower(t[0]) as int != w[0] {
        FoldPlain(g, t[1..]);
      } else if f.index == 5 {
        FoldSpaces(g, t[1..]);
        OnlySpaces(t[1..]);
        assert w[1..] == [];
      } else {
        FoldChunked(g, t[1..]);
      }
    }
  }

  lemma NotShort(t: seq<byte>, w: seq<int>)
    ensures |t| < |w| ==> !WordThenSpaces(t, w)
  {
  }

  lemma OnlySpaces(t: seq<byte>)
    ensures WordThenSpaces(t, []) <==> IsSpaces(t)
  {
    assert t[0..] == t && LowerAll(t[..0]) == [];
  }

  /** A body is chunked exactly when the value is "chunked", in any case, with spaces after it at most. */
  lemma ChunkedValue(f: Fields, t: seq<byte>)
    requires f.header.TransferEncoding? && |t| > 0
    ensures FoldValue(ActValueStart(f, t[0]).f, t[1..]).header.Chunked? <==> WordThenSpaces(t, Chars("chunked"))
  {
    hide Lower, WordThenSpaces;
    ConsWord(t, Chars("chunked"));
    var g := ActValueStart(f, t[0]).f;
    if Is(Lower(t[0]), 'c') {
      FoldChunked(g, t[1..]);
    } else {
      FoldPlain(g, t[1..]);
    }
  }

  predicate AboutChunked(f: Fields)
  {
    f.header.General? || f.header.MatchingChunked? || f.header.Chunked?
  }

  lemma {:induction false} FoldKeepsFlags(f: Fields, t: seq<byte>)
    requires AboutChunked(f)
    ensures AboutChunked(FoldValue(f, t)) && FoldValue(f, t).flags == f.flags
    decreases |t|
  {
    hide Lower;
    if |t| > 0 {
      FoldKeepsFlags(ActInValue(f, t[0]).f, t[1..]);
    }
  }

  /** The verdict is in the flags at the end of the line. */
  lemma ChunkedFlag(f: Fields, t: seq<byte>)
    requires f.header.TransferEncoding? && |t| > 0
    ensures AfterValue(f, t).flags == if WordThenSpaces(t, Chars("chunked")) then f.flags.(chunked := true) else f.flags
  {
    hide Lower, WordThenSpaces, ActInValue;
    ChunkedValue(f, t);
    FoldKeepsFlags(ActValueStart(f, t[0]).f, t[1..]);
  }

  // ---------------------------------------------------------------------
  // Connection
  // ---------------------------------------------------------------------

  const COMMA: byte := 44

  /** The options that are looked for. */
  datatype ConnectionOption = OptKeepAlive | OptClose | OptUpgrade

  function Word(o: ConnectionOption): seq<int>
  {
    match o
    case OptKeepAlive => Chars("keep-alive")
    case OptClose => Chars("close")
    case OptUpgrade => Chars("upgrade")
  }

  /** A character as it stands in a word, or a space behind the word. */
  predicate FitsAt(w: seq<int>, i: nat, c: byte)
  {
    if i < |w| then Lower(c) as int == w[i] else Is(c, ' ')
  }

  predicate Follows(w: seq<int>, e: seq<byte>)
  {
    forall i :: 0 <= i < |e| ==> FitsAt(w, i, e[i])
  }

  /** The element is the option in any case, with spaces behind it at most. */
  predicate Names(e: seq<byte>, o: ConnectionOption)
  {
    |e| >= |Word(o)| && Follows(Word(o), e)
  }

  /** The element is a part of an option, cut off before its end. */
  predicate CutOff(e: seq<byte>, o: ConnectionOption)
  {
    0 < |e| < |Word(o)| && Follows(Word(o), e)
  }

  predicate Swallows(e: seq<byte>)
  {
    CutOff(e, OptKeepAlive) || CutOff(e, OptClose) || CutOff(e, OptUpgrade)
  }

  function Element(t: seq<byte>): seq<byte>
  {
    if |t| == 0 || t[0] == COMMA then [] else [t[0]] + Element(t[1..])
  }

  /** From the next comma on. */
  function AfterElement(t: seq<byte>): (r: seq<byte>)
    ensures |r| <= |t| && (|r| > 0 ==> r[0] == COMMA)
  {
    if |t| == 0 || t[0] == COMMA then t else AfterElement(t[1..])
  }

  /**
   The elements of a list that are looked at, from the start of an element: spaces are skipped, and an
   element that does not start with a character of a token ends the reading.
   */
  function Elements(t: seq<byte>): seq<seq<byte>>
    decreases |t|, 1
  {
    if |t| == 0 then []
    else if Is(Lower(t[0]), ' ') then Elements(t[1..])
    else if Token(Lower(t[0])) == 0 then []
    else ElementsFrom(Element(t), AfterElement(t))
  }

  /** An element and those behind it: behind an option that is cut off, the next one is not looked at. */
  function ElementsFrom(e: seq<byte>, r: seq<byte>): seq<seq<byte>>
    decreases |r|, 0
  {
    var others := if |r| == 0 then [] else if Swallows(e) then SkipElement(r[1..]) else Elements(r[1..]);
    [e] + others
  }

  function SkipElement(t: seq<byte>): seq<seq<byte>>
    decreases |t|, 2
  {
    var r := AfterElement(t);
    if |r| == 0 then [] else Elements(r[1..])
  }

  /** The elements of a whole value: its first character starts an element whatever it is. */
  function ListElements(t: seq<byte>): seq<seq<byte>>
    requires |t| > 0
  {
    if t[0] == COMMA then SkipElement(t[1..]) else ElementsFrom(Element(t), AfterElement(t))
  }

  function WithElement(flags: Flags, e: seq<byte>): Flags
  {
    if Names(e, OptKeepAlive) then flags.(keepAlive := true)
    else if Names(e, OptClose) then flags.(close := true)
    else if Names(e, OptUpgrade) then flags.(connectionUpgrade := true)
    else flags
  }

  function WithElements(flags: Flags, es: seq<seq<byte>>): Flags
    decreases |es|
  {
    if |es| == 0 then flags else WithElements(WithElement(flags, es[0]), es[1..])
  }

  /** The flags at the end of a value. */
  function FinalFlags(f: Fields, t: seq<byte>): Flags
  {
    Flagged(FoldValue(f, t)).flags
  }

  /** The matcher of an option, and the state that says it matched. */
  function OptionOf(h: HeaderState): Base.Option<(ConnectionOption, HeaderState)>
  {
    match h
    case MatchingKeepAlive => Some((OptKeepAlive, KeepAlive))
    case MatchingClose => Some((OptClose, Close))
    case MatchingConnectionUpgrade => Some((OptUpgrade, ConnectionUpgrade))
    case _ => None
  }

  /** The option a state says has matched. */
  function MatchedOption(h: HeaderState): Base.Option<ConnectionOption>
  {
    match h
    case KeepAlive => Some(OptKeepAlive)
    case Close => Some(OptClose)
    case ConnectionUpgrade => Some(OptUpgrade)
    case _ => None
  }

  /** What has been read of an element follows this option and no other. */
  predicate FollowsOnly(e: seq<byte>, o: ConnectionOption)
  {
    |e| > 0 && forall p: ConnectionOption :: Follows(Word(p), e) <==> p == o
  }

  /** What has been read of an element follows no option. */
  predicate FollowsNone(e: seq<byte>)
  {
    |e| > 0 && forall p: ConnectionOption :: !Follows(Word(p), e)
  }

  lemma FollowsMore(w: seq<int>, e: seq<byte>, x: seq<byte>)
    ensures Follows(w, e + x) ==> Follows(w, e)
    ensures |x| == 1 ==> (Follows(w, e + x) <==> Follows(w, e) && FitsAt(w, |e|, x[0]))
  {
    hide FitsAt;
    if Follows(w, e + x) {
      forall i | 0 <= i < |e| ensures FitsAt(w, i, e[i]) {
        assert (e + x)[i] == e[i];
      }
    }
    assert |x| == 1 ==> (e + x)[|e|] == x[0];
  }

  function Letter(o: ConnectionOption): char
  {
    match o
    case OptKeepAlive => 'k'
    case OptClose => 'c'
    case OptUpgrade => 'u'
  }

  lemma FirstLetter(o: ConnectionOption, ch: byte)
    ensures Follows(Word(o), [ch]) <==> Is(Lower(ch), Letter(o))
  {
    assert FitsAt(Word(o), 0, ch) <==> Is(Lower(ch), Letter(o)) by {
      hide Lower;
    }
    hide Lower, FitsAt, Word;
    assert [] + [ch] == [ch];
    FollowsMore(Word(o), [], [ch]);
  }

  /** The first character of an element decides which option it can be. */
  lemma FirstDecides(ch: byte)
    ensures forall o: ConnectionOption :: Is(Lower(ch), Letter(o)) ==> FollowsOnly([ch], o)
    ensures FirstOfConnection(ch, MatchingToken).MatchingToken? ==> FollowsNone([ch])
  {
    hide Lower, Word, Follows;
    forall o: ConnectionOption ensures Follows(Word(o), [ch]) <==> Is(Lower(ch), Letter(o)) {
      FirstLetter(o, ch);
    }
  }

  /** An element that follows one option at most, and another character of it. */
  lemma NextDecides(e: seq<byte>, o: ConnectionOption, ch: byte)
    requires FollowsOnly(e, o)
    ensures FitsAt(Word(o), |e|, ch) ==> FollowsOnly(e + [ch], o)
    ensures !FitsAt(Word(o), |e|, ch) ==> FollowsNone(e + [ch])
  {
    hide FitsAt, Word, Follows;
    forall p: ConnectionOption ensures Follows(Word(p), e + [ch]) <==> Follows(Word(p), e) && FitsAt(Word(p), |e|, ch) {
      FollowsMore(Word(p), e, [ch]);
    }
  }

  lemma NoneStays(e: seq<byte>, x: seq<byte>)
    requires FollowsNone(e)
    ensures FollowsNone(e + x) && !Swallows(e + x) && WithElement(NO_FLAGS, e + x) == NO_FLAGS
    ensures forall flags :: WithElement(flags, e + x) == flags
  {
    hide Word, Follows;
    forall p: ConnectionOption ensures !Follows(Word(p), e + x) {
      FollowsMore(Word(p), e, x);
    }
  }

  /** A character within an option. */
  lemma KeywordActs(f: Fields, ch: byte, o: ConnectionOption, m: HeaderState)
    requires OptionOf(f.header) == Some((o, m)) && f.index + 1 < |Word(o)|
    ensures ActInValue(f, ch).f == f.(index := f.index + 1, header :=
              if !FitsAt(Word(o), f.index + 1, ch) then MatchingToken else if f.index + 2 == |Word(o)| then m
                  else f.header)
    ensures MatchedOption(m) == Some(o)
    ensures !FitsAt(Word(o), f.index + 1, COMMA)
  {
    CommaLowered();
    hide Lower;
  }

  lemma CommaLowered()
    ensures Lower(COMMA) == COMMA
  {
  }

  /** A character behind an option. */
  lemma MatchedActs(f: Fields, ch: byte, o: ConnectionOption)
    requires MatchedOption(f.header) == Some(o)
    ensures ActInValue(f, ch) == ActAfterToken(f, ch)
    ensures forall i :: i >= |Word(o)| ==> (FitsAt(Word(o), i, ch) <==> Is(ch, ' '))
  {
    hide Lower;
  }

  lemma FlaggedIs(f: Fields, o: ConnectionOption, e: seq<byte>)
    requires MatchedOption(f.header) == Some(o) && FollowsOnly(e, o) && |e| >= |Word(o)|
    ensures Flagged(f) == f.(flags := WithElement(f.flags, e)) && !Swallows(e)
  {
    hide Follows, Word;
  }

  lemma PartIs(flags: Flags, o: ConnectionOption, e: seq<byte>)
    requires FollowsOnly(e, o) && |e| < |Word(o)|
    ensures WithElement(flags, e) == flags && Swallows(e)
  {
    hide Follows, Word;
  }

  lemma WithFirst(flags: Flags, e: seq<byte>, es: seq<seq<byte>>)
    ensures WithElements(flags, [e] + es) == WithElements(WithElement(flags, e), es)
  {
    hide WithElement;
    assert ([e] + es)[1..] == es;
  }

  lemma ElementStep(e: seq<byte>, t: seq<byte>)
    requires |t| > 0 && t[0] != COMMA
    ensures AfterElement(t) == AfterElement(t[1..]) && e + Element(t) == e + [t[0]] + Element(t[1..])
  {
  }

  lemma FoldFirst(f: Fields, t: seq<byte>)
    requires |t| > 0
    ensures FinalFlags(f, t) == FinalFlags(ActInValue(f, t[0]).f, t[1..])
  {
    hide ActInValue, Flagged;
  }

  lemma TokenActs(f: Fields, ch: byte)
    requires f.header.MatchingToken?
    ensures ActInValue(f, ch).f == if ch == COMMA then f.(header := MatchingTokenStart, index := 0) else f
  {
    hide Lower;
  }

  /** Inside an element that is no option: on to the next comma. */
  lemma {:induction false} FoldToken(f: Fields, t: seq<byte>)
    requires f.header.MatchingToken?
    ensures FinalFlags(f, t) == WithElements(f.flags, SkipElement(t))
    decreases |t|, 2
  {
    hide ActInValue, Elements;
    if |t| > 0 {
      FoldFirst(f, t);
      TokenActs(f, t[0]);
      hide FinalFlags, WithElements;
      if t[0] == COMMA {
        FoldStart(f.(header := MatchingTokenStart, index := 0), t[1..]);
      } else {
        FoldToken(f, t[1..]);
      }
    }
  }

  lemma FoldOther(f: Fields, t: seq<byte>, e: seq<byte>)
    requires f.header.MatchingToken? && FollowsNone(e)
    ensures FinalFlags(f, t) == WithElements(f.flags, ElementsFrom(e + Element(t), AfterElement(t)))
    decreases |t|, 3
  {
    hide FinalFlags, Elements, Element, AfterElement, WithElements, WithElement, FollowsNone, Swallows;
    FoldToken(f, t);
    NoneStays(e, Element(t));
    WithFirst(f.flags, e + Element(t), SkipElement(t));
  }

  /** Inside an element that is an option so far. */
  lemma {:induction false} FoldKeyword(f: Fields, t: seq<byte>, e: seq<byte>, o: ConnectionOption, m: HeaderState)
    requires OptionOf(f.header) == Some((o, m)) && FollowsOnly(e, o) && |e| == f.index + 1 < |Word(o)|
    ensures FinalFlags(f, t) == WithElements(f.flags, ElementsFrom(e + Element(t), AfterElement(t)))
    decreases |t|, 4
  {
    hide FollowsOnly, FollowsNone, Word, FitsAt, Swallows, WithElement, Elements, SkipElement, ActInValue;
    PartIs(f.flags, o, e);
    assert e + [] == e;
    if |t| == 0 {
      WithFirst(f.flags, e, []);
    } else {
      KeywordActs(f, t[0], o, m);
      FoldFirst(f, t);
      NextDecides(e, o, t[0]);
      var g := ActInValue(f, t[0]).f;
      if t[0] == COMMA {
        FoldToken(g, t[1..]);
        WithFirst(f.flags, e, SkipElement(t[1..]));
      } else {
        ElementStep(e, t);
        hide Element, AfterElement, FinalFlags, ElementsFrom, WithElements, OptionOf, MatchedOption;
        if !FitsAt(Word(o), |e|, t[0]) {
          FoldOther(g, t[1..], e + [t[0]]);
        } else if |e| + 1 == |Word(o)| {
          FoldMatched(g, t[1..], e + [t[0]], o);
        } else {
          FoldKeyword(g, t[1..], e + [t[0]], o, m);
        }
      }
    }
  }

  /** Behind an option. */
  lemma {:induction false} FoldMatched(f: Fields, t: seq<byte>, e: seq<byte>, o: ConnectionOption)
    requires MatchedOption(f.header) == Some(o) && FollowsOnly(e, o) && |e| >= |Word(o)|
    ensures FinalFlags(f, t) == WithElements(f.flags, ElementsFrom(e + Element(t), AfterElement(t)))
    decreases |t|, 4
  {
    hide FollowsOnly, FollowsNone, Word, FitsAt, Swallows, WithElement, Elements, SkipElement, ActInValue, Flagged;
    FlaggedIs(f, o, e);
    assert e + [] == e;
    if |t| == 0 {
      WithFirst(f.flags, e, []);
    } else {
      MatchedActs(f, t[0], o);
      FoldFirst(f, t);
      NextDecides(e, o, t[0]);
      var g := ActInValue(f, t[0]).f;
      if t[0] == COMMA {
        FoldStart(g, t[1..]);
        WithFirst(f.flags, e, Elements(t[1..]));
      } else {
        ElementStep(e, t);
        hide Element, AfterElement, FinalFlags, ElementsFrom, WithElements, MatchedOption;
        if Is(t[0], ' ') {
          FoldMatched(f, t[1..], e + [t[0]], o);
        } else {
          FoldOther(g, t[1..], e + [t[0]]);
        }
      }
    }
  }

  /** From the first character of an element on. */
  lemma {:induction false} FoldElement(f: Fields, t: seq<byte>)
    requires |t| > 0 && t[0] != COMMA && f.index == 0 && f.header == FirstOfConnection(t[0], MatchingToken)
    ensures FinalFlags(f, t[1..]) == WithElements(f.flags, ElementsFrom(Element(t), AfterElement(t)))
    decreases |t|, 0
  {
    hide FollowsOnly, FollowsNone, FitsAt, Lower, Element, AfterElement, FinalFlags, WithElements, ElementsFrom;
    FirstDecides(t[0]);
    ElementStep([], t);
    assert [] + Element(t) == Element(t) && [] + [t[0]] == [t[0]];
    if f.header.MatchingToken? {
      FoldOther(f, t[1..], [t[0]]);
    } else {
      var (o, m) := OptionOf(f.header).value;
      FoldKeyword(f, t[1..], [t[0]], o, m);
    }
  }

  /** At the start of an element. */
  lemma {:induction false} FoldStart(f: Fields, t: seq<byte>)
    requires f.header.MatchingTokenStart? && f.index == 0
    ensures FinalFlags(f, t) == WithElements(f.flags, Elements(t))
    decreases |t|, 1
  {
    if |t| == 0 {
    } else {
      FoldFirst(f, t);
      StartActs(f, t[0]);
      var g := ActInValue(f, t[0]).f;
      hide Lower, ActInValue, FinalFlags, WithElements, ElementsFrom, FirstOfConnection;
      if Is(Lower(t[0]), ' ') {
        FoldStart(f, t[1..]);
      } else if Token(Lower(t[0])) == 0 {
        FoldNothing(g, t[1..]);
      } else {
        FoldElement(g, t);
      }
    }
  }

  lemma StartActs(f: Fields, ch: byte)
    requires f.header.MatchingTokenStart?
    ensures var c := Lower(ch);
      ActInValue(f, ch).f == f.(header := if Is(c, ' ') then MatchingTokenStart else if Token(c) == 0 then General
                                          else FirstOfConnection(ch, MatchingToken))
    ensures Token(Lower(COMMA)) == 0 && !Is(Lower(COMMA), ' ')
  {
    assert Lower(ch) != 9;
    assert Token('k' as int) != 0 && Token('c' as int) != 0 && Token('u' as int) != 0;
    hide Lower;
    CommaLowered();
  }

  lemma FoldNothing(f: Fields, t: seq<byte>)
    requires f.header.General?
    ensures FinalFlags(f, t) == WithElements(f.flags, [])
  {
    FoldPlain(f, t);
  }

  /** The options that a Connection header sets are those among its elements that are looked at. */
  lemma ConnectionFlags(f: Fields, t: seq<byte>)
    requires f.header.Connection? && |t| > 0
    ensures AfterValue(f, t).flags == WithElements(f.flags, ListElements(t))
  {
    hide Lower, FoldValue, Flagged, WithElements, ElementsFrom, SkipElement;
    var g := ActValueStart(f, t[0]).f;
    CommaLowered();
    assert AfterValue(f, t).flags == FinalFlags(g, t[1..]);
    if t[0] == COMMA {
      FoldToken(g, t[1..]);
    } else {
      FoldElement(g, t);
    }
  }

  predicate HasOption(es: seq<seq<byte>>, o: ConnectionOption)
  {
    exists i :: 0 <= i < |es| && Names(es[i], o)
  }

  lemma HasFirst(es: seq<seq<byte>>, o: ConnectionOption)
    requires |es| > 0
    ensures HasOption(es, o) <==> Names(es[0], o) || HasOption(es[1..], o)
  {
    hide Names;
    if HasOption(es[1..], o) {
      var i :| 0 <= i < |es[1..]| && Names(es[1..][i], o);
      assert Names(es[i + 1], o);
    }
  }

  /** An element names one option at most. */
  lemma NamesOne(e: seq<byte>)
    ensures !(Names(e, OptKeepAlive) && Names(e, OptClose)) && !(Names(e, OptKeepAlive) && Names(e, OptUpgrade))
    ensures !(Names(e, OptClose) && Names(e, OptUpgrade))
  {
    hide Lower;
    if |e| > 0 {
      assert FitsAt(Word(OptKeepAlive), 0, e[0]) <==> Is(Lower(e[0]), 'k');
      assert FitsAt(Word(OptClose), 0, e[0]) <==> Is(Lower(e[0]), 'c');
      assert FitsAt(Word(OptUpgrade), 0, e[0]) <==> Is(Lower(e[0]), 'u');
    }
    hide FitsAt;
  }

  function WithOptions(flags: Flags, keepAlive: bool, close: bool, upgrade: bool): Flags
  {
    Flags(flags.chunked, flags.keepAlive || keepAlive, flags.close || close, flags.connectionUpgrade || upgrade,
          flags.trailing, flags.upgrade, flags.skipBody, flags.contentLength)
  }

  lemma OptionNamed(flags: Flags, e: seq<byte>)
    ensures WithElement(flags, e) == WithOptions(flags, Names(e, OptKeepAlive), Names(e, OptClose),
        Names(e, OptUpgrade))
  {
    NamesOne(e);
    hide Names;
  }

  lemma OptionsAdd(flags: Flags, k: bool, c: bool, u: bool, k': bool, c': bool, u': bool)
    ensures WithOptions(WithOptions(flags, k, c, u), k', c', u') == WithOptions(flags, k || k', c || c', u || u')
    ensures WithOptions(flags, false, false, false) == flags
  {
  }

  /** An option's flag is set exactly when an element names it; nothing else changes. */
  lemma {:induction false} OptionsNamed(flags: Flags, es: seq<seq<byte>>)
    ensures WithElements(flags, es)
         == WithOptions(flags, HasOption(es, OptKeepAlive), HasOption(es, OptClose), HasOption(es, OptUpgrade))
    decreases |es|
  {
    hide Names, WithElement, WithOptions;
    if |es| > 0 {
      HasFirst(es, OptKeepAlive);
      HasFirst(es, OptClose);
      HasFirst(es, OptUpgrade);
      OptionNamed(flags, es[0]);
      hide HasOption;
      OptionsNamed(WithElement(flags, es[0]), es[1..]);
      OptionsAdd(flags, Names(es[0], OptKeepAlive), Names(es[0], OptClose), Names(es[0], OptUpgrade),
                 HasOption(es[1..], OptKeepAlive), HasOption(es[1..], OptClose), HasOption(es[1..], OptUpgrade));
    } else {
      OptionsAdd(flags, false, false, false, false, false, false);
    }
  }

  /** An element of a list: no comma, and it starts as a token. */
  predicate IsElement(e: seq<byte>)
  {
    |e| > 0 && COMMA !in e && Token(Lower(e[0])) != 0
  }

  /** Elements with commas between them, and spaces in front of each. */
  function Listed(gaps: seq<seq<byte>>, es: seq<seq<byte>>): seq<byte>
    requires |gaps| == |es|
    decreases |es|, 0
  {
    if |es| == 0 then [] else gaps[0] + (es[0] + Others(gaps[1..], es[1..]))
  }

  function Others(gaps: seq<seq<byte>>, es: seq<seq<byte>>): seq<byte>
    requires |gaps| == |es|
    decreases |es|, 1
  {
    if |es| == 0 then [] else [COMMA] + Listed(gaps, es)
  }

  lemma {:induction false} ElementEnds(e: seq<byte>, r: seq<byte>)
    requires COMMA !in e && (|r| > 0 ==> r[0] == COMMA)
    ensures Element(e + r) == e && AfterElement(e + r) == r
    decreases |e|
  {
    if |e| == 0 {
      assert e + r == r;
    } else {
      assert (e + r)[0] == e[0] && (e + r)[1..] == e[1..] + r;
      ElementEnds(e[1..], r);
      assert [e[0]] + e[1..] == e;
    }
  }

  lemma {:induction false} GapSkipped(gap: seq<byte>, t: seq<byte>)
    requires IsSpaces(gap)
    ensures Elements(gap + t) == Elements(t)
    decreases |gap|
  {
    hide Token, ElementsFrom;
    if |gap| == 0 {
      assert gap + t == t;
    } else {
      assert (gap + t)[0] == gap[0] && (gap + t)[1..] == gap[1..] + t;
      GapSkipped(gap[1..], t);
    }
  }

  /** A list is read to its end when no element but the last is a cut-off option. */
  lemma {:induction false} ListRead(gaps: seq<seq<byte>>, es: seq<seq<byte>>)
    requires |gaps| == |es|
    requires forall i :: 0 <= i < |es| ==> IsSpaces(gaps[i]) && IsElement(es[i]) && (i + 1 < |es| ==> !Swallows(es[i]))
    ensures Elements(Listed(gaps, es)) == es
    decreases |es|
  {
    hide Swallows, Token, Lower, Elements, ElementsFrom;
    if |es| == 0 {
      NothingRead();
    } else {
      var e, r := es[0], Others(gaps[1..], es[1..]);
      GapSkipped(gaps[0], e + r);
      ListRead(gaps[1..], es[1..]);
      ElementRead(e, r);
      assert |es| > 1 ==> r[1..] == Listed(gaps[1..], es[1..]);
      assert [e] + es[1..] == es;
    }
  }

  lemma NothingRead()
    ensures Elements([]) == []
  {
  }

  /** An element in front of the others. */
  lemma ElementRead(e: seq<byte>, r: seq<byte>)
    requires IsElement(e) && (|r| > 0 ==> r[0] == COMMA && !Swallows(e))
    ensures Elements(e + r) == [e] + if |r| == 0 then [] else Elements(r[1..])
  {
    hide Swallows, Lower;
    assert (e + r)[0] == e[0];
    assert Token(' ' as int) == 0;
    hide Token;
    ElementEnds(e, r);
    assert Elements(e + r) == ElementsFrom(e, r);
  }

  /** So is a whole value. */
  lemma ValueRead(gaps: seq<seq<byte>>, es: seq<seq<byte>>)
    requires |gaps| == |es| > 0 && gaps[0] == []
    requires forall i :: 0 <= i < |es| ==> IsSpaces(gaps[i]) && IsElement(es[i]) && (i + 1 < |es| ==> !Swallows(es[i]))
    ensures |Listed(gaps, es)| > 0 && ListElements(Listed(gaps, es)) == es
  {
    hide Swallows;
    ListRead(gaps, es);
    var e, t := es[0], Listed(gaps, es);
    assert t == e + Others(gaps[1..], es[1..]) && t[0] == e[0];
    assert Token(' ' as int) == 0;
    CommaLowered();
    assert Token(COMMA) == 0;
    hide Token, Lower, Listed, Others, ElementsFrom;
    assert Elements(t) == ElementsFrom(Element(t), AfterElement(t));
  }

  /** A tab in front of an element ends the reading, though the code means to skip it. */
  lemma TabEndsList(t: seq<byte>)
    ensures Elements([9] + t) == []
  {
  }

  const CLOSE: seq<byte> := [99, 108, 111, 115, 101]

  lemma CloseNamed()
    ensures Follows(Word(OptClose), CLOSE) && Element(CLOSE) == CLOSE && AfterElement(CLOSE) == []
    ensures Elements(CLOSE) == [CLOSE] && Names(CLOSE, OptClose)
  {
    assert CLOSE + [] == CLOSE;
    ElementEnds(CLOSE, []);
    hide AfterElement, Element;
  }

  /** Behind "a,". */
  lemma BehindOther(f: Fields, r: seq<byte>)
    requires f.header.Connection?
    ensures AfterValue(f, [97] + ([COMMA] + r)).flags == WithElements(f.flags, Elements(r))
  {
    FirstDecides(97);
    hide AfterValue, FollowsNone, Lower, WithElements, Elements, Swallows, WithElement;
    var e, t := [97], [COMMA] + r;
    ConnectionFlags(f, e + t);
    ElementEnds(e, t);
    assert e + [] == e;
    NoneStays(e, []);
    WithFirst(f.flags, e, Elements(r));
    assert t[1..] == r;
  }

  /** So in a header whose value is "a,", a tab and "close", the option is not seen; with a space it is. */
  lemma TabHidesOption(f: Fields)
    requires f.header.Connection?
    ensures AfterValue(f, [97] + ([COMMA] + ([9] + CLOSE))).flags == f.flags
    ensures AfterValue(f, [97] + ([COMMA] + ([32] + CLOSE))).flags == f.flags.(close := true)
  {
    hide AfterValue;
    BehindOther(f, [9] + CLOSE);
    TabEndsList(CLOSE);
    CloseNamed();
    GapSkipped([32], CLOSE);
    hide Elements;
    BehindOther(f, [32] + CLOSE);
    hide Names;
    WithFirst(f.flags, CLOSE, []);
    NamesOne(CLOSE);
  }

  lemma CloPart()
    ensures FollowsOnly([99, 108, 111], OptClose) && |Word(OptClose)| == 5
  {
    hide FollowsOnly, Follows;
    FirstDecides(99);
    assert FitsAt(Word(OptClose), 1, 108) && FitsAt(Word(OptClose), 2, 111);
    NextDecides([99], OptClose, 108);
    assert [99] + [108] == [99, 108];
    NextDecides([99, 108], OptClose, 111);
    assert [99, 108] + [111] == [99, 108, 111];
  }

  /** In the value "clo,close" the option is not seen either: the comma behind "clo" is read as a part of it. */
  lemma CutOffHidesOption(f: Fields)
    requires f.header.Connection?
    ensures AfterValue(f, [99, 108, 111] + ([COMMA] + CLOSE)).flags == f.flags
  {
    var e, t := [99, 108, 111], [COMMA] + CLOSE;
    CloPart();
    hide AfterValue, FollowsOnly, FollowsNone, Elements, WithElement, Swallows, Word, Follows, Lower;
    ConnectionFlags(f, e + t);
    ElementEnds(e, t);
    PartIs(f.flags, OptClose, e);
    CloseNamed();
    assert t[1..] == CLOSE && (e + t)[0] == 99;
    hide Element, AfterElement, WithElements;
    assert SkipElement(CLOSE) == [];
    assert ElementsFrom(e, t) == [e] + [];
    assert ListElements(e + t) == ElementsFrom(e, t);
    WithFirst(f.flags, e, []);
    NoElements(f.flags);
  }

  lemma NoElements(flags: Flags)
    ensures WithElements(flags, []) == flags
  {
  }
}
