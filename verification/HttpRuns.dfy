/**
 What the HTTP parser does over whole messages: any cutting of the bytes gives the same result, the
 asserts of the source hold, lengths are the values of their numerals, and bodies are handed over
 exactly.
 */
module HttpRuns {

  import opened Base
  import opened HttpStates
  import opened HttpParser

  // ---------------------------------------------------------------------
  // Errors
  // ---------------------------------------------------------------------

  predicate ErrorOnFail(o: Outcome)
  {
    o.flow.Fail? <==> !o.f.errno.Ok?
  }

  lemma PrefaceErrors(f: Fields, ch: byte)
    requires f.state.ResLine? && InPreface(f.state.res) && f.errno.Ok?
    ensures ErrorOnFail(ActResLine(f, ch))
  {
    hide Is, IsNum, Digit;
  }

  lemma ResVersionErrors(f: Fields, ch: byte)
    requires f.state.ResLine? && !InPreface(f.state.res) && f.errno.Ok?
    ensures ErrorOnFail(ActResLine(f, ch))
  {
    hide Is, IsNum, Digit;
  }

  lemma ResLineErrors(f: Fields, ch: byte)
    requires f.state.ResLine? && f.errno.Ok?
    ensures ErrorOnFail(ActResLine(f, ch))
  {
    hide ActResLine;
    if InPreface(f.state.res) {
      PrefaceErrors(f, ch);
    } else {
      ResVersionErrors(f, ch);
    }
  }

  lemma ReqVersionErrors(f: Fields, ch: byte)
    requires f.state.ReqLine? && InReqVersion(f.state.req) && f.errno.Ok?
    ensures ErrorOnFail(ActReqLine(f, ch))
  {
    hide Is, IsNum, Digit, ParseUrlChar, ActMethod;
  }

  lemma ReqStartErrors(f: Fields, ch: byte)
    requires f.state.ReqLine? && !InReqVersion(f.state.req) && f.errno.Ok?
    ensures ErrorOnFail(ActReqLine(f, ch))
  {
    hide Is, ParseUrlChar, SwitchMethod, FirstMethod, MethodString, CharAt, IsAlpha;
  }

  lemma ReqLineErrors(f: Fields, ch: byte)
    requires f.errno.Ok?
    ensures f.state.ReqLine? ==> ErrorOnFail(ActReqLine(f, ch))
    ensures f.state.InUrl? ==> ErrorOnFail(ActUrl(f, ch))
  {
    hide ActReqLine, Is, ParseUrlChar;
    if f.state.ReqLine? {
      if InReqVersion(f.state.req) {
        ReqVersionErrors(f, ch);
      } else {
        ReqStartErrors(f, ch);
      }
    }
  }

  lemma FlaggedErrno(f: Fields)
    ensures Flagged(f).errno == f.errno
  {
  }

  lemma FieldErrors(f: Fields, ch: byte)
    requires f.errno.Ok?
    ensures ErrorOnFail(ActField(f, ch)) && ErrorOnFail(ActFieldStart(f, ch))
        && ErrorOnFail(ActHeadersAlmostDone(f, ch))
  {
    hide MatchName, Token, FirstOfName, Is;
  }

  lemma ValueStartErrors(f: Fields, ch: byte)
    requires f.errno.Ok?
    ensures ErrorOnFail(ActValueStart(f, ch))
  {
    hide FirstOfConnection, Lower, Is, IsNum;
  }

  lemma InValueErrors(f: Fields, ch: byte)
    requires f.errno.Ok?
    ensures ErrorOnFail(ActInValue(f, ch))
  {
    hide MatchWord, FirstOfConnection, Token, Lower, Is, Flagged;
    FlaggedErrno(f);
  }

  lemma HeadersDoneErrors(f: Fields, ch: byte)
    requires f.errno.Ok?
    ensures ErrorOnFail(ActHeadersDone(f, ch))
  {
    hide ShouldKeepAlive, HasBody, NeedsEof;
  }

  lemma LineErrors(f: Fields, ch: byte)
    requires f.state.Head? && f.errno.Ok?
    requires var h := f.state.head;
      h.HeaderValueDiscardLws? || h.HeaderValueLws? || h.HeaderAlmostDone? || h.HeaderValueDiscardWsAlmostDone?
    ensures ErrorOnFail(ActHead(f, ch))
  {
    hide Flagged, Is;
    FlaggedErrno(f);
  }

  lemma HeadErrors(f: Fields, ch: byte)
    requires f.state.Head? && f.errno.Ok?
    ensures ErrorOnFail(ActHead(f, ch))
  {
    var h := f.state.head;
    if h.HeaderValueDiscardLws? || h.HeaderValueLws? || h.HeaderAlmostDone? || h.HeaderValueDiscardWsAlmostDone? {
      LineErrors(f, ch);
    } else {
      hide ActFieldStart, ActHeadersAlmostDone, Flagged, Is, ActValueStart, ActHeadersDone;
      FieldErrors(f, ch);
      ValueStartErrors(f, ch);
      HeadersDoneErrors(f, ch);
    }
  }

  lemma ChunkErrors(f: Fields, ch: byte)
    requires f.state.Chunk? && f.errno.Ok?
    ensures ErrorOnFail(ActChunk(f, ch))
  {
    hide Unhex, Is;
  }

  /** A pass sets an error exactly when it says so. */
  lemma ActErrors(f: Fields, ch: byte)
    requires f.errno.Ok?
    ensures ErrorOnFail(Act(f, ch))
  {
    hide ActResLine, ActReqLine, ActUrl, ActHead, ActChunk, ActInValue, ActField;
    ReqLineErrors(f, ch);
    FieldErrors(f, ch);
    InValueErrors(f, ch);
    if f.state.ResLine? {
      ResLineErrors(f, ch);
    } else if f.state.Head? {
      HeadErrors(f, ch);
    } else if f.state.Chunk? {
      ChunkErrors(f, ch);
    }
  }

  lemma {:induction false} RunErrors(s: Spot, data: seq<byte>)
    requires s.f.errno.Ok?
    ensures Run(s, data).ending.Failed? <==> !Run(s, data).at.f.errno.Ok?
    decreases |data|, 9
  {
    hide Act;
    if |data| > 0 && !TooLong(s) {
      PassErrors(Counted(s), data);
    }
  }

  lemma {:induction false} PassErrors(s: Spot, data: seq<byte>)
    requires s.f.errno.Ok? && |data| > 0
    ensures Pass(s, data).ending.Failed? <==> !Pass(s, data).at.f.errno.Ok?
    decreases |data|, Rank(s.f.state)
  {
    hide Act, Rank;
    var o := Act(s.f, data[0]);
    ActErrors(s.f, data[0]);
    AgainFalls(s.f, data[0]);
    if o.flow.Again? {
      PassErrors(Landed(s, o), data);
    } else if o.flow.Next? {
      RunErrors(Landed(s, o), data[1..]);
    }
  }

  // ---------------------------------------------------------------------
  // The asserts of the source
  // ---------------------------------------------------------------------

  /** How far the index may have come in a header's name or value. */
  function IndexLimit(h: HeaderState): nat
  {
    match h
    case C => 1
    case CO => 2
    case CON => 3
    case MatchingConnection => 9
    case MatchingProxyConnection => 15
    case MatchingContentLength => 13
    case MatchingTransferEncoding => 16
    case MatchingUpgrade => 6
    case MatchingChunked => 6
    case MatchingTokenStart => 1
    case MatchingKeepAlive => 9
    case MatchingClose => 4
    case MatchingConnectionUpgrade => 6
    case _ => 17
  }

  predicate NameMatcher(h: HeaderState)
  {
    h.General? || h.C? || h.CO? || h.CON? || h.MatchingConnection? || h.MatchingProxyConnection?
        || h.MatchingContentLength?
    || h.MatchingTransferEncoding? || h.MatchingUpgrade? || h.Connection? || h.ContentLength? || h.TransferEncoding?
        || h.Upgrade?
  }

  /**
   What the asserts of the source rely on: chunk states only in chunked messages, bodies with a length
   that is neither 0 nor the sentinel, no header state in a loop that does not know it. The length fits
   64 bits, and the index its seven bits.
   */
  predicate Sane(f: Fields)
  {
    && f.length <= ULLONG_MAX && f.index <= 17
    && match f.state
       case ReqLine(r) => r.ReqMethod? ==> f.index <= |MethodString(f.method_)|
       case HeaderField => NameMatcher(f.header) && f.index < IndexLimit(f.header)
       case HeaderValue =>
         (!f.header.Connection? && !f.header.TransferEncoding? && !f.header.Upgrade?
          && f.index < IndexLimit(f.header) && (f.header.ContentLength? ==> f.length < ULLONG_MAX))
       case Chunk(c) =>
         (f.flags.chunked
          && (c.ChunkDataAlmostDone? ==> f.length == 0)
          && (c.ChunkSize? || c.ChunkParameters? || c.ChunkSizeAlmostDone? ==> f.length < ULLONG_MAX))
       case ChunkData => f.flags.chunked && 0 < f.length < ULLONG_MAX
       case BodyIdentity => 0 < f.length < ULLONG_MAX
       case _ => true
  }

  lemma MethodLengths(m: Method)
    ensures 3 <= |MethodString(m)| <= 11
  {
  }

  /** Everything but a failure keeps it. */
  predicate KeepsSane(o: Outcome)
  {
    o.flow.Fail? || Sane(o.f)
  }

  lemma PrefaceSane(f: Fields, ch: byte)
    requires f.state.ResLine? && InPreface(f.state.res) && Sane(f)
    ensures KeepsSane(ActResLine(f, ch))
  {
    hide Is, IsNum, Digit, MethodString;
    MethodLengths(HEAD);
  }

  lemma ResVersionSane(f: Fields, ch: byte)
    requires f.state.ResLine? && !InPreface(f.state.res) && Sane(f)
    ensures KeepsSane(ActResLine(f, ch))
  {
    hide Is, IsNum, Digit, MethodString;
    MethodLengths(HEAD);
  }

  lemma ResLineSane(f: Fields, ch: byte)
    requires f.state.ResLine? && Sane(f)
    ensures KeepsSane(ActResLine(f, ch))
  {
    hide ActResLine;
    if InPreface(f.state.res) {
      PrefaceSane(f, ch);
    } else {
      ResVersionSane(f, ch);
    }
  }

  lemma MethodSane(f: Fields, ch: byte)
    requires f.state == ReqLine(ReqMethod) && Sane(f)
    ensures KeepsSane(ActMethod(f, ch))
  {
    hide Is, IsAlpha, MethodString, SwitchMethod;
    MethodLengths(f.method_);
    SwitchLengths(f.method_, f.index, ch);
    MethodLengths(MSEARCH);
  }

  lemma SwitchLengths(m: Method, i: nat, ch: byte)
    ensures var n := SwitchMethod(m, i, ch);
      n.Some? ==> i < |MethodString(n.value)|
  {
    hide Is, MethodString;
    var n := SwitchMethod(m, i, ch);
    if n.Some? {
      MethodLengths(n.value);
      LongNames();
    }
  }

  lemma LongNames()
    ensures |MethodString(MKCALENDAR)| == 10 && |MethodString(PROPPATCH)| == 9 && |MethodString(UNLINK)| == 6
  {
  }

  lemma ReqVersionSane(f: Fields, ch: byte)
    requires f.state.ReqLine? && InReqVersion(f.state.req) && Sane(f)
    ensures KeepsSane(ActReqLine(f, ch))
  {
    hide Is, IsNum, Digit, ParseUrlChar, ActMethod, FirstMethod, MethodString, IsAlpha;
  }

  lemma ReqLineSane(f: Fields, ch: byte)
    requires f.state.ReqLine? && Sane(f)
    ensures KeepsSane(ActReqLine(f, ch))
  {
    hide Is, IsNum, Digit, ParseUrlChar, ActMethod, FirstMethod, MethodString, IsAlpha;
    if InReqVersion(f.state.req) {
      ReqVersionSane(f, ch);
      hide ActReqLine, KeepsSane;
    } else if f.state.req.ReqMethod? {
      MethodSane(f, ch);
    } else if FirstMethod(ch).Some? {
      MethodLengths(FirstMethod(ch).value);
    }
  }

  lemma UrlSane(f: Fields, ch: byte)
    requires f.state.InUrl? && Sane(f)
    ensures KeepsSane(ActUrl(f, ch))
  {
    hide Is, ParseUrlChar, MethodString;
  }

  /** While a word is being matched its end has not been reached. */
  lemma WordBound(word: string, i: nat, c: byte, matching: HeaderState, matched: HeaderState, failed: HeaderState)
    requires 0 < |word| && i < |word|
    ensures var h := MatchWord(word, i, c, matching, matched, failed);
      (h == matching && i < |word| - 1) || h == matched || h == failed
  {
  }

  lemma NameStep(h: HeaderState, i: nat, c: byte)
    requires NameMatcher(h) && i < IndexLimit(h)
    ensures var (h', i') := MatchName(h, i, c);
      NameMatcher(h') && i' < IndexLimit(h') && i' < 17
  {
    hide MatchWord, Is;
    match h
    case MatchingConnection => WordBound("connection", i + 1, c, h, Connection, General);
    case MatchingProxyConnection => WordBound("proxy-connection", i + 1, c, h, Connection, General);
    case MatchingContentLength => WordBound("content-length", i + 1, c, h, ContentLength, General);
    case MatchingTransferEncoding => WordBound("transfer-encoding", i + 1, c, h, TransferEncoding, General);
    case MatchingUpgrade => WordBound("upgrade", i + 1, c, h, Upgrade, General);
    case _ =>
  }

  lemma FieldSane(f: Fields, ch: byte)
    requires f.state.HeaderField? && Sane(f)
    ensures KeepsSane(ActField(f, ch))
  {
    hide Is, Token, MatchName, NameMatcher, IndexLimit, MethodString;
    NameStep(f.header, f.index, Token(ch));
  }

  lemma ValueStartSane(f: Fields, ch: byte)
    requires f.state.Head? && Sane(f)
    ensures KeepsSane(ActValueStart(f, ch))
  {
    hide Is, IsNum, Lower, MethodString;
  }

  /** A header state inside a value that is not a length. */
  predicate ValueMatcher(h: HeaderState)
  {
    !h.ContentLength? && !h.Connection? && !h.TransferEncoding? && !h.Upgrade?
  }

  predicate KeepsValue(f: Fields, g: Fields)
  {
    g.state == f.state && g.length == f.length && g.index < IndexLimit(g.header) && ValueMatcher(g.header)
  }

  lemma WordKept(word: string, f: Fields, c: byte, matched: HeaderState, failed: HeaderState)
    requires f.index < IndexLimit(f.header) == |word| - 1 && ValueMatcher(f.header) && ValueMatcher(matched)
        && ValueMatcher(failed)
    requires |word| <= IndexLimit(matched) && |word| <= IndexLimit(failed)
    ensures KeepsValue(f, f.(index := f.index + 1, header := MatchWord(word, f.index + 1, c, f.header, matched,
        failed)))
  {
    WordBound(word, f.index + 1, c, f.header, matched, failed);
    hide MatchWord;
  }

  lemma AfterTokenKept(f: Fields, ch: byte)
    requires (f.header.KeepAlive? || f.header.Close? || f.header.ConnectionUpgrade?) && f.index < IndexLimit(f.header)
    ensures KeepsValue(f, ActAfterToken(f, ch).f)
  {
    hide Is;
  }

  lemma OtherKept(f: Fields, ch: byte)
    requires f.index < IndexLimit(f.header) && ValueMatcher(f.header)
    requires Wordless(f.header)
    ensures KeepsValue(f, ActInValue(f, ch).f)
  {
    hide MatchWord, Is, Token, Lower, ActAfterToken;
  }

  /** No word is being matched, and none has been. */
  predicate Wordless(h: HeaderState)
  {
    !h.MatchingChunked? && !h.MatchingKeepAlive? && !h.MatchingClose? && !h.MatchingConnectionUpgrade?
    && !h.KeepAlive? && !h.Close? && !h.ConnectionUpgrade?
  }

  /** The matchers of values keep to their words, and never enter the states of names. */
  lemma ValueStep(f: Fields, ch: byte)
    requires f.index < IndexLimit(f.header) && ValueMatcher(f.header)
    ensures KeepsValue(f, ActInValue(f, ch).f)
  {
    hide MatchWord, Is, Token, Lower, KeepsValue, ActAfterToken;
    var c := Lower(ch);
    match f.header
    case MatchingChunked => WordKept("chunked", f, c, Chunked, General);
    case MatchingKeepAlive => WordKept("keep-alive", f, c, KeepAlive, MatchingToken);
    case MatchingClose => WordKept("close", f, c, Close, MatchingToken);
    case MatchingConnectionUpgrade => WordKept("upgrade", f, c, ConnectionUpgrade, MatchingToken);
    case KeepAlive => AfterTokenKept(f, ch);
    case Close => AfterTokenKept(f, ch);
    case ConnectionUpgrade => AfterTokenKept(f, ch);
    case _ => OtherKept(f, ch);
  }

  lemma ShortIndex(h: HeaderState)
    ensures 1 <= IndexLimit(h) <= 17
  {
  }

  lemma InValueSane(f: Fields, ch: byte)
    requires f.state.HeaderValue? && Sane(f)
    ensures KeepsSane(ActInValue(f, ch))
  {
    if f.header.ContentLength? {
      hide ActLengthDigit, IndexLimit;
      LengthDigitSane(f, ch);
    } else {
      hide ActInValue, IndexLimit;
      ValueStep(f, ch);
      ShortIndex(ActInValue(f, ch).f.header);
    }
  }

  lemma LengthDigitSane(f: Fields, ch: byte)
    requires f.length < ULLONG_MAX
    ensures var g := ActLengthDigit(f, ch).f;
      g.state == f.state && g.header == f.header && g.index == f.index && g.length < ULLONG_MAX
  {
    if IsNum(ch) && f.length <= (ULLONG_MAX - 10) / 10 {
      NoWrap(10, f.length, Digit(ch));
    }
  }

  lemma FlaggedSane(f: Fields)
    ensures var g := Flagged(f);
      g.state == f.state && g.header == f.header && g.index == f.index && g.length == f.length
  {
  }

  lemma HeadersDoneSane(f: Fields, ch: byte)
    requires f.state.Head? && Sane(f)
    ensures KeepsSane(ActHeadersDone(f, ch))
  {
    hide ShouldKeepAlive, NeedsEof, MethodString;
  }

  lemma FieldStartSane(f: Fields, ch: byte)
    requires f.state.Head? && Sane(f)
    ensures KeepsSane(ActFieldStart(f, ch)) && KeepsSane(ActHeadersAlmostDone(f, ch))
  {
    hide Is, Token, MethodString;
  }

  lemma BlankSane(f: Fields, ch: byte)
    requires f.state.Head? && Sane(f)
    requires var h := f.state.head;
      h.HeaderValueDiscardWs? || h.HeaderValueStart? || h.HeaderAlmostDone? || h.HeaderValueDiscardWsAlmostDone?
    ensures KeepsSane(ActHead(f, ch))
  {
    hide Is, Flagged, ActValueStart, ActHeadersDone, ActFieldStart, ActHeadersAlmostDone, MethodString;
    ValueStartSane(f, ch);
  }

  lemma HeadSane(f: Fields, ch: byte)
    requires f.state.Head? && Sane(f)
    ensures KeepsSane(ActHead(f, ch))
  {
    hide Is, Flagged, ActValueStart, ActHeadersDone, ActFieldStart, ActHeadersAlmostDone, MethodString;
    match f.state.head
    case HeaderFieldStart => FieldStartSane(f, ch);
    case HeadersAlmostDone => FieldStartSane(f, ch);
    case HeadersDone => HeadersDoneSane(f, ch);
    case HeaderValueLws => FlaggedSane(f);
    case HeaderValueDiscardLws => FlaggedSane(f);
    case _ => BlankSane(f, ch);
  }

  lemma ChunkSane(f: Fields, ch: byte)
    requires f.state.Chunk? && Sane(f)
    ensures KeepsSane(ActChunk(f, ch))
  {
    hide Is, Unhex, ActSizeDigit, MethodString;
    UnhexSmall(ch);
    if Unhex(ch) != -1 && f.state.chunk.ChunkSize? {
      SizeDigitSane(f, ch);
    }
  }

  lemma UnhexSmall(ch: byte)
    ensures -1 <= Unhex(ch) < 16
  {
  }

  lemma SizeDigitSane(f: Fields, ch: byte)
    requires f.length < ULLONG_MAX && Unhex(ch) != -1
    ensures var g := ActSizeDigit(f, ch).f;
      g.state == f.state && g.flags == f.flags && g.index == f.index && g.length < ULLONG_MAX
  {
    if f.length <= (ULLONG_MAX - 16) / 16 {
      NoWrap(16, f.length, Unhex(ch));
    }
  }

  /** Every pass keeps it. */
  lemma ActSane(f: Fields, ch: byte)
    requires Sane(f)
    ensures KeepsSane(Act(f, ch))
  {
    hide ActResLine, ActReqLine, ActUrl, ActHead, ActChunk, ActInValue, ActField, MethodString, ShouldKeepAlive;
    match f.state
    case ResLine(_) => ResLineSane(f, ch);
    case ReqLine(_) => ReqLineSane(f, ch);
    case InUrl(_) => UrlSane(f, ch);
    case Head(_) => HeadSane(f, ch);
    case HeaderField => FieldSane(f, ch);
    case HeaderValue => InValueSane(f, ch);
    case Chunk(_) => ChunkSane(f, ch);
    case _ =>
  }

  /** So the asserts hold in every run. */
  lemma {:induction false} RunSane(s: Spot, data: seq<byte>)
    requires Sane(s.f)
    ensures !Run(s, data).ending.Failed? ==> Sane(Run(s, data).at.f)
    decreases |data|, 9
  {
    hide Act, Sane;
    if |data| > 0 && !TooLong(s) {
      PassSane(Counted(s), data);
    }
  }

  /** In particular in every run of a new parser. */
  lemma NewParserSane(kind: Type, lenient: bool, reply: Reply, data: seq<byte>)
    ensures var r := Run(Spot(Initial(kind, lenient, reply), 0), data);
      !r.ending.Failed? ==> Sane(r.at.f)
  {
    hide Run;
    RunSane(Spot(Initial(kind, lenient, reply), 0), data);
  }

  lemma {:induction false} PassSane(s: Spot, data: seq<byte>)
    requires Sane(s.f) && |data| > 0
    ensures !Pass(s, data).ending.Failed? ==> Sane(Pass(s, data).at.f)
    decreases |data|, Rank(s.f.state)
  {
    hide Act, Rank, Sane;
    var o := Act(s.f, data[0]);
    ActSane(s.f, data[0]);
    AgainFalls(s.f, data[0]);
    if o.flow.Again? {
      PassSane(Landed(s, o), data);
    } else if o.flow.Next? {
      RunSane(Landed(s, o), data[1..]);
    }
  }

  // ---------------------------------------------------------------------
  // Upgrades
  // ---------------------------------------------------------------------

  /** Neither an upgrade nor the trailers of a chunked body begin or end. */
  predicate KeepsMode(f: Fields, g: Fields)
  {
    g.upgrade == f.upgrade && g.flags.trailing == f.flags.trailing
  }

  lemma FlaggedKeepsMode(f: Fields)
    ensures KeepsMode(f, Flagged(f))
  {
    var flags, g := f.flags, Flagged(f);
    match f.header {
      case KeepAlive => assert g.flags == flags.(keepAlive := true);
      case Close => assert g.flags == flags.(close := true);
      case Chunked => assert g.flags == flags.(chunked := true);
      case ConnectionUpgrade => assert g.flags == flags.(connectionUpgrade := true);
      case _ => assert g == f;
    }
  }

  lemma AfterTokenKeepsMode(f: Fields, ch: byte)
    ensures KeepsMode(f, ActAfterToken(f, ch).f)
  {
    hide Is, Flagged;
    FlaggedKeepsMode(f);
  }

  lemma LengthDigitKeepsMode(f: Fields, ch: byte)
    ensures KeepsMode(f, ActLengthDigit(f, ch).f)
  {
    hide Is, IsNum, Digit;
  }

  lemma InValueKeepsMode(f: Fields, ch: byte)
    ensures KeepsMode(f, ActInValue(f, ch).f)
  {
    hide Lower, Token, MatchWord, ActLengthDigit, ActAfterToken, FirstOfConnection, Is;
    AfterTokenKeepsMode(f, ch);
    LengthDigitKeepsMode(f, ch);
    match f.header {
      case MatchingChunked =>
      case MatchingTokenStart =>
      case MatchingKeepAlive =>
      case MatchingClose =>
      case MatchingConnectionUpgrade =>
      case _ =>
    }
  }

  lemma ValueStartKeepsMode(f: Fields, ch: byte)
    ensures KeepsMode(f, ActValueStart(f, ch).f) && ActValueStart(f, ch).f.state.HeaderValue?
  {
    hide FirstOfConnection, IsNum, Digit, Lower;
    match f.header {
      case Upgrade =>
      case TransferEncoding =>
      case ContentLength =>
      case Connection =>
      case _ =>
    }
  }

  /** Behind the header of a message. */
  predicate HeaderBehind(f: Fields)
  {
    match f.state
    case Head(h) => h.HeadersDone? || f.flags.trailing
    case HeaderField => f.flags.trailing
    case HeaderValue => f.flags.trailing
    case Chunk(_) => true
    case ChunkData => true
    case BodyIdentity => true
    case BodyIdentityEof => true
    case MessageDone => true
    case _ => false
  }

  /** An upgrade is only pending behind the header of the message that asks for it. */
  predicate UpgradeOk(f: Fields)
  {
    f.upgrade ==> HeaderBehind(f)
  }

  /** So it stays; and a pass that leaves for another protocol leaves between messages. */
  predicate KeepsUpgradeOk(o: Outcome)
  {
    match o.flow
    case Next => UpgradeOk(o.f)
    case Again => UpgradeOk(o.f)
    case Leave => o.f.upgrade && BetweenMessages(o.f.state)
    case Fail => true
  }

  lemma ResLineUpgrade(f: Fields, ch: byte)
    requires f.state.ResLine? && UpgradeOk(f)
    ensures KeepsUpgradeOk(ActResLine(f, ch))
  {
    hide Is, IsNum, Digit;
  }

  lemma ReqLineUpgrade(f: Fields, ch: byte)
    requires f.state.ReqLine? && UpgradeOk(f)
    ensures KeepsUpgradeOk(ActReqLine(f, ch))
  {
    hide Is, IsNum, Digit, IsAlpha, ParseUrlChar, SwitchMethod, FirstMethod, MethodString, CharAt;
  }

  lemma UrlUpgrade(f: Fields, ch: byte)
    requires f.state.InUrl? && UpgradeOk(f)
    ensures KeepsUpgradeOk(ActUrl(f, ch))
  {
    hide Is, ParseUrlChar;
  }

  lemma NameUpgrade(f: Fields, ch: byte)
    requires UpgradeOk(f)
    ensures f.state.HeaderField? ==> KeepsUpgradeOk(ActField(f, ch))
    ensures f.state == Head(HeaderFieldStart) ==> KeepsUpgradeOk(ActFieldStart(f, ch))
  {
    hide MatchName, FirstOfName, Token, Is;
  }

  lemma AlmostDoneUpgrade(f: Fields, ch: byte)
    ensures KeepsUpgradeOk(ActHeadersAlmostDone(f, ch))
  {
  }

  lemma EndedLeaves(f: Fields, flow: Flow, reset: bool)
    requires !f.upgrade ==> flow.Next?
    requires f.upgrade ==> flow.Leave?
    ensures KeepsUpgradeOk(Ended(f, flow, reset))
  {
    hide ShouldKeepAlive;
  }

  lemma HeadersDoneUpgrade(f: Fields, ch: byte)
    ensures KeepsUpgradeOk(ActHeadersDone(f, ch))
  {
    hide Ended, NeedsEof;
    if ActHeadersDone(f, ch) == Ended(f, Next, true) && !f.upgrade {
      EndedLeaves(f, Next, true);
    }
    if f.upgrade {
      EndedLeaves(f, Leave, true);
    }
  }

  lemma BlankUpgrade(f: Fields, ch: byte)
    requires f.state.Head? && UpgradeOk(f)
    requires var h := f.state.head;
      h.HeaderValueDiscardWs? || h.HeaderValueStart? || h.HeaderAlmostDone? || h.HeaderValueDiscardWsAlmostDone?
    ensures KeepsUpgradeOk(ActHead(f, ch))
  {
    hide ActFieldStart, ActHeadersAlmostDone, Flagged, ActValueStart, ActHeadersDone, Is;
    ValueStartKeepsMode(f, ch);
    NoAgain(f, ch);
    ValueStartGoes(f, ch);
  }

  lemma ValueStartGoes(f: Fields, ch: byte)
    ensures !ActValueStart(f, ch).flow.Leave?
  {
    hide FirstOfConnection, IsNum, Digit, Lower;
  }

  lemma LineEndUpgrade(f: Fields, ch: byte)
    requires f.state.Head? && UpgradeOk(f) && (f.state.head.HeaderValueLws? || f.state.head.HeaderValueDiscardLws?)
    ensures KeepsUpgradeOk(ActHead(f, ch))
  {
    hide ActFieldStart, ActHeadersAlmostDone, Flagged, ActValueStart, ActHeadersDone, Is;
    FlaggedKeepsMode(f);
  }

  lemma HeadUpgrade(f: Fields, ch: byte)
    requires f.state.Head? && UpgradeOk(f)
    ensures KeepsUpgradeOk(ActHead(f, ch))
  {
    hide ActFieldStart, ActHeadersAlmostDone, Flagged, ActValueStart, ActHeadersDone, Is, KeepsUpgradeOk, UpgradeOk;
    match f.state.head
    case HeaderFieldStart => NameUpgrade(f, ch);
    case HeadersAlmostDone => AlmostDoneUpgrade(f, ch);
    case HeadersDone => HeadersDoneUpgrade(f, ch);
    case HeaderValueLws => LineEndUpgrade(f, ch);
    case HeaderValueDiscardLws => LineEndUpgrade(f, ch);
    case _ => BlankUpgrade(f, ch);
  }

  lemma ValueUpgrade(f: Fields, ch: byte)
    requires f.state.HeaderValue? && UpgradeOk(f)
    ensures KeepsUpgradeOk(ActValue(f, ch))
  {
    hide ActInValue, Legal;
    InValueKeepsMode(f, ch);
    InValueShape(f, ch);
  }

  lemma BodyUpgrade(f: Fields, ch: byte)
    requires f.state.Chunk? || f.state.ChunkData? || f.state.BodyIdentity? || f.state.BodyIdentityEof?
             || f.state.MessageDone?
    ensures KeepsUpgradeOk(Act(f, ch))
  {
    hide Is, Unhex, ShouldKeepAlive;
  }

  lemma ActUpgrade(f: Fields, ch: byte)
    requires UpgradeOk(f)
    ensures KeepsUpgradeOk(Act(f, ch))
  {
    hide ActResLine, ActReqLine, ActUrl, ActHead, ActField, ActValue, ActChunk, KeepsUpgradeOk, UpgradeOk, Ended;
    match f.state {
      case ResLine(_) => ResLineUpgrade(f, ch);
      case ResStatus => StatusUpgrade(f, ch);
      case ReqLine(_) => ReqLineUpgrade(f, ch);
      case InUrl(_) => UrlUpgrade(f, ch);
      case Head(_) => HeadUpgrade(f, ch);
      case HeaderField => NameUpgrade(f, ch);
      case HeaderValue => ValueUpgrade(f, ch);
      case _ => BodyUpgrade(f, ch);
    }
  }

  lemma StatusUpgrade(f: Fields, ch: byte)
    requires f.state.ResStatus? && UpgradeOk(f)
    ensures KeepsUpgradeOk(ActStatus(f, ch))
  {
  }

  /** Between messages no upgrade is pending while a run goes on; a run that leaves, leaves there with one pending. */
  predicate UpgradeSeen(r: Result)
  {
    && (r.ending.More? ==> UpgradeOk(r.at.f))
    && (r.ending.Left? ==> r.at.f.upgrade && BetweenMessages(r.at.f.state))
  }

  lemma {:induction false} RunUpgrade(s: Spot, data: seq<byte>)
    requires UpgradeOk(s.f)
    ensures UpgradeSeen(Run(s, data))
    decreases |data|, 9
  {
    hide Act, UpgradeOk;
    if |data| > 0 && !TooLong(s) {
      PassUpgrade(Counted(s), data);
    }
  }

  lemma {:induction false} PassUpgrade(s: Spot, data: seq<byte>)
    requires UpgradeOk(s.f) && |data| > 0
    ensures UpgradeSeen(Pass(s, data))
    decreases |data|, Rank(s.f.state)
  {
    hide Act, Rank, UpgradeOk;
    var o := Act(s.f, data[0]);
    ActUpgrade(s.f, data[0]);
    AgainFalls(s.f, data[0]);
    if o.flow.Again? {
      PassUpgrade(Landed(s, o), data);
    } else if o.flow.Next? {
      RunUpgrade(Landed(s, o), data[1..]);
    }
  }

  // ---------------------------------------------------------------------
  // Any cutting
  // ---------------------------------------------------------------------

  function Concat(pieces: seq<seq<byte>>): seq<byte>
  {
    if |pieces| == 0 then [] else pieces[0] + Concat(pieces[1..])
  }

  /** Two calls do what one call on both pieces does, or the first one does it all. */
  lemma TwoCalls(s: Spot, x: seq<byte>, y: seq<byte>, told: seq<Event>, n: nat)
    ensures var r := Run(s, x);
      if r.ending.More? then
        r.used == |x| && Join(told, n, Run(s, x + y)) == Join(told + r.told, n + |x|, Run(r.at, y))
      else
        Run(s, x + y) == r
  {
    hide Run;
    RunSplits(s, x, y);
    JoinJoin(told, n, Run(s, x).told, |x|, Run(Run(s, x).at, y));
  }

  /** A run that ends in an error ends before the byte that is the error. */
  lemma {:induction false} FailsWithin(s: Spot, data: seq<byte>)
    ensures Run(s, data).used <= |data|
    ensures Run(s, data).ending.Failed? ==> Run(s, data).used < |data|
    decreases |data|, 9
  {
    hide Act, BodyTag;
    if |data| > 0 && !TooLong(s) {
      PassFailsWithin(Counted(s), data);
    }
  }

  lemma {:induction false} PassFailsWithin(s: Spot, data: seq<byte>)
    requires |data| > 0
    ensures Pass(s, data).used <= |data|
    ensures Pass(s, data).ending.Failed? ==> Pass(s, data).used < |data|
    decreases |data|, Rank(s.f.state)
  {
    hide Act, Rank, Notes, Tag;
    var o := Act(s.f, data[0]);
    AgainFalls(s.f, data[0]);
    if o.flow.Again? {
      PassFailsWithin(Landed(s, o), data);
    } else if o.flow.Next? {
      FailsWithin(Landed(s, o), data[1..]);
    }
  }

  /** One call within a longer stream; `stop` is whether the caller stops after it. */
  method FeedPiece(parser: Parser, piece: seq<byte>, ghost rest: seq<byte>, ghost want: Result, ghost n: nat)
    returns (used: nat, stop: bool)
    requires parser.Valid() && parser.f.errno.Ok? && UpgradeOk(parser.f) && |piece| > 0 && Good(want)
    requires want == Join(Flat(parser.calls), n, Run(Spot(parser.f, parser.seen), piece + rest))
    modifies parser
    ensures used <= |piece|
    ensures !stop ==>
              && used == |piece| && parser.Valid() && parser.f.errno.Ok? && UpgradeOk(parser.f)
              && want == Join(Flat(parser.calls), n + |piece|, Run(Spot(parser.f, parser.seen), rest))
    ensures stop ==>
              && want.used == n + used && Spot(parser.f, parser.seen) == want.at
              && (if want.ending.Failed? then Flat(parser.calls) <= want.told
                  else want.ending.Left? && parser.Valid() && Flat(parser.calls) == want.told)
  {
    hide Run, Flat, UpgradeOk;
    ghost var told, at := Flat(parser.calls), Spot(parser.f, parser.seen);
    TwoCalls(at, piece, rest, told, n);
    RunErrors(at, piece);
    FailsWithin(at, piece);
    RunUpgrade(at, piece);
    used := parser.Execute(piece);
    stop := used < |piece| || (parser.f.upgrade && BetweenMessages(parser.f.state));
    PendingNotBetween(parser.f);
  }

  lemma PendingNotBetween(f: Fields)
    ensures UpgradeOk(f) ==> !(f.upgrade && BetweenMessages(f.state))
  {
  }

  /**
   A stream fed in pieces, by a caller that stops when a piece is not used up or the parser has left for another
   protocol: the fields, the notifications and the data of every callback are those of a single run over all
   bytes, wherever the cuts are. When that run meets an error, so does the last call, at the same byte and with
   the same fields.
   */
  method ExecuteAll(parser: Parser, pieces: seq<seq<byte>>) returns (used: nat)
    requires parser.Valid() && parser.f.errno.Ok? && UpgradeOk(parser.f)
    requires forall i :: 0 <= i < |pieces| ==> |pieces[i]| > 0
    requires Good(Run(Spot(parser.f, parser.seen), Concat(pieces)))
    modifies parser
    ensures var want := Run(Spot(old(parser.f), old(parser.seen)), Concat(pieces));
      && used == want.used && Spot(parser.f, parser.seen) == want.at
      && (if want.ending.Failed? then Flat(parser.calls) <= Flat(old(parser.calls)) + want.told
          else parser.Valid() && Flat(parser.calls) == Flat(old(parser.calls)) + want.told)
  {
    hide Run, Flat, UpgradeOk;
    ghost var want := Join(Flat(parser.calls), 0, Run(Spot(parser.f, parser.seen), Concat(pieces)));
    used := 0;
    var rest := pieces;
    while |rest| > 0
      invariant forall i :: 0 <= i < |rest| ==> |rest[i]| > 0
      invariant parser.Valid() && parser.f.errno.Ok? && UpgradeOk(parser.f)
      invariant want == Join(Flat(parser.calls), used, Run(Spot(parser.f, parser.seen), Concat(rest)))
      decreases |rest|
    {
      var k, stop := FeedPiece(parser, rest[0], Concat(rest[1..]), want, used);
      used := used + k;
      if stop {
        return;
      }
      rest := rest[1..];
    }
    RunNothing(Spot(parser.f, parser.seen), Flat(parser.calls), used);
  }

  lemma RunNothing(s: Spot, told: seq<Event>, n: nat)
    ensures Join(told, n, Run(s, [])) == Result(s, told, n, More)
  {
    assert told + [] == told;
  }

  // ---------------------------------------------------------------------
  // Numerals
  // ---------------------------------------------------------------------

  /** The value of more digits after a number. */
  function Numeral(base: nat, digits: seq<nat>, from: nat): nat
  {
    if |digits| == 0 then from else Numeral(base, digits[1..], from * base + digits[0])
  }

  /** The accumulation of the source: a 64-bit register, and the guard in front of every digit. */
  function Accumulate(base: nat, digits: seq<nat>, from: nat): Option<nat>
    requires base > 0
  {
    if |digits| == 0 then Some(from)
    else if (ULLONG_MAX - base) / base < from then None
    else Accumulate(base, digits[1..], ((from * base) % TWO64 + digits[0]) % TWO64)
  }

  lemma NoWrap(base: nat, from: nat, d: nat)
    requires (base == 10 || base == 16) && d < base && from <= (ULLONG_MAX - base) / base
    ensures ((from * base) % TWO64 + d) % TWO64 == from * base + d < ULLONG_MAX
  {
  }

  lemma AccumulateStep(base: nat, digits: seq<nat>, from: nat)
    requires (base == 10 || base == 16) && |digits| > 0 && digits[0] < base
    ensures from <= (ULLONG_MAX - base) / base ==>
        Accumulate(base, digits, from) == Accumulate(base, digits[1..], from * base + digits[0])
    ensures from > (ULLONG_MAX - base) / base ==> Accumulate(base, digits, from) == None
  {
    if from <= (ULLONG_MAX - base) / base {
      NoWrap(base, from, digits[0]);
    }
  }

  lemma {:induction false} NumeralGrows(base: nat, digits: seq<nat>, from: nat)
    requires base > 0
    ensures Numeral(base, digits, from) >= from
    decreases |digits|
  {
    if |digits| > 0 {
      assert from * base >= from;
      NumeralGrows(base, digits[1..], from * base + digits[0]);
    }
  }

  /**
   A numeral is accepted exactly when its value without the last digit passes the guard; the register
   then holds the numeral's value, which is not the sentinel for an unknown length.
   */
  lemma {:induction false} AccumulateExactly(base: nat, digits: seq<nat>, from: nat)
    requires (base == 10 || base == 16) && from < ULLONG_MAX && forall i :: 0 <= i < |digits| ==> digits[i] < base
    ensures Accumulate(base, digits, from).Some? <==>
              (|digits| > 0 ==> Numeral(base, digits[..|digits| - 1], from) <= (ULLONG_MAX - base) / base)
    ensures Accumulate(base, digits, from).Some? ==>
              Accumulate(base, digits, from).value == Numeral(base, digits, from) < ULLONG_MAX
    decreases |digits|
  {
    if |digits| > 0 {
      hide Accumulate;
      var init := digits[..|digits| - 1];
      NumeralGrows(base, init, from);
      AccumulateStep(base, digits, from);
      if from <= (ULLONG_MAX - base) / base {
        NoWrap(base, from, digits[0]);
        AccumulateExactly(base, digits[1..], from * base + digits[0]);
        if |digits| > 1 {
          assert init[0] == digits[0] && init[1..] == digits[1..][..|digits| - 2];
        }
      }
    }
  }
}
