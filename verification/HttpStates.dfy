/**
 The HTTP parser as an automaton over single bytes.

 `Act` is one pass through the switch, `Pass` what follows from there, re-executions included, and
 `Run` a stretch of bytes. The automaton hands data over byte by byte, so what it reports does not depend on how the
 bytes were cut into pieces. The parser as the source runs it, with marks, inner loops and bulk
 steps, is in HttpParser. Strict mode; callbacks leave the parser alone.
 */
module HttpStates {

  import opened Base

  const TWO64: nat := 0x1_0000_0000_0000_0000
  const ULLONG_MAX: nat := TWO64 - 1
  const HTTP_MAX_HEADER_SIZE: nat := 80 * 1024

  const CR: byte := 13
  const LF: byte := 10

  // ---------------------------------------------------------------------
  // Fields
  // ---------------------------------------------------------------------

  /** Before a message, and in the first line of a response. */
  datatype ResState =
    | Dead | StartReqOrRes | ResOrRespH | StartRes | ResH | ResHT | ResHTT | ResHTTP
    | ResFirstHttpMajor | ResHttpMajor | ResFirstHttpMinor | ResHttpMinor
    | ResFirstStatusCode | ResStatusCode | ResStatusStart | ResLineAlmostDone

  /** In the first line of a request. */
  datatype ReqState =
    | StartReq | ReqMethod | ReqSpacesBeforeUrl
    | ReqHttpStart | ReqHttpH | ReqHttpHT | ReqHttpHTT | ReqHttpHTTP
    | ReqFirstHttpMajor | ReqHttpMajor | ReqFirstHttpMinor | ReqHttpMinor | ReqLineAlmostDone

  datatype UrlState =
    | ReqSchema | ReqSchemaSlash | ReqSchemaSlashSlash | ReqServerStart | ReqServer | ReqServerWithAt
    | ReqPath | ReqQueryStringStart | ReqQueryString | ReqFragmentStart | ReqFragment

  datatype HeadState =
    | HeaderFieldStart
    | HeaderValueDiscardWs | HeaderValueDiscardWsAlmostDone | HeaderValueDiscardLws
    | HeaderValueStart | HeaderValueLws | HeaderAlmostDone
    | HeadersAlmostDone | HeadersDone

  datatype ChunkState =
    | ChunkSizeStart | ChunkSize | ChunkParameters | ChunkSizeAlmostDone | ChunkDataAlmostDone | ChunkDataDone

  /** enum state, with the states in which no data is collected grouped. */
  datatype State =
    | ResLine(res: ResState) | ResStatus
    | ReqLine(req: ReqState) | InUrl(url: UrlState)
    | Head(head: HeadState) | HeaderField | HeaderValue
    | Chunk(chunk: ChunkState) | ChunkData
    | BodyIdentity | BodyIdentityEof | MessageDone

  datatype HeaderState =
    | General | C | CO | CON
    | MatchingConnection | MatchingProxyConnection | MatchingContentLength | MatchingTransferEncoding | MatchingUpgrade
    | Connection | ContentLength | TransferEncoding | Upgrade
    | MatchingChunked | MatchingTokenStart | MatchingKeepAlive | MatchingClose | MatchingConnectionUpgrade
    | MatchingToken | Chunked | KeepAlive | Close | ConnectionUpgrade

  datatype Method =
    | DELETE | GET | HEAD | POST | PUT | CONNECT | OPTIONS | TRACE | COPY | LOCK | MKCOL | MOVE
    | PROPFIND | PROPPATCH | SEARCH | UNLOCK | BIND | REBIND | UNBIND | ACL | REPORT | MKACTIVITY
    | CHECKOUT | MERGE | MSEARCH | NOTIFY | SUBSCRIBE | UNSUBSCRIBE | PATCH | PURGE | MKCALENDAR | LINK | UNLINK

  datatype Type = Request | Response | Both

  datatype Errno =
    | Ok | InvalidEofState | HeaderOverflow | ClosedConnection | InvalidVersion | InvalidStatus | InvalidMethod
    | InvalidUrl | LfExpected | InvalidHeaderToken | InvalidContentLength | UnexpectedContentLength
    | InvalidChunkSize | InvalidConstant | Strict

  /** The bits of parser->flags. */
  datatype Flags = Flags(chunked: bool, keepAlive: bool, close: bool, connectionUpgrade: bool,
                         trailing: bool, upgrade: bool, skipBody: bool, contentLength: bool)

  const NO_FLAGS := Flags(false, false, false, false, false, false, false, false)

  /** What on_headers_complete answers: 0, 1 or 2. */
  datatype Reply = ReadBody | SkipBody | SkipBodyAndUpgrade

  datatype Fields = Fields(kind: Type, state: State, header: HeaderState, index: nat, flags: Flags, length: nat,
                           major: nat, minor: nat, status: nat, method_: Method, errno: Errno, upgrade: bool,
                           lenient: bool, reply: Reply)

  datatype Notice = MessageBegin | HeadersComplete | MessageComplete | ChunkHeader | ChunkComplete

  /** Next: on to the next byte. Again: this byte once more. Leave: return after this byte. Fail: an error. */
  datatype Flow = Next | Again | Leave | Fail

  /** What one pass through the switch did; `reset` when it set the header size count to 0. */
  datatype Outcome = Outcome(f: Fields, notes: seq<Notice>, flow: Flow, reset: bool)

  // ---------------------------------------------------------------------
  // Characters
  // ---------------------------------------------------------------------

  predicate Is(ch: byte, c: char)
  {
    ch == c as int
  }

  /** c | 0x20 */
  function Lower(c: byte): byte
  {
    if (c / 32) % 2 == 0 then c + 32 else c
  }

  predicate IsAlpha(c: byte)
  {
    'a' as int <= Lower(c) <= 'z' as int
  }

  predicate IsNum(c: byte)
  {
    '0' as int <= c <= '9' as int
  }

  function Digit(c: byte): nat
    requires IsNum(c)
  {
    c - '0' as int
  }

  /** The character of a token in lower case, and 0 for every other character. */
  function Token(c: byte): byte
  {
    if 'A' as int <= c <= 'Z' as int then c + 32
    else if IsNum(c) || 'a' as int <= c <= 'z' as int || c == '!' as int || '#' as int <= c <= '\'' as int
            || c == '*' as int || c == '+' as int || c == '-' as int || c == '.' as int
            || '^' as int <= c <= '`' as int || c == '|' as int || c == '~' as int then c
    else 0
  }

  predicate IsUrlChar(c: byte)
  {
    33 <= c <= 126 && !Is(c, '#') && !Is(c, '?')
  }

  predicate IsMark(c: byte)
  {
    Is(c, '-') || Is(c, '_') || Is(c, '.') || Is(c, '!') || Is(c, '~') || Is(c, '*') || Is(c, '\'')
        || Is(c, '(') || Is(c, ')')
  }

  predicate IsUserinfoChar(c: byte)
  {
    IsAlpha(c) || IsNum(c) || IsMark(c) || Is(c, '%') || Is(c, ';') || Is(c, ':') || Is(c, '&') || Is(c, '=')
    || Is(c, '+') || Is(c, '$') || Is(c, ',')
  }

  predicate IsHeaderChar(c: byte)
  {
    c == CR || c == LF || c == 9 || (c > 31 && c != 127)
  }

  /** The value of a hexadecimal digit, or -1. */
  function Unhex(c: byte): int
  {
    if IsNum(c) then c - '0' as int
    else if 'A' as int <= c <= 'F' as int then c - 'A' as int + 10
    else if 'a' as int <= c <= 'f' as int then c - 'a' as int + 10
    else -1
  }

  /** The character of a C string at an index: its terminator at the end. */
  function CharAt(s: string, i: nat): int
  {
    if i < |s| then s[i] as int else 0
  }

  // ---------------------------------------------------------------------
  // Ends of messages
  // ---------------------------------------------------------------------

  /** http_message_needs_eof */
  predicate NeedsEof(f: Fields)
  {
    !f.kind.Request?
    && !(f.status / 100 == 1 || f.status == 204 || f.status == 304 || f.flags.skipBody)
    && !(f.flags.chunked || f.length != ULLONG_MAX)
  }

  /** http_should_keep_alive */
  predicate ShouldKeepAlive(f: Fields)
  {
    (if f.major > 0 && f.minor > 0 then !f.flags.close else f.flags.keepAlive) && !NeedsEof(f)
  }

  /** NEW_MESSAGE */
  function NewMessage(f: Fields): State
  {
    if ShouldKeepAlive(f) then (if f.kind.Request? then ReqLine(StartReq) else ResLine(StartRes)) else ResLine(Dead)
  }

  // ---------------------------------------------------------------------
  // Outcomes
  // ---------------------------------------------------------------------

  function Go(f: Fields): Outcome
  {
    Outcome(f, [], Next, false)
  }

  function Move(f: Fields, s: State): Outcome
  {
    Outcome(f.(state := s), [], Next, false)
  }

  function Redo(f: Fields, s: State): Outcome
  {
    Outcome(f.(state := s), [], Again, false)
  }

  function Bad(f: Fields, e: Errno): Outcome
  {
    Outcome(f.(errno := e), [], Fail, false)
  }

  /** STRICT_CHECK, then a plain move. */
  function Want(f: Fields, met: bool, s: State): Outcome
  {
    if met then Move(f, s) else Bad(f, Strict)
  }

  // ---------------------------------------------------------------------
  // The start of a response
  // ---------------------------------------------------------------------

  function Fresh(f: Fields): Fields
  {
    f.(flags := NO_FLAGS, length := ULLONG_MAX)
  }

  function ActResLine(f: Fields, ch: byte): Outcome
    requires f.state.ResLine?
  {
    match f.state.res
    case Dead => if ch == CR || ch == LF then Go(f) else Bad(f, ClosedConnection)
    case StartReqOrRes =>
      if ch == CR || ch == LF then Go(f)
      else if Is(ch, 'H') then Outcome(Fresh(f).(state := ResLine(ResOrRespH)), [MessageBegin], Next, false)
      else Redo(Fresh(f).(kind := Request), ReqLine(StartReq))
    case ResOrRespH =>
      if Is(ch, 'T') then Move(f.(kind := Response), ResLine(ResHT))
      else if !Is(ch, 'E') then Bad(f, InvalidConstant)
      else Move(f.(kind := Request, method_ := HEAD, index := 2), ReqLine(ReqMethod))
    case StartRes =>
      if Is(ch, 'H') then Outcome(Fresh(f).(state := ResLine(ResH)), [MessageBegin], Next, false)
      else if ch == CR || ch == LF then Outcome(Fresh(f), [MessageBegin], Next, false)
      else Bad(Fresh(f), InvalidConstant)
    case ResH => Want(f, Is(ch, 'T'), ResLine(ResHT))
    case ResHT => Want(f, Is(ch, 'T'), ResLine(ResHTT))
    case ResHTT => Want(f, Is(ch, 'P'), ResLine(ResHTTP))
    case ResHTTP => Want(f, Is(ch, '/'), ResLine(ResFirstHttpMajor))
    case ResFirstHttpMajor =>
      if !IsNum(ch) then Bad(f, InvalidVersion) else Move(f.(major := Digit(ch)), ResLine(ResHttpMajor))
    case ResHttpMajor =>
      if Is(ch, '.') then Move(f, ResLine(ResFirstHttpMinor))
      else if !IsNum(ch) then Bad(f, InvalidVersion)
      else
        var g := f.(major := f.major * 10 + Digit(ch));
        if g.major > 999 then Bad(g, InvalidVersion) else Go(g)
    case ResFirstHttpMinor =>
      if !IsNum(ch) then Bad(f, InvalidVersion) else Move(f.(minor := Digit(ch)), ResLine(ResHttpMinor))
    case ResHttpMinor =>
      if Is(ch, ' ') then Move(f, ResLine(ResFirstStatusCode))
      else if !IsNum(ch) then Bad(f, InvalidVersion)
      else
        var g := f.(minor := f.minor * 10 + Digit(ch));
        if g.minor > 999 then Bad(g, InvalidVersion) else Go(g)
    case ResFirstStatusCode =>
      if IsNum(ch) then Move(f.(status := Digit(ch)), ResLine(ResStatusCode))
      else if Is(ch, ' ') then Go(f)
      else Bad(f, InvalidStatus)
    case ResStatusCode =>
      if IsNum(ch) then
        var g := f.(status := f.status * 10 + Digit(ch));
        if g.status > 999 then Bad(g, InvalidStatus) else Go(g)
      else if Is(ch, ' ') then Move(f, ResLine(ResStatusStart))
      else if ch == CR then Move(f, ResLine(ResLineAlmostDone))
      else if ch == LF then Move(f, Head(HeaderFieldStart))
      else Bad(f, InvalidStatus)
    case ResStatusStart =>
      if ch == CR then Move(f, ResLine(ResLineAlmostDone))
      else if ch == LF then Move(f, Head(HeaderFieldStart))
      else Move(f.(index := 0), ResStatus)
    case ResLineAlmostDone => Want(f, ch == LF, Head(HeaderFieldStart))
  }

  /** The states up to the slash behind HTTP. */
  predicate InPreface(r: ResState)
  {
    r.Dead? || r.StartReqOrRes? || r.ResOrRespH? || r.StartRes? || r.ResH? || r.ResHT? || r.ResHTT? || r.ResHTTP?
  }

  function ActStatus(f: Fields, ch: byte): Outcome
  {
    if ch == CR then Move(f, ResLine(ResLineAlmostDone)) else if ch == LF then Move(f, Head(HeaderFieldStart))
        else Go(f)
  }

  // ---------------------------------------------------------------------
  // The start of a request
  // ---------------------------------------------------------------------

  function MethodString(m: Method): string
  {
    match m
    case DELETE => "DELETE"
    case GET => "GET"
    case HEAD => "HEAD"
    case POST => "POST"
    case PUT => "PUT"
    case CONNECT => "CONNECT"
    case OPTIONS => "OPTIONS"
    case TRACE => "TRACE"
    case COPY => "COPY"
    case LOCK => "LOCK"
    case MKCOL => "MKCOL"
    case MOVE => "MOVE"
    case PROPFIND => "PROPFIND"
    case PROPPATCH => "PROPPATCH"
    case SEARCH => "SEARCH"
    case UNLOCK => "UNLOCK"
    case BIND => "BIND"
    case REBIND => "REBIND"
    case UNBIND => "UNBIND"
    case ACL => "ACL"
    case REPORT => "REPORT"
    case MKACTIVITY => "MKACTIVITY"
    case CHECKOUT => "CHECKOUT"
    case MERGE => "MERGE"
    case MSEARCH => "M-SEARCH"
    case NOTIFY => "NOTIFY"
    case SUBSCRIBE => "SUBSCRIBE"
    case UNSUBSCRIBE => "UNSUBSCRIBE"
    case PATCH => "PATCH"
    case PURGE => "PURGE"
    case MKCALENDAR => "MKCALENDAR"
    case LINK => "LINK"
    case UNLINK => "UNLINK"
  }

  /** The first guess from the first letter. */
  function FirstMethod(ch: byte): Option<Method>
  {
    if Is(ch, 'A') then Some(ACL)
    else if Is(ch, 'B') then Some(BIND)
    else if Is(ch, 'C') then Some(CONNECT)
    else if Is(ch, 'D') then Some(DELETE)
    else if Is(ch, 'G') then Some(GET)
    else if Is(ch, 'H') then Some(HEAD)
    else if Is(ch, 'L') then Some(LOCK)
    else if Is(ch, 'M') then Some(MKCOL)
    else if Is(ch, 'N') then Some(NOTIFY)
    else if Is(ch, 'O') then Some(OPTIONS)
    else if Is(ch, 'P') then Some(POST)
    else if Is(ch, 'R') then Some(REPORT)
    else if Is(ch, 'S') then Some(SUBSCRIBE)
    else if Is(ch, 'T') then Some(TRACE)
    else if Is(ch, 'U') then Some(UNLOCK)
    else None
  }

  /** A later letter that corrects the guess. */
  function SwitchMethod(m: Method, i: nat, ch: byte): Option<Method>
  {
    if m.POST? && i == 1 && Is(ch, 'U') then Some(PUT)
    else if m.POST? && i == 1 && Is(ch, 'A') then Some(PATCH)
    else if m.CONNECT? && i == 1 && Is(ch, 'H') then Some(CHECKOUT)
    else if m.CONNECT? && i == 2 && Is(ch, 'P') then Some(COPY)
    else if m.MKCOL? && i == 1 && Is(ch, 'O') then Some(MOVE)
    else if m.MKCOL? && i == 1 && Is(ch, 'E') then Some(MERGE)
    else if m.MKCOL? && i == 2 && Is(ch, 'A') then Some(MKACTIVITY)
    else if m.MKCOL? && i == 3 && Is(ch, 'A') then Some(MKCALENDAR)
    else if m.SUBSCRIBE? && i == 1 && Is(ch, 'E') then Some(SEARCH)
    else if m.REPORT? && i == 2 && Is(ch, 'B') then Some(REBIND)
    else if m.POST? && i == 1 && Is(ch, 'R') then Some(PROPFIND)
    else if m.PROPFIND? && i == 4 && Is(ch, 'P') then Some(PROPPATCH)
    else if m.PUT? && i == 2 && Is(ch, 'R') then Some(PURGE)
    else if m.LOCK? && i == 1 && Is(ch, 'I') then Some(LINK)
    else if m.UNLOCK? && i == 2 && Is(ch, 'S') then Some(UNSUBSCRIBE)
    else if m.UNLOCK? && i == 2 && Is(ch, 'B') then Some(UNBIND)
    else if m.UNLOCK? && i == 3 && Is(ch, 'I') then Some(UNLINK)
    else None
  }

  function ActMethod(f: Fields, ch: byte): Outcome
  {
    var next := f.(index := f.index + 1);
    if ch == 0 then Bad(f, InvalidMethod)
    else if Is(ch, ' ') && CharAt(MethodString(f.method_), f.index) == 0 then Move(next, ReqLine(ReqSpacesBeforeUrl))
    else if ch == CharAt(MethodString(f.method_), f.index) then Go(next)
    else if IsAlpha(ch) then
      (match SwitchMethod(f.method_, f.index, ch)
       case None => Bad(f, InvalidMethod)
       case Some(m) => Go(next.(method_ := m)))
    else if Is(ch, '-') && f.index == 1 && f.method_.MKCOL? then Go(next.(method_ := MSEARCH))
    else Bad(f, InvalidMethod)
  }

  /** parse_url_char, from None before the URL; None for a character that may not come here. */
  function ParseUrlChar(s: Option<UrlState>, ch: byte): Option<UrlState>
  {
    if Is(ch, ' ') || ch == CR || ch == LF || ch == 9 || ch == 12 then None
    else if s.None? then
      if Is(ch, '/') || Is(ch, '*') then Some(ReqPath) else if IsAlpha(ch) then Some(ReqSchema) else None
    else
      match s.value
      case ReqSchema => if IsAlpha(ch) then s else if Is(ch, ':') then Some(ReqSchemaSlash) else None
      case ReqSchemaSlash => if Is(ch, '/') then Some(ReqSchemaSlashSlash) else None
      case ReqSchemaSlashSlash => if Is(ch, '/') then Some(ReqServerStart) else None
      case ReqServerWithAt => if Is(ch, '@') then None else UrlServerChar(ch)
      case ReqServerStart => UrlServerChar(ch)
      case ReqServer => UrlServerChar(ch)
      case ReqPath =>
        if IsUrlChar(ch) then s
        else if Is(ch, '?') then Some(ReqQueryStringStart)
        else if Is(ch, '#') then Some(ReqFragmentStart) else None
      case ReqQueryStringStart => UrlQueryChar(ch)
      case ReqQueryString => UrlQueryChar(ch)
      case ReqFragmentStart => if IsUrlChar(ch) || Is(ch, '?') then Some(ReqFragment) else if Is(ch, '#') then s
          else None
      case ReqFragment => if IsUrlChar(ch) || Is(ch, '?') || Is(ch, '#') then s else None
  }

  function UrlServerChar(ch: byte): Option<UrlState>
  {
    if Is(ch, '/') then Some(ReqPath)
    else if Is(ch, '?') then Some(ReqQueryStringStart)
    else if Is(ch, '@') then Some(ReqServerWithAt)
    else if IsUserinfoChar(ch) || Is(ch, '[') || Is(ch, ']') then Some(ReqServer)
    else None
  }

  function UrlQueryChar(ch: byte): Option<UrlState>
  {
    if IsUrlChar(ch) || Is(ch, '?') then Some(ReqQueryString) else if Is(ch, '#') then Some(ReqFragmentStart) else None
  }

  function UrlStep(f: Fields, s: Option<UrlState>, ch: byte): Outcome
  {
    match ParseUrlChar(s, ch)
    case None => Bad(f.(state := ResLine(Dead)), InvalidUrl)
    case Some(u) => Move(f, InUrl(u))
  }

  function ActReqLine(f: Fields, ch: byte): Outcome
    requires f.state.ReqLine?
  {
    match f.state.req
    case StartReq =>
      if ch == CR || ch == LF then Go(f)
      else if !IsAlpha(ch) then Bad(Fresh(f), InvalidMethod)
      else
        (match FirstMethod(ch)
         case None => Bad(Fresh(f).(method_ := DELETE, index := 1), InvalidMethod)
         case Some(m) => Outcome(Fresh(f).(method_ := m, index := 1, state := ReqLine(ReqMethod)), [MessageBegin], Next,
             false))
    case ReqMethod => ActMethod(f, ch)
    case ReqSpacesBeforeUrl =>
      if Is(ch, ' ') then Go(f) else UrlStep(f, if f.method_.CONNECT? then Some(ReqServerStart) else None, ch)
    case ReqHttpStart =>
      if Is(ch, 'H') then Move(f, ReqLine(ReqHttpH)) else if Is(ch, ' ') then Go(f) else Bad(f, InvalidConstant)
    case ReqHttpH => Want(f, Is(ch, 'T'), ReqLine(ReqHttpHT))
    case ReqHttpHT => Want(f, Is(ch, 'T'), ReqLine(ReqHttpHTT))
    case ReqHttpHTT => Want(f, Is(ch, 'P'), ReqLine(ReqHttpHTTP))
    case ReqHttpHTTP => Want(f, Is(ch, '/'), ReqLine(ReqFirstHttpMajor))
    case ReqFirstHttpMajor =>
      if !IsNum(ch) || Is(ch, '0') then Bad(f, InvalidVersion) else Move(f.(major := Digit(ch)), ReqLine(ReqHttpMajor))
    case ReqHttpMajor =>
      if Is(ch, '.') then Move(f, ReqLine(ReqFirstHttpMinor))
      else if !IsNum(ch) then Bad(f, InvalidVersion)
      else
        var g := f.(major := f.major * 10 + Digit(ch));
        if g.major > 999 then Bad(g, InvalidVersion) else Go(g)
    case ReqFirstHttpMinor =>
      if !IsNum(ch) then Bad(f, InvalidVersion) else Move(f.(minor := Digit(ch)), ReqLine(ReqHttpMinor))
    case ReqHttpMinor =>
      if ch == CR then Move(f, ReqLine(ReqLineAlmostDone))
      else if ch == LF then Move(f, Head(HeaderFieldStart))
      else if !IsNum(ch) then Bad(f, InvalidVersion)
      else
        var g := f.(minor := f.minor * 10 + Digit(ch));
        if g.minor > 999 then Bad(g, InvalidVersion) else Go(g)
    case ReqLineAlmostDone => if ch == LF then Move(f, Head(HeaderFieldStart)) else Bad(f, LfExpected)
  }

  /** The states from the blank behind the URL on. */
  predicate InReqVersion(r: ReqState)
  {
    !r.StartReq? && !r.ReqMethod? && !r.ReqSpacesBeforeUrl?
  }

  function ActUrl(f: Fields, ch: byte): Outcome
    requires f.state.InUrl?
  {
    var u := f.state.url;
    if u.ReqSchema? || u.ReqSchemaSlash? || u.ReqSchemaSlashSlash? || u.ReqServerStart? then
      if Is(ch, ' ') || ch == CR || ch == LF then Bad(f, InvalidUrl) else UrlStep(f, Some(u), ch)
    else if Is(ch, ' ') then Move(f, ReqLine(ReqHttpStart))
    else if ch == CR then Move(f.(major := 0, minor := 9), ReqLine(ReqLineAlmostDone))
    else if ch == LF then Move(f.(major := 0, minor := 9), Head(HeaderFieldStart))
    else UrlStep(f, Some(u), ch)
  }

  // ---------------------------------------------------------------------
  // Header fields
  // ---------------------------------------------------------------------

  function FirstOfName(c: byte): HeaderState
  {
    if Is(c, 'c') then C
    else if Is(c, 'p') then MatchingProxyConnection
    else if Is(c, 't') then MatchingTransferEncoding
    else if Is(c, 'u') then MatchingUpgrade
    else General
  }

  /** One more character of a word being matched: the state after it. */
  function MatchWord(word: string, i: nat, c: byte, matching: HeaderState, matched: HeaderState,
          failed: HeaderState): HeaderState
    requires |word| > 0
  {
    if i > |word| || c != CharAt(word, i) then failed else if i == |word| - 1 then matched else matching
  }

  /** The matcher of names: the header state and the index after the lower-cased character c of a token. */
  function MatchName(h: HeaderState, index: nat, c: byte): (HeaderState, nat)
  {
    var i := index + 1;
    match h
    case C => (if Is(c, 'o') then CO else General, i)
    case CO => (if Is(c, 'n') then CON else General, i)
    case CON => (if Is(c, 'n') then MatchingConnection else if Is(c, 't') then MatchingContentLength else General, i)
    case MatchingConnection => (MatchWord("connection", i, c, h, Connection, General), i)
    case MatchingProxyConnection => (MatchWord("proxy-connection", i, c, h, Connection, General), i)
    case MatchingContentLength => (MatchWord("content-length", i, c, h, ContentLength, General), i)
    case MatchingTransferEncoding => (MatchWord("transfer-encoding", i, c, h, TransferEncoding, General), i)
    case MatchingUpgrade => (MatchWord("upgrade", i, c, h, Upgrade, General), i)
    case _ => (General, index)
  }

  function ActFieldStart(f: Fields, ch: byte): Outcome
  {
    if ch == CR then Move(f, Head(HeadersAlmostDone))
    else if ch == LF then Redo(f, Head(HeadersAlmostDone))
    else if Token(ch) == 0 then Bad(f, InvalidHeaderToken)
    else Move(f.(index := 0, header := FirstOfName(Token(ch))), HeaderField)
  }

  function ActField(f: Fields, ch: byte): Outcome
  {
    if Token(ch) != 0 then
      var (h, i) := MatchName(f.header, f.index, Token(ch));
      Go(f.(header := h, index := i))
    else if Is(ch, ':') then Move(f, Head(HeaderValueDiscardWs))
    else Bad(f, InvalidHeaderToken)
  }

  /** The first character of a header's value. */
  function ActValueStart(f: Fields, ch: byte): Outcome
  {
    var g := f.(state := HeaderValue, index := 0);
    match f.header
    case Upgrade => Go(g.(flags := g.flags.(upgrade := true), header := General))
    case TransferEncoding => Go(g.(header := if Is(Lower(ch), 'c') then MatchingChunked else General))
    case ContentLength =>
      if !IsNum(ch) then Bad(g, InvalidContentLength)
      else if f.flags.contentLength then Bad(g, UnexpectedContentLength)
      else Go(g.(flags := g.flags.(contentLength := true), length := Digit(ch)))
    case Connection => Go(g.(header := FirstOfConnection(ch, MatchingToken)))
    case MatchingTokenStart => Go(g)
    case _ => Go(g.(header := General))
  }

  function FirstOfConnection(ch: byte, other: HeaderState): HeaderState
  {
    if Is(Lower(ch), 'k') then MatchingKeepAlive
    else if Is(Lower(ch), 'c') then MatchingClose
    else if Is(Lower(ch), 'u') then MatchingConnectionUpgrade
    else other
  }

  /** A digit of Content-Length: 64-bit arithmetic, with the guard that keeps it from wrapping. */
  function ActLengthDigit(f: Fields, ch: byte): Outcome
  {
    if Is(ch, ' ') then Go(f)
    else if !IsNum(ch) then Bad(f, InvalidContentLength)
    else if (ULLONG_MAX - 10) / 10 < f.length then Bad(f, InvalidContentLength)
    else Go(f.(length := ((f.length * 10) % TWO64 + Digit(ch)) % TWO64))
  }

  /** Any further character of a header's value. */
  function ActInValue(f: Fields, ch: byte): Outcome
  {
    var c := Lower(ch);
    var i := f.index + 1;
    match f.header
    case General => Go(f)
    case ContentLength => ActLengthDigit(f, ch)
    case MatchingChunked => Go(f.(index := i, header := MatchWord("chunked", i, c, f.header, Chunked, General)))
    case MatchingTokenStart =>
      Go(f.(header := FirstOfConnection(ch, if Token(c) != 0 then MatchingToken
                                            else if Is(c, ' ') || c == 9 then f.header else General)))
    case MatchingKeepAlive => Go(f.(index := i, header := MatchWord("keep-alive", i, c, f.header, KeepAlive,
        MatchingToken)))
    case MatchingClose => Go(f.(index := i, header := MatchWord("close", i, c, f.header, Close, MatchingToken)))
    case MatchingConnectionUpgrade =>
      Go(f.(index := i, header := MatchWord("upgrade", i, c, f.header, ConnectionUpgrade, MatchingToken)))
    case MatchingToken => if Is(ch, ',') then Go(f.(header := MatchingTokenStart, index := 0)) else Go(f)
    case Chunked => if Is(ch, ' ') then Go(f) else Go(f.(header := General))
    case KeepAlive => ActAfterToken(f, ch)
    case Close => ActAfterToken(f, ch)
    case ConnectionUpgrade => ActAfterToken(f, ch)
    case _ => Go(f.(header := General))
  }

  function ActAfterToken(f: Fields, ch: byte): Outcome
  {
    if Is(ch, ',') then Go(Flagged(f).(header := MatchingTokenStart, index := 0))
    else if Is(ch, ' ') then Go(f)
    else Go(f.(header := MatchingToken))
  }

  /** The flag a completely matched value stands for. */
  function Flagged(f: Fields): Fields
  {
    match f.header
    case KeepAlive => f.(flags := f.flags.(keepAlive := true))
    case Close => f.(flags := f.flags.(close := true))
    case Chunked => f.(flags := f.flags.(chunked := true))
    case ConnectionUpgrade => f.(flags := f.flags.(connectionUpgrade := true))
    case _ => f
  }

  predicate Legal(f: Fields, ch: byte)
  {
    f.lenient || IsHeaderChar(ch)
  }

  function ActValue(f: Fields, ch: byte): Outcome
  {
    if ch == CR then Move(f, Head(HeaderAlmostDone))
    else if ch == LF then Redo(f, Head(HeaderAlmostDone))
    else if !Legal(f, ch) then Bad(f, InvalidHeaderToken)
    else ActInValue(f, ch)
  }

  function ActHeadersAlmostDone(f: Fields, ch: byte): Outcome
  {
    if ch != LF then Bad(f, Strict)
    else if f.flags.trailing then Outcome(f.(state := MessageDone), [ChunkComplete], Again, false)
    else if f.flags.chunked && f.flags.contentLength then Bad(f, UnexpectedContentLength)
    else
      var up := (f.flags.upgrade && f.flags.connectionUpgrade) || f.method_.CONNECT?;
      Outcome(f.(state := Head(HeadersDone),
                 upgrade := up || f.reply.SkipBodyAndUpgrade?,
                 flags := f.flags.(skipBody := f.flags.skipBody || !f.reply.ReadBody?)),
              [HeadersComplete], Again, false)
  }

  predicate HasBody(f: Fields)
  {
    f.flags.chunked || (f.length > 0 && f.length != ULLONG_MAX)
  }

  function Ended(f: Fields, flow: Flow, reset: bool): Outcome
  {
    Outcome(f.(state := NewMessage(f)), [MessageComplete], flow, reset)
  }

  function ActHeadersDone(f: Fields, ch: byte): Outcome
  {
    if ch != LF then Bad(f, Strict)
    else if f.upgrade && (f.method_.CONNECT? || f.flags.skipBody || !HasBody(f)) then Ended(f, Leave, true)
    else if f.flags.skipBody then Ended(f, Next, true)
    else if f.flags.chunked then Outcome(f.(state := Chunk(ChunkSizeStart)), [], Next, true)
    else if f.length == 0 then Ended(f, Next, true)
    else if f.length != ULLONG_MAX then Outcome(f.(state := BodyIdentity), [], Next, true)
    else if !NeedsEof(f) then Ended(f, Next, true)
    else Outcome(f.(state := BodyIdentityEof), [], Next, true)
  }

  function ActHead(f: Fields, ch: byte): Outcome
    requires f.state.Head?
  {
    match f.state.head
    case HeaderFieldStart => ActFieldStart(f, ch)
    case HeaderValueDiscardWs =>
      if Is(ch, ' ') || ch == 9 then Go(f)
      else if ch == CR then Move(f, Head(HeaderValueDiscardWsAlmostDone))
      else if ch == LF then Move(f, Head(HeaderValueDiscardLws))
      else ActValueStart(f, ch)
    case HeaderValueStart => ActValueStart(f, ch)
    case HeaderAlmostDone => if ch == LF then Move(f, Head(HeaderValueLws)) else Bad(f, LfExpected)
    case HeaderValueLws =>
      if Is(ch, ' ') || ch == 9 then Redo(f, Head(HeaderValueStart)) else Redo(Flagged(f), Head(HeaderFieldStart))
    case HeaderValueDiscardWsAlmostDone => Want(f, ch == LF, Head(HeaderValueDiscardLws))
    case HeaderValueDiscardLws =>
      if Is(ch, ' ') || ch == 9 then Move(f, Head(HeaderValueDiscardWs)) else Redo(Flagged(f), Head(HeaderFieldStart))
    case HeadersAlmostDone => ActHeadersAlmostDone(f, ch)
    case HeadersDone => ActHeadersDone(f, ch)
  }

  // ---------------------------------------------------------------------
  // Bodies
  // ---------------------------------------------------------------------

  /** A digit of a chunk size: 64-bit arithmetic, with the guard that keeps it from wrapping. */
  function ActSizeDigit(f: Fields, ch: byte): Outcome
    requires Unhex(ch) >= 0
  {
    if (ULLONG_MAX - 16) / 16 < f.length then Bad(f, InvalidContentLength)
    else Go(f.(length := ((f.length * 16) % TWO64 + Unhex(ch)) % TWO64))
  }

  /** One byte of a body of known length: s is the state after the last one. */
  function ActBodyByte(f: Fields, s: State, flow: Flow): Outcome
  {
    if f.length <= 1 then Outcome(f.(length := 0, state := s), [], flow, false) else Go(f.(length := f.length - 1))
  }

  function ActChunk(f: Fields, ch: byte): Outcome
    requires f.state.Chunk?
  {
    match f.state.chunk
    case ChunkSizeStart =>
      if Unhex(ch) == -1 then Bad(f, InvalidChunkSize) else Move(f.(length := Unhex(ch)), Chunk(ChunkSize))
    case ChunkSize =>
      if ch == CR then Move(f, Chunk(ChunkSizeAlmostDone))
      else if Unhex(ch) != -1 then ActSizeDigit(f, ch)
      else if Is(ch, ';') || Is(ch, ' ') then Move(f, Chunk(ChunkParameters))
      else Bad(f, InvalidChunkSize)
    case ChunkParameters => if ch == CR then Move(f, Chunk(ChunkSizeAlmostDone)) else Go(f)
    case ChunkSizeAlmostDone =>
      if ch != LF then Bad(f, Strict)
      else if f.length == 0 then
        Outcome(f.(flags := f.flags.(trailing := true), state := Head(HeaderFieldStart)), [ChunkHeader], Next, true)
      else Outcome(f.(state := ChunkData), [ChunkHeader], Next, true)
    case ChunkDataAlmostDone => Want(f, ch == CR, Chunk(ChunkDataDone))
    case ChunkDataDone =>
      if ch != LF then Bad(f, Strict) else Outcome(f.(state := Chunk(ChunkSizeStart)), [ChunkComplete], Next, true)
  }

  // ---------------------------------------------------------------------
  // One byte
  // ---------------------------------------------------------------------

  /** One pass through the switch. */
  function Act(f: Fields, ch: byte): Outcome
  {
    match f.state
    case ResLine(_) => ActResLine(f, ch)
    case ResStatus => ActStatus(f, ch)
    case ReqLine(_) => ActReqLine(f, ch)
    case InUrl(_) => ActUrl(f, ch)
    case Head(_) => ActHead(f, ch)
    case HeaderField => ActField(f, ch)
    case HeaderValue => ActValue(f, ch)
    case Chunk(_) => ActChunk(f, ch)
    case ChunkData => ActBodyByte(f, Chunk(ChunkDataAlmostDone), Next)
    case BodyIdentity => ActBodyByte(f, MessageDone, Again)
    case BodyIdentityEof => Go(f)
    case MessageDone => Ended(f, if f.upgrade then Leave else Next, false)
  }

  /** How often a byte can still be executed again. */
  function Rank(s: State): nat
  {
    match s
    case ResLine(r) => if r.StartReqOrRes? then 1 else 0
    case Head(h) =>
      if h.HeaderValueLws? || h.HeaderValueDiscardLws? then 3
      else if h.HeaderFieldStart? then 2
      else if h.HeadersAlmostDone? then 1
      else 0
    case HeaderValue => 1
    case BodyIdentity => 1
    case _ => 0
  }

  lemma FieldStartFalls(f: Fields, ch: byte)
    ensures ActFieldStart(f, ch).flow.Again? ==> ActFieldStart(f, ch).f.state == Head(HeadersAlmostDone)
  {
    hide Token, FirstOfName;
  }

  lemma HeadersAlmostDoneFalls(f: Fields, ch: byte)
    ensures var o := ActHeadersAlmostDone(f, ch);
      o.flow.Again? ==> o.f.state.MessageDone? || o.f.state == Head(HeadersDone)
  {
  }

  lemma LineEndFalls(f: Fields, ch: byte)
    requires f.state.Head? && (f.state.head.HeaderValueLws? || f.state.head.HeaderValueDiscardLws?)
    ensures ActHead(f, ch).flow.Again? ==> Rank(ActHead(f, ch).f.state) < Rank(f.state)
  {
    hide ActFieldStart, ActHeadersAlmostDone, Flagged, ActValueStart, ActHeadersDone, Is;
    FlaggedKeeps(f);
  }

  lemma BlankFalls(f: Fields, ch: byte)
    requires f.state.Head?
    requires var h := f.state.head;
      h.HeaderValueDiscardWs? || h.HeaderValueStart? || h.HeaderAlmostDone? || h.HeaderValueDiscardWsAlmostDone?
    ensures !ActHead(f, ch).flow.Again?
  {
    hide ActFieldStart, ActHeadersAlmostDone, Flagged, ActValueStart, ActHeadersDone, Is;
    NoAgain(f, ch);
  }

  lemma HeadFalls(f: Fields, ch: byte)
    requires f.state.Head?
    ensures ActHead(f, ch).flow.Again? ==> Rank(ActHead(f, ch).f.state) < Rank(f.state)
  {
    hide ActFieldStart, ActHeadersAlmostDone, Flagged, ActValueStart, ActHeadersDone, Is;
    match f.state.head
    case HeaderFieldStart => FieldStartFalls(f, ch);
    case HeadersAlmostDone => HeadersAlmostDoneFalls(f, ch);
    case HeadersDone => NoAgain(f, ch);
    case HeaderValueLws => LineEndFalls(f, ch);
    case HeaderValueDiscardLws => LineEndFalls(f, ch);
    case _ => BlankFalls(f, ch);
  }

  lemma ResLineFalls(f: Fields, ch: byte)
    requires f.state.ResLine?
    ensures ActResLine(f, ch).flow.Again? ==> Rank(ActResLine(f, ch).f.state) < Rank(f.state)
  {
    hide Is, IsNum, Digit, Fresh;
  }

  lemma ReqLineFalls(f: Fields, ch: byte)
    ensures f.state.ReqLine? ==> !ActReqLine(f, ch).flow.Again?
    ensures f.state.InUrl? ==> !ActUrl(f, ch).flow.Again?
  {
    hide Is, IsNum, Digit, Fresh, ParseUrlChar, SwitchMethod, FirstMethod, MethodString, CharAt, IsAlpha;
  }

  lemma ChunkFalls(f: Fields, ch: byte)
    requires f.state.Chunk?
    ensures !ActChunk(f, ch).flow.Again?
  {
    hide Is, Unhex;
  }

  lemma AgainFalls(f: Fields, ch: byte)
    ensures Act(f, ch).flow.Again? ==> Rank(Act(f, ch).f.state) < Rank(f.state)
  {
    hide ActResLine, ActReqLine, ActUrl, ActHead, ActChunk, ActInValue, ActField, Is;
    NoAgain(f, ch);
    ReqLineFalls(f, ch);
    if f.state.ResLine? {
      ResLineFalls(f, ch);
    } else if f.state.Head? {
      HeadFalls(f, ch);
    } else if f.state.Chunk? {
      ChunkFalls(f, ch);
    }
  }

  lemma FlaggedKeeps(f: Fields)
    ensures Flagged(f).state == f.state
  {
  }

  /** The passes that never ask for another one. */
  lemma NoAgain(f: Fields, ch: byte)
    ensures !ActField(f, ch).flow.Again? && !ActValueStart(f, ch).flow.Again?
    ensures !ActInValue(f, ch).flow.Again? && !ActHeadersDone(f, ch).flow.Again?
  {
    hide MatchName, MatchWord, NewMessage, HasBody, NeedsEof, Flagged, FirstOfConnection;
  }

  // ---------------------------------------------------------------------
  // A stretch of bytes
  // ---------------------------------------------------------------------

  /** The callbacks that hand data over. */
  datatype Kind = Url | Status | Field | Value | Body

  /** What the callbacks are told, data byte by byte. */
  datatype Event = Told(note: Notice) | Heard(kind: Kind, b: byte)

  /** The data a parser in this state is collecting, outside bodies. */
  function Collecting(s: State): Option<Kind>
  {
    match s
    case InUrl(_) => Some(Url)
    case ResStatus => Some(Status)
    case HeaderField => Some(Field)
    case HeaderValue => Some(Value)
    case _ => None
  }

  predicate InBody(s: State)
  {
    s.BodyIdentity? || s.BodyIdentityEof? || s.ChunkData?
  }

  /** PARSING_HEADER */
  predicate ParsingHeader(s: State)
  {
    match s
    case Chunk(c) => !c.ChunkDataAlmostDone? && !c.ChunkDataDone?
    case ChunkData => false
    case BodyIdentity => false
    case BodyIdentityEof => false
    case MessageDone => false
    case _ => true
  }

  function Notes(ns: seq<Notice>): seq<Event>
  {
    if |ns| == 0 then [] else [Told(ns[0])] + Notes(ns[1..])
  }

  /** A byte that belongs to a body is handed over before anything else is done with it. */
  function BodyTag(s: State, ch: byte): seq<Event>
  {
    if InBody(s) then [Heard(Body, ch)] else []
  }

  /** Any other byte belongs to what the parser is collecting once it has read it. */
  function Tag(s: State, ch: byte): seq<Event>
  {
    if Collecting(s).Some? then [Heard(Collecting(s).value, ch)] else []
  }

  /** Where the parser stands: its fields, and how many bytes of header it has seen since the count was reset. */
  datatype Spot = Spot(f: Fields, seen: nat)

  /**
   More: all bytes read. Left: stopped for an upgrade. Failed: an error. Long: more header than every cutting
   allows.
   */
  datatype Ending = More | Left | Failed | Long

  datatype Result = Result(at: Spot, told: seq<Event>, used: nat, ending: Ending)

  function Join(told: seq<Event>, used: nat, r: Result): Result
  {
    r.(told := told + r.told, used := used + r.used)
  }

  /** Counted twice, as happens when every byte arrives alone, the header would be over the limit. */
  predicate TooLong(s: Spot)
  {
    ParsingHeader(s.f.state) && 2 * (s.seen + 1) > HTTP_MAX_HEADER_SIZE
  }

  function Counted(s: Spot): Spot
  {
    if ParsingHeader(s.f.state) then s.(seen := s.seen + 1) else s
  }

  function Landed(s: Spot, o: Outcome): Spot
  {
    Spot(o.f, if o.reset then 0 else s.seen)
  }

  /** From the start of a byte. */
  function Run(s: Spot, data: seq<byte>): Result
    decreases |data|, 9
  {
    if |data| == 0 then Result(s, [], 0, More)
    else if TooLong(s) then Result(s, [], 0, Long)
    else Join(BodyTag(s.f.state, data[0]), 0, Pass(Counted(s), data))
  }

  /** From a pass over the first byte, which has been counted already. */
  function Pass(s: Spot, data: seq<byte>): Result
    requires |data| > 0
    decreases |data|, Rank(s.f.state)
  {
    var o := Act(s.f, data[0]);
    AgainFalls(s.f, data[0]);
    match o.flow
    case Again => Join(Notes(o.notes), 0, Pass(Landed(s, o), data))
    case Fail => Result(Landed(s, o), Notes(o.notes), 0, Failed)
    case Leave => Result(Landed(s, o), Notes(o.notes), 1, Left)
    case Next => Join(Notes(o.notes) + Tag(o.f.state, data[0]), 1, Run(Landed(s, o), data[1..]))
  }

  lemma JoinJoin(a: seq<Event>, m: nat, b: seq<Event>, n: nat, r: Result)
    ensures Join(a, m, Join(b, n, r)) == Join(a + b, m + n, r)
  {
    assert a + (b + r.told) == a + b + r.told;
  }

  lemma JoinNothing(r: Result)
    ensures Join([], 0, r) == r
  {
    assert [] + r.told == r.told;
  }

  // ---------------------------------------------------------------------
  // Cutting the bytes
  // ---------------------------------------------------------------------

  /** What a run does with x and y in one piece is what it does with x and then, if it got through x, with y. */
  lemma {:induction false} RunSplits(s: Spot, x: seq<byte>, y: seq<byte>)
    ensures var r := Run(s, x);
      Run(s, x + y) == if r.ending.More? then Join(r.told, r.used, Run(r.at, y)) else r
    ensures Run(s, x).ending.More? ==> Run(s, x).used == |x|
    decreases |x|, 9
  {
    hide Act, Tag, BodyTag, Notes;
    if |x| == 0 {
      assert x + y == y;
      JoinNothing(Run(s, y));
    } else if !TooLong(s) {
      PassSplits(Counted(s), x, y);
      var r := Pass(Counted(s), x);
      JoinJoin(BodyTag(s.f.state, x[0]), 0, r.told, r.used, Run(r.at, y));
    }
  }

  lemma {:induction false} PassSplits(s: Spot, x: seq<byte>, y: seq<byte>)
    requires |x| > 0
    ensures var r := Pass(s, x);
      Pass(s, x + y) == if r.ending.More? then Join(r.told, r.used, Run(r.at, y)) else r
    ensures Pass(s, x).ending.More? ==> Pass(s, x).used == |x|
    decreases |x|, Rank(s.f.state)
  {
    hide Act, Tag, BodyTag, Notes, Rank;
    var o := Act(s.f, x[0]);
    AgainFalls(s.f, x[0]);
    assert (x + y)[0] == x[0] && (x + y)[1..] == x[1..] + y;
    if o.flow.Again? {
      PassSplits(Landed(s, o), x, y);
      var r := Pass(Landed(s, o), x);
      JoinJoin(Notes(o.notes), 0, r.told, r.used, Run(r.at, y));
    } else if o.flow.Next? {
      RunSplits(Landed(s, o), x[1..], y);
      var r := Run(Landed(s, o), x[1..]);
      JoinJoin(Notes(o.notes) + Tag(o.f.state, x[0]), 1, r.told, r.used, Run(r.at, y));
    }
  }
}
