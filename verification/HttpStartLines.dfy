/** The first line of a request, with its method and its URL, and the first line of a response. */
module HttpStartLines {

  import opened Base
  import opened HttpStates
  import opened HttpParser
  import opened HttpMessages
  import opened HttpHeaders
  import opened HttpBodies

  // ---------------------------------------------------------------------
  // Methods
  // ---------------------------------------------------------------------

  /** One letter of a method: the guess after it, corrected where the letter does not fit; None for an error. */
  function MethodStep(m: Method, i: nat, ch: byte): Option<Method>
  {
    if ch == 0 then None
    else if ch == CharAt(MethodString(m), i) then Some(m)
    else if IsAlpha(ch) then SwitchMethod(m, i, ch)
    else if Is(ch, '-') && i == 1 && m.MKCOL? then Some(MSEARCH)
    else None
  }

  /** The guess after more letters. */
  function FoldMethod(m: Method, i: nat, t: seq<byte>): Option<Method>
    decreases |t|
  {
    if |t| == 0 then Some(m)
    else
      match MethodStep(m, i, t[0])
      case None => None
      case Some(m') => FoldMethod(m', i + 1, t[1..])
  }

  /** The method that the parser takes a word for, if it takes it for one. */
  function MethodOf(t: seq<byte>): Option<Method>
  {
    if |t| == 0 || FirstMethod(t[0]).None? then None
    else
      match FoldMethod(FirstMethod(t[0]).value, 1, t[1..])
      case None => None
      case Some(m) => if |t| == |MethodString(m)| then Some(m) else None
  }

  /** The guess while the first i letters of a method have been read. */
  function Guess(m: Method, i: nat): Method
  {
    match m
    case PUT => if i < 2 then POST else m
    case PATCH => if i < 2 then POST else m
    case PROPFIND => if i < 2 then POST else m
    case PROPPATCH => if i < 2 then POST else if i < 5 then PROPFIND else m
    case PURGE => if i < 2 then POST else if i < 3 then PUT else m
    case CHECKOUT => if i < 2 then CONNECT else m
    case COPY => if i < 3 then CONNECT else m
    case MOVE => if i < 2 then MKCOL else m
    case MERGE => if i < 2 then MKCOL else m
    case MSEARCH => if i < 2 then MKCOL else m
    case MKACTIVITY => if i < 3 then MKCOL else m
    case MKCALENDAR => if i < 4 then MKCOL else m
    case SEARCH => if i < 2 then SUBSCRIBE else m
    case REBIND => if i < 3 then REPORT else m
    case LINK => if i < 2 then LOCK else m
    case UNSUBSCRIBE => if i < 3 then UNLOCK else m
    case UNBIND => if i < 3 then UNLOCK else m
    case UNLINK => if i < 4 then UNLOCK else m
    case _ => m
  }

  /** The bytes of t from i on are those of w. */
  predicate SpellsFrom(t: seq<byte>, w: string, i: nat)
  {
    i + |t| == |w| && forall j :: 0 <= j < |t| ==> t[j] as int == w[i + j] as int
  }

  predicate Spells(t: seq<byte>, w: string)
  {
    SpellsFrom(t, w, 0)
  }

  lemma FirstGuess(m: Method, ch: byte)
    requires ch == CharAt(MethodString(m), 0)
    ensures |MethodString(m)| > 0 && FirstMethod(ch) == Some(Guess(m, 1))
  {
  }

  lemma LastGuess(m: Method)
    ensures |MethodString(m)| > 0 && Guess(m, |MethodString(m)|) == m
  {
  }

  lemma NextGuess(m: Method, i: nat, ch: byte)
    requires 1 <= i < |MethodString(m)| && ch == CharAt(MethodString(m), i)
    ensures MethodStep(Guess(m, i), i, ch) == Some(Guess(m, i + 1))
  {
    if Guess(m, i) == m {
      LaterGuess(m, i);
      Visible(m, i);
    } else if m.PUT? || m.PATCH? || m.PROPFIND? || m.PROPPATCH? || m.PURGE? {
      GuessAfterPost(m, i, ch);
    } else if m.MOVE? || m.MERGE? || m.MSEARCH? || m.MKACTIVITY? || m.MKCALENDAR? {
      GuessAfterMkcol(m, i, ch);
    } else if m.UNSUBSCRIBE? || m.UNBIND? || m.UNLINK? {
      GuessAfterUnlock(m, i, ch);
    } else {
      GuessAfterOthers(m, i, ch);
    }
  }

  predicate NamesOneOfTheFirst(m: Method)
  {
    m.DELETE? || m.GET? || m.HEAD? || m.POST? || m.PUT? || m.CONNECT? || m.OPTIONS? || m.TRACE? || m.COPY? || m.LOCK?
    || m.MKCOL? || m.MOVE? || m.PROPFIND? || m.PROPPATCH? || m.SEARCH? || m.UNLOCK?
  }

  lemma VisibleFirst(m: Method, i: nat)
    requires NamesOneOfTheFirst(m) && i < |MethodString(m)|
    ensures MethodString(m)[i] > ' '
  {
  }

  lemma VisibleSecond(m: Method, i: nat)
    requires !NamesOneOfTheFirst(m) && i < |MethodString(m)|
    ensures MethodString(m)[i] > ' '
  {
  }

  lemma Visible(m: Method, i: nat)
    requires i < |MethodString(m)|
    ensures CharAt(MethodString(m), i) > ' ' as int
  {
    hide MethodString;
    if NamesOneOfTheFirst(m) {
      VisibleFirst(m, i);
    } else {
      VisibleSecond(m, i);
    }
  }

  lemma LaterGuess(m: Method, i: nat)
    requires Guess(m, i) == m
    ensures Guess(m, i + 1) == m
  {
    hide MethodString;
  }

  lemma GuessAfterPost(m: Method, i: nat, ch: byte)
    requires m.PUT? || m.PATCH? || m.PROPFIND? || m.PROPPATCH? || m.PURGE?
    requires 1 <= i < |MethodString(m)| && ch == CharAt(MethodString(m), i)
    ensures MethodStep(Guess(m, i), i, ch) == Some(Guess(m, i + 1))
  {
  }

  lemma GuessAfterMkcol(m: Method, i: nat, ch: byte)
    requires m.MOVE? || m.MERGE? || m.MSEARCH? || m.MKACTIVITY? || m.MKCALENDAR?
    requires 1 <= i < |MethodString(m)| && ch == CharAt(MethodString(m), i)
    ensures MethodStep(Guess(m, i), i, ch) == Some(Guess(m, i + 1))
  {
  }

  lemma GuessAfterUnlock(m: Method, i: nat, ch: byte)
    requires m.UNSUBSCRIBE? || m.UNBIND? || m.UNLINK?
    requires 1 <= i < |MethodString(m)| && ch == CharAt(MethodString(m), i)
    ensures MethodStep(Guess(m, i), i, ch) == Some(Guess(m, i + 1))
  {
  }

  lemma GuessAfterOthers(m: Method, i: nat, ch: byte)
    requires m.CHECKOUT? || m.COPY? || m.SEARCH? || m.REBIND? || m.LINK?
    requires 1 <= i < |MethodString(m)| && ch == CharAt(MethodString(m), i)
    ensures MethodStep(Guess(m, i), i, ch) == Some(Guess(m, i + 1))
  {
  }

  /** The first n letters of two methods are the same. */
  predicate SameLetters(m: Method, m': Method, n: nat)
  {
    && n <= |MethodString(m')| && n <= |MethodString(m)|
    && forall j :: 0 <= j < n ==> MethodString(m')[j] == MethodString(m)[j]
  }

  lemma SwitchFromPost(m: Method, i: nat, ch: byte)
    requires (m.POST? || m.PROPFIND? || m.PUT?) && SwitchMethod(m, i, ch).Some?
    ensures var m' := SwitchMethod(m, i, ch).value;
      SameLetters(m, m', i) && CharAt(MethodString(m'), i) == ch
  {
  }

  lemma SwitchFromMkcol(m: Method, i: nat, ch: byte)
    requires m.MKCOL? && SwitchMethod(m, i, ch).Some?
    ensures var m' := SwitchMethod(m, i, ch).value;
      SameLetters(m, m', i) && CharAt(MethodString(m'), i) == ch
  {
  }

  lemma SwitchFromUnlock(i: nat, ch: byte)
    requires SwitchMethod(UNLOCK, i, ch).Some?
    ensures var m' := SwitchMethod(UNLOCK, i, ch).value;
      SameLetters(UNLOCK, m', i) && CharAt(MethodString(m'), i) == ch
  {
  }

  lemma SwitchFromConnect(i: nat, ch: byte)
    requires SwitchMethod(CONNECT, i, ch).Some?
    ensures var m' := SwitchMethod(CONNECT, i, ch).value;
      SameLetters(CONNECT, m', i) && CharAt(MethodString(m'), i) == ch
  {
  }

  lemma SwitchFromOthers(m: Method, i: nat, ch: byte)
    requires (m.SUBSCRIBE? || m.REPORT? || m.LOCK?) && SwitchMethod(m, i, ch).Some?
    ensures var m' := SwitchMethod(m, i, ch).value;
      SameLetters(m, m', i) && CharAt(MethodString(m'), i) == ch
  {
  }

  lemma SwitchKeepsLetters(m: Method, i: nat, ch: byte)
    requires SwitchMethod(m, i, ch).Some?
    ensures var m' := SwitchMethod(m, i, ch).value;
      SameLetters(m, m', i) && CharAt(MethodString(m'), i) == ch
  {
    hide MethodString;
    if m.POST? || m.PROPFIND? || m.PUT? {
      SwitchFromPost(m, i, ch);
    } else if m.MKCOL? {
      SwitchFromMkcol(m, i, ch);
    } else if m.UNLOCK? {
      SwitchFromUnlock(i, ch);
    } else if m.CONNECT? {
      SwitchFromConnect(i, ch);
    } else {
      SwitchFromOthers(m, i, ch);
    }
  }

  lemma HyphenFromMkcol()
    ensures SameLetters(MKCOL, MSEARCH, 1) && CharAt(MethodString(MSEARCH), 1) == '-' as int
  {
  }

  /** A correction keeps the letters read so far, and takes the new one. */
  lemma StepKeepsLetters(m: Method, i: nat, ch: byte)
    requires 1 <= i <= |MethodString(m)| && MethodStep(m, i, ch).Some?
    ensures var m' := MethodStep(m, i, ch).value;
      SameLetters(m, m', i) && CharAt(MethodString(m'), i) == ch && ch != 0
  {
    hide MethodString, SwitchMethod;
    if ch != CharAt(MethodString(m), i) {
      if !IsAlpha(ch) {
        HyphenFromMkcol();
      } else {
        SwitchKeepsLetters(m, i, ch);
      }
    }
  }

  lemma {:induction false} FoldKeepsLetters(m: Method, i: nat, t: seq<byte>)
    requires 1 <= i <= |MethodString(m)| && FoldMethod(m, i, t).Some?
    ensures var m' := FoldMethod(m, i, t).value;
      && SameLetters(m, m', i) && i + |t| <= |MethodString(m')|
      && (forall j :: 0 <= j < |t| ==> MethodString(m')[i + j] as int == t[j])
    decreases |t|
  {
    hide MethodString, MethodStep;
    if |t| > 0 {
      StepKeepsLetters(m, i, t[0]);
      var m1 := MethodStep(m, i, t[0]).value;
      FoldKeepsLetters(m1, i + 1, t[1..]);
      var m' := FoldMethod(m, i, t).value;
      forall j | 0 <= j < |t| ensures MethodString(m')[i + j] as int == t[j] {
        if j > 0 {
          assert t[1..][j - 1] == t[j] && MethodString(m')[i + 1 + (j - 1)] as int == t[1..][j - 1];
        } else {
          assert MethodString(m')[i] == MethodString(m1)[i];
        }
      }
    }
  }

  lemma {:induction false} FoldFindsMethod(m: Method, i: nat, t: seq<byte>)
    requires 1 <= i && SpellsFrom(t, MethodString(m), i)
    ensures FoldMethod(Guess(m, i), i, t) == Some(m)
    decreases |t|
  {
    hide MethodString, MethodStep, Guess;
    if |t| == 0 {
      LastGuess(m);
    } else {
      NextGuess(m, i, t[0]);
      FoldFindsMethod(m, i + 1, t[1..]);
    }
  }

  lemma FirstLetter(ch: byte)
    requires FirstMethod(ch).Some?
    ensures var m := FirstMethod(ch).value;
      |MethodString(m)| > 0 && MethodString(m)[0] as int == ch
  {
  }

  /** For all its corrections on the way, the parser takes exactly the names of the methods for methods. */
  lemma MethodExactly(t: seq<byte>, m: Method)
    ensures MethodOf(t) == Some(m) <==> Spells(t, MethodString(m))
  {
    hide MethodString, FirstMethod, FoldMethod, Guess;
    if MethodOf(t) == Some(m) {
      var first := FirstMethod(t[0]).value;
      FirstLetter(t[0]);
      FoldKeepsLetters(first, 1, t[1..]);
      forall j | 0 <= j < |t| ensures t[j] as int == MethodString(m)[j] as int {
        if j > 0 {
          assert t[1..][j - 1] == t[j] && MethodString(m)[1 + (j - 1)] as int == t[1..][j - 1];
        } else {
          assert MethodString(m)[0] == MethodString(first)[0];
        }
      }
    }
    if Spells(t, MethodString(m)) {
      LastGuess(m);
      FirstGuess(m, t[0]);
      FoldFindsMethod(m, 1, t[1..]);
    }
  }

  // ---------------------------------------------------------------------
  // The method in a run
  // ---------------------------------------------------------------------

  const SPACE: byte := 32

  lemma QuietTells(s: Spot, ch: byte, g: Fields, rest: seq<byte>)
    requires 2 * (s.seen + 1) <= HTTP_MAX_HEADER_SIZE && ParsingHeader(s.f.state)
    requires Act(s.f, ch) == Go(g) && Collecting(g.state).None?
    ensures Tells(s, [ch], [], Spot(g, s.seen + 1), rest)
  {
    hide Act, Run;
    var data := [ch] + rest;
    assert data[0] == ch && data[1..] == rest;
    QuietByte(s, data);
  }

  lemma KeptTells(s: Spot, ch: byte, k: Kind, g: Fields, rest: seq<byte>)
    requires 2 * (s.seen + 1) <= HTTP_MAX_HEADER_SIZE && ParsingHeader(s.f.state)
    requires Act(s.f, ch) == Go(g) && Collecting(g.state) == Some(k)
    ensures Tells(s, [ch], [Heard(k, ch)], Spot(g, s.seen + 1), rest)
  {
    hide Act, Run;
    var data := [ch] + rest;
    assert data[0] == ch && data[1..] == rest;
    KeptByte(s, data, k);
  }

  lemma BeginTells(s: Spot, ch: byte, g: Fields, rest: seq<byte>)
    requires 2 * (s.seen + 1) <= HTTP_MAX_HEADER_SIZE && ParsingHeader(s.f.state)
    requires Act(s.f, ch) == Outcome(g, [MessageBegin], Next, false) && Collecting(g.state).None?
    ensures Tells(s, [ch], [Told(MessageBegin)], Spot(g, s.seen + 1), rest)
  {
    hide Act, Run;
    var data := [ch] + rest;
    assert data[0] == ch && data[1..] == rest;
    HeaderByte(s, data);
    assert Notes([MessageBegin]) + [] == [Told(MessageBegin)];
  }

  /** A run that refuses the method. */
  predicate Refuses(r: Result)
  {
    r.ending.Failed? && r.at.f.errno.InvalidMethod?
  }

  lemma BadByte(s: Spot, data: seq<byte>)
    requires |data| > 0 && 2 * (s.seen + 1) <= HTTP_MAX_HEADER_SIZE && ParsingHeader(s.f.state)
    requires Act(s.f, data[0]).flow.Fail? && Act(s.f, data[0]).f.errno.InvalidMethod?
    ensures Refuses(Run(s, data))
  {
    hide Act;
  }

  lemma RefusesBehind(s: Spot, x: seq<byte>, told: seq<Event>, s': Spot, rest: seq<byte>)
    requires Tells(s, x, told, s', rest) && Refuses(Run(s', rest))
    ensures Refuses(Run(s, x + rest))
  {
    hide Run;
  }

  predicate InMethod(f: Fields)
  {
    f.state == ReqLine(ReqMethod)
  }

  lemma LetterActs(f: Fields, ch: byte)
    requires InMethod(f) && ch != SPACE
    ensures match MethodStep(f.method_, f.index, ch)
            case Some(m) => Act(f, ch) == Go(f.(method_ := m, index := f.index + 1))
            case None => Act(f, ch) == Bad(f, InvalidMethod)
  {
    hide MethodString, CharAt, SwitchMethod, IsAlpha;
  }

  lemma SpaceActs(f: Fields)
    requires InMethod(f) && f.index <= |MethodString(f.method_)|
    ensures Act(f, SPACE) == if f.index == |MethodString(f.method_)|
                             then Move(f.(index := f.index + 1), ReqLine(ReqSpacesBeforeUrl)) else Bad(f, InvalidMethod)
  {
    hide MethodString;
    if f.index < |MethodString(f.method_)| {
      Visible(f.method_, f.index);
    }
  }

  /** The fields behind a method and the space. */
  function AfterMethod(f: Fields, m: Method): Fields
  {
    f.(method_ := m, index := |MethodString(m)| + 1, state := ReqLine(ReqSpacesBeforeUrl))
  }

  /** The run over letters and a space, when the letters so far have led to a guess. */
  predicate ReadsMethod(s: Spot, t: seq<byte>, told: seq<Event>, m: Option<Method>, f: Fields, rest: seq<byte>)
  {
    match m
    case Some(m) => Tells(s, t + [SPACE], told, Spot(AfterMethod(f, m), s.seen + |t| + 1), rest)
    case None => Refuses(Run(s, t + [SPACE] + rest))
  }

  function FoldThenEnd(m: Method, i: nat, t: seq<byte>): Option<Method>
  {
    match FoldMethod(m, i, t)
    case None => None
    case Some(m') => if i + |t| == |MethodString(m')| then Some(m') else None
  }

  lemma {:induction false} MoreLetters(s: Spot, t: seq<byte>, rest: seq<byte>)
    requires InMethod(s.f) && 1 <= s.f.index <= |MethodString(s.f.method_)| && SPACE !in t
    requires 2 * (s.seen + |t| + 1) <= HTTP_MAX_HEADER_SIZE
    ensures ReadsMethod(s, t, [], FoldThenEnd(s.f.method_, s.f.index, t), s.f, rest)
    decreases |t|
  {
    hide Run, Act, MethodString, MethodStep;
    if |t| == 0 {
      assert [] + [SPACE] == [SPACE];
      SpaceActs(s.f);
      if s.f.index == |MethodString(s.f.method_)| {
        QuietTells(s, SPACE, AfterMethod(s.f, s.f.method_), rest);
      } else {
        BadByte(s, [SPACE] + rest);
      }
    } else {
      LetterActs(s.f, t[0]);
      var step := MethodStep(s.f.method_, s.f.index, t[0]);
      if step.None? {
        BadByte(s, t + [SPACE] + rest);
      } else {
        StepKeepsLetters(s.f.method_, s.f.index, t[0]);
        var s' := Spot(s.f.(method_ := step.value, index := s.f.index + 1), s.seen + 1);
        QuietTells(s, t[0], s'.f, t[1..] + [SPACE] + rest);
        MoreLetters(s', t[1..], rest);
        OneMoreLetter(s, s', t, FoldThenEnd(s.f.method_, s.f.index, t), rest);
      }
    }
  }

  lemma OneMoreLetter(s: Spot, s': Spot, t: seq<byte>, m: Option<Method>, rest: seq<byte>)
    requires |t| > 0 && s'.seen == s.seen + 1 && s'.f == s.f.(method_ := s'.f.method_, index := s'.f.index)
    requires Tells(s, [t[0]], [], s', t[1..] + [SPACE] + rest) && ReadsMethod(s', t[1..], [], m, s'.f, rest)
    ensures ReadsMethod(s, t, [], m, s.f, rest)
  {
    hide Tells, Refuses, MethodString, Run;
    assert [t[0]] + (t[1..] + [SPACE]) == t + [SPACE];
    if m.Some? {
      TellsThenTells(s, [t[0]], [], s', t[1..] + [SPACE], [], Spot(AfterMethod(s.f, m.value), s.seen + |t| + 1), rest);
      AddNothing([]);
    } else {
      assert [t[0]] + (t[1..] + [SPACE] + rest) == t + [SPACE] + rest;
      RefusesBehind(s, [t[0]], [], s', t[1..] + [SPACE] + rest);
    }
  }

  lemma FirstLetterActs(f: Fields, ch: byte)
    requires f.state == ReqLine(StartReq) && ch != CR && ch != LF
    ensures match FirstMethod(ch)
            case Some(m) =>
              Act(f, ch) == Outcome(Fresh(f).(method_ := m, index := 1, state := ReqLine(ReqMethod)), [MessageBegin],
                  Next, false)
            case None => Act(f, ch).flow.Fail? && Act(f, ch).f.errno.InvalidMethod?
  {
  }

  /**
   The first word of a request and the space behind it: a message begins with that method exactly when the word
   is the name of one, and is refused otherwise.
   */
  lemma MethodRead(s: Spot, t: seq<byte>, rest: seq<byte>)
    requires s.f.state == ReqLine(StartReq) && |t| > 0 && t[0] != CR && t[0] != LF && SPACE !in t
    requires 2 * (s.seen + |t| + 1) <= HTTP_MAX_HEADER_SIZE
    ensures ReadsMethod(s, t, [Told(MessageBegin)], MethodOf(t), Fresh(s.f), rest)
  {
    hide Run, Act, MethodString, FirstMethod, FoldMethod;
    FirstLetterActs(s.f, t[0]);
    var first := FirstMethod(t[0]);
    if first.None? {
      BadByte(s, t + [SPACE] + rest);
    } else {
      FirstLetter(t[0]);
      var s' := Spot(Fresh(s.f).(method_ := first.value, index := 1, state := ReqLine(ReqMethod)), s.seen + 1);
      BeginTells(s, t[0], s'.f, t[1..] + [SPACE] + rest);
      MoreLetters(s', t[1..], rest);
      FirstThenLetters(s, s', t, FoldThenEnd(first.value, 1, t[1..]), rest);
    }
  }

  lemma FirstThenLetters(s: Spot, s': Spot, t: seq<byte>, m: Option<Method>, rest: seq<byte>)
    requires |t| > 0 && s'.seen == s.seen + 1
    requires s'.f == Fresh(s.f).(method_ := s'.f.method_, index := s'.f.index, state := s'.f.state)
    requires Tells(s, [t[0]], [Told(MessageBegin)], s', t[1..] + [SPACE] + rest)
    requires ReadsMethod(s', t[1..], [], m, s'.f, rest)
    ensures ReadsMethod(s, t, [Told(MessageBegin)], m, Fresh(s.f), rest)
  {
    hide Tells, Refuses, MethodString, Run;
    assert [t[0]] + (t[1..] + [SPACE]) == t + [SPACE];
    if m.Some? {
      TellsThenTells(s, [t[0]], [Told(MessageBegin)], s', t[1..] + [SPACE], [],
          Spot(AfterMethod(Fresh(s.f), m.value), s.seen + |t| + 1), rest);
      AddNothing([Told(MessageBegin)]);
    } else {
      assert [t[0]] + (t[1..] + [SPACE] + rest) == t + [SPACE] + rest;
      RefusesBehind(s, [t[0]], [Told(MessageBegin)], s', t[1..] + [SPACE] + rest);
    }
  }

  // ---------------------------------------------------------------------
  // The URL
  // ---------------------------------------------------------------------

  function FoldUrl(u: Option<UrlState>, t: seq<byte>): Option<UrlState>
    decreases |t|
  {
    if |t| == 0 then u
    else
      match ParseUrlChar(u, t[0])
      case None => None
      case Some(v) => FoldUrl(Some(v), t[1..])
  }

  /** The states in which a blank ends the URL. */
  predicate MayEnd(u: UrlState)
  {
    !u.ReqSchema? && !u.ReqSchemaSlash? && !u.ReqSchemaSlashSlash? && !u.ReqServerStart?
  }

  /** Where the URL of a method starts. */
  function UrlStart(m: Method): Option<UrlState>
  {
    if m.CONNECT? then Some(ReqServerStart) else None
  }

  predicate IsUrl(m: Method, t: seq<byte>)
  {
    |t| > 0 && FoldUrl(UrlStart(m), t).Some? && MayEnd(FoldUrl(UrlStart(m), t).value)
  }

  /** A path with a query, as in section 5.3.1 of RFC 7230. */
  predicate OriginForm(t: seq<byte>)
  {
    |t| > 0 && Is(t[0], '/') && forall i :: 0 < i < |t| ==> IsUrlChar(t[i]) || Is(t[i], '?')
  }

  lemma {:induction false} FoldPath(u: UrlState, t: seq<byte>)
    requires u.ReqPath? || u.ReqQueryStringStart? || u.ReqQueryString?
    requires forall i :: 0 <= i < |t| ==> IsUrlChar(t[i]) || Is(t[i], '?')
    ensures FoldUrl(Some(u), t).Some? && MayEnd(FoldUrl(Some(u), t).value)
    decreases |t|
  {
    if |t| > 0 {
      FoldPath(ParseUrlChar(Some(u), t[0]).value, t[1..]);
    }
  }

  lemma OriginFormIsUrl(m: Method, t: seq<byte>)
    requires OriginForm(t) && !m.CONNECT?
    ensures IsUrl(m, t)
  {
    FoldPath(ReqPath, t[1..]);
  }

  lemma FirstUrlActs(f: Fields, ch: byte)
    requires f.state == ReqLine(ReqSpacesBeforeUrl) && ParseUrlChar(UrlStart(f.method_), ch).Some?
    ensures Act(f, ch) == Move(f, InUrl(ParseUrlChar(UrlStart(f.method_), ch).value))
  {
    assert ParseUrlChar(UrlStart(f.method_), SPACE).None?;
    hide ParseUrlChar;
  }

  lemma UrlActs(f: Fields, ch: byte)
    requires f.state.InUrl? && ParseUrlChar(Some(f.state.url), ch).Some?
    ensures Act(f, ch) == Move(f, InUrl(ParseUrlChar(Some(f.state.url), ch).value))
  {
    assert !Is(ch, ' ') && ch != CR && ch != LF;
    hide ParseUrlChar;
  }

  lemma UrlEndActs(f: Fields)
    requires f.state.InUrl? && MayEnd(f.state.url)
    ensures Act(f, SPACE) == Move(f, ReqLine(ReqHttpStart))
  {
    hide ParseUrlChar;
  }

  lemma {:induction false} UrlBytes(s: Spot, t: seq<byte>, rest: seq<byte>)
    requires s.f.state.InUrl? && FoldUrl(Some(s.f.state.url), t).Some? && 2 * (s.seen + |t|) <= HTTP_MAX_HEADER_SIZE
    ensures Tells(s, t, Bytes(Url, t), Spot(s.f.(state := InUrl(FoldUrl(Some(s.f.state.url), t).value)), s.seen + |t|),
        rest)
    decreases |t|
  {
    hide Act, ParseUrlChar, Tells, Bytes;
    if |t| == 0 {
      BytesNone(Url);
      TellsNothing(s, rest);
    } else {
      UrlActs(s.f, t[0]);
      var s' := Spot(Act(s.f, t[0]).f, s.seen + 1);
      KeptTells(s, t[0], Url, s'.f, t[1..] + rest);
      UrlBytes(s', t[1..], rest);
      TellsThenTells(s, [t[0]], [Heard(Url, t[0])], s', t[1..], Bytes(Url, t[1..]),
          Spot(s.f.(state := InUrl(FoldUrl(Some(s.f.state.url), t).value)), s.seen + |t|), rest);
      assert [t[0]] + t[1..] == t;
      BytesFirst(Url, t);
    }
  }

  /** A URL and the blank behind it: the URL is handed over whole. */
  lemma UrlRead(s: Spot, t: seq<byte>, rest: seq<byte>)
    requires s.f.state == ReqLine(ReqSpacesBeforeUrl) && IsUrl(s.f.method_, t)
    requires 2 * (s.seen + |t| + 1) <= HTTP_MAX_HEADER_SIZE
    ensures Tells(s, t + [SPACE], Bytes(Url, t), Spot(s.f.(state := ReqLine(ReqHttpStart)), s.seen + |t| + 1), rest)
  {
    hide Act, ParseUrlChar, Tells, Bytes;
    FirstUrlActs(s.f, t[0]);
    var u := ParseUrlChar(UrlStart(s.f.method_), t[0]).value;
    var s1 := Spot(s.f.(state := InUrl(u)), s.seen + 1);
    var end := FoldUrl(Some(u), t[1..]).value;
    var s2 := Spot(s.f.(state := InUrl(end)), s.seen + |t|);
    var s3 := Spot(s.f.(state := ReqLine(ReqHttpStart)), s.seen + |t| + 1);
    KeptTells(s, t[0], Url, s1.f, t[1..] + ([SPACE] + rest));
    UrlBytes(s1, t[1..], [SPACE] + rest);
    TellsThenTells(s, [t[0]], [Heard(Url, t[0])], s1, t[1..], Bytes(Url, t[1..]), s2, [SPACE] + rest);
    assert [t[0]] + t[1..] == t;
    BytesFirst(Url, t);
    UrlEndActs(s2.f);
    QuietTells(s2, SPACE, s3.f, rest);
    TellsThenTells(s, t, Bytes(Url, t), s2, [SPACE], [], s3, rest);
    AddNothing(Bytes(Url, t));
  }

  // ---------------------------------------------------------------------
  // Versions
  // ---------------------------------------------------------------------

  /** A stretch of bytes over which nothing is told. */
  predicate Quiet(f: Fields, x: seq<byte>, g: Fields)
    decreases |x|
  {
    if |x| == 0 then f == g
    else
      && ParsingHeader(f.state) && Act(f, x[0]) == Go(Act(f, x[0]).f) && Collecting(Act(f, x[0]).f.state).None?
      && Quiet(Act(f, x[0]).f, x[1..], g)
  }

  lemma {:induction false} QuietRuns(s: Spot, x: seq<byte>, g: Fields, rest: seq<byte>)
    requires Quiet(s.f, x, g) && 2 * (s.seen + |x|) <= HTTP_MAX_HEADER_SIZE
    ensures Tells(s, x, [], Spot(g, s.seen + |x|), rest)
    decreases |x|
  {
    hide Act, Tells;
    if |x| == 0 {
      TellsNothing(s, rest);
    } else {
      var s' := Spot(Act(s.f, x[0]).f, s.seen + 1);
      QuietTells(s, x[0], s'.f, x[1..] + rest);
      QuietRuns(s', x[1..], g, rest);
      TellsThenTells(s, [x[0]], [], s', x[1..], [], Spot(g, s.seen + |x|), rest);
      assert [x[0]] + x[1..] == x;
      AddNothing([]);
    }
  }

  /** One byte, and then the others. */
  lemma QuietFirst(f: Fields, ch: byte, a: State, f': Fields, x: seq<byte>, g: Fields)
    requires ParsingHeader(f.state) && Act(f, ch) == Move(f', a) && Collecting(a).None?
    requires Quiet(f'.(state := a), x, g)
    ensures Quiet(f, [ch] + x, g)
  {
    hide Act;
    assert ([ch] + x)[0] == ch && ([ch] + x)[1..] == x;
  }

  const HTTP_NAME: seq<byte> := [72, 84, 84, 80, 47]

  /** The digits of a version around its dot. */
  function VersionText(major: byte, minor: byte): seq<byte>
  {
    HTTP_NAME + [major, 46, minor]
  }

  lemma ReqNameActs(f: Fields)
    ensures Act(f.(state := ReqLine(ReqHttpStart)), 72) == Move(f, ReqLine(ReqHttpH))
    ensures Act(f.(state := ReqLine(ReqHttpH)), 84) == Move(f, ReqLine(ReqHttpHT))
    ensures Act(f.(state := ReqLine(ReqHttpHT)), 84) == Move(f, ReqLine(ReqHttpHTT))
    ensures Act(f.(state := ReqLine(ReqHttpHTT)), 80) == Move(f, ReqLine(ReqHttpHTTP))
    ensures Act(f.(state := ReqLine(ReqHttpHTTP)), 47) == Move(f, ReqLine(ReqFirstHttpMajor))
  {
  }

  lemma ReqMajorActs(f: Fields, major: byte)
    requires IsNum(major) && !Is(major, '0')
    ensures Act(f.(state := ReqLine(ReqFirstHttpMajor)), major)
        == Move(f.(major := Digit(major)), ReqLine(ReqHttpMajor))
    ensures Act(f.(state := ReqLine(ReqHttpMajor)), 46) == Move(f, ReqLine(ReqFirstHttpMinor))
  {
  }

  lemma ReqMinorActs(f: Fields, minor: byte)
    requires IsNum(minor)
    ensures Act(f.(state := ReqLine(ReqFirstHttpMinor)), minor)
        == Move(f.(minor := Digit(minor)), ReqLine(ReqHttpMinor))
    ensures Act(f.(state := ReqLine(ReqHttpMinor)), CR) == Move(f, ReqLine(ReqLineAlmostDone))
    ensures Act(f.(state := ReqLine(ReqLineAlmostDone)), LF) == Move(f, Head(HeaderFieldStart))
  {
  }

  /** The version of a request and the end of its line. */
  lemma ReqVersionQuiet(f: Fields, major: byte, minor: byte, g: Fields)
    requires f.state == ReqLine(ReqHttpStart) && IsNum(major) && !Is(major, '0') && IsNum(minor)
    requires g == f.(major := Digit(major), minor := Digit(minor), state := Head(HeaderFieldStart))
    ensures Quiet(f, VersionText(major, minor) + [CR, LF], g)
  {
    hide Act, Quiet, IsNum, Digit;
    var f1 := f.(major := Digit(major));
    var f2 := f1.(minor := Digit(minor));
    ReqNameActs(f);
    ReqMajorActs(f, major);
    ReqMajorActs(f1, major);
    ReqMinorActs(f1, minor);
    ReqMinorActs(f2, minor);
    assert f == f.(state := ReqLine(ReqHttpStart));
    NothingQuiet(g);
    QuietFirst(f2.(state := ReqLine(ReqLineAlmostDone)), LF, g.state, f2, [], g);
    QuietFirst(f2.(state := ReqLine(ReqHttpMinor)), CR, ReqLine(ReqLineAlmostDone), f2, [LF] + [], g);
    QuietFirst(f1.(state := ReqLine(ReqFirstHttpMinor)), minor, ReqLine(ReqHttpMinor), f2, [CR] + ([LF] + []), g);
    var x := [minor] + ([CR] + ([LF] + []));
    QuietFirst(f1.(state := ReqLine(ReqHttpMajor)), 46, ReqLine(ReqFirstHttpMinor), f1, x, g);
    QuietFirst(f.(state := ReqLine(ReqFirstHttpMajor)), major, ReqLine(ReqHttpMajor), f1, [46] + x, g);
    var y := [major] + ([46] + x);
    QuietFirst(f.(state := ReqLine(ReqHttpHTTP)), 47, ReqLine(ReqFirstHttpMajor), f, y, g);
    QuietFirst(f.(state := ReqLine(ReqHttpHTT)), 80, ReqLine(ReqHttpHTTP), f, [47] + y, g);
    QuietFirst(f.(state := ReqLine(ReqHttpHT)), 84, ReqLine(ReqHttpHTT), f, [80] + ([47] + y), g);
    var z := [84] + ([80] + ([47] + y));
    QuietFirst(f.(state := ReqLine(ReqHttpH)), 84, ReqLine(ReqHttpHT), f, z, g);
    QuietFirst(f, 72, ReqLine(ReqHttpH), f, [84] + z, g);
    assert [72] + ([84] + z) == VersionText(major, minor) + [CR, LF];
  }

  lemma NothingQuiet(f: Fields)
    ensures Quiet(f, [], f)
  {
  }

  lemma ResNameActs(f: Fields)
    ensures Act(f.(state := ResLine(ResH)), 84) == Move(f, ResLine(ResHT))
    ensures Act(f.(state := ResLine(ResHT)), 84) == Move(f, ResLine(ResHTT))
    ensures Act(f.(state := ResLine(ResHTT)), 80) == Move(f, ResLine(ResHTTP))
    ensures Act(f.(state := ResLine(ResHTTP)), 47) == Move(f, ResLine(ResFirstHttpMajor))
  {
  }

  lemma ResVersionActs(f: Fields, major: byte, minor: byte)
    requires IsNum(major) && IsNum(minor)
    ensures Act(f.(state := ResLine(ResFirstHttpMajor)), major)
        == Move(f.(major := Digit(major)), ResLine(ResHttpMajor))
    ensures Act(f.(state := ResLine(ResHttpMajor)), 46) == Move(f, ResLine(ResFirstHttpMinor))
    ensures Act(f.(state := ResLine(ResFirstHttpMinor)), minor)
        == Move(f.(minor := Digit(minor)), ResLine(ResHttpMinor))
    ensures Act(f.(state := ResLine(ResHttpMinor)), SPACE) == Move(f, ResLine(ResFirstStatusCode))
  {
  }

  lemma CodeActs(f: Fields, d: byte)
    requires IsNum(d)
    ensures Act(f.(state := ResLine(ResFirstStatusCode)), d) == Move(f.(status := Digit(d)), ResLine(ResStatusCode))
    ensures f.status < 100 ==>
              Act(f.(state := ResLine(ResStatusCode)), d)
              == Move(f.(status := f.status * 10 + Digit(d)), ResLine(ResStatusCode))
    ensures Act(f.(state := ResLine(ResStatusCode)), SPACE) == Move(f, ResLine(ResStatusStart))
  {
  }

  /** The number that a status code stands for. */
  function CodeValue(code: seq<byte>): nat
    requires |code| == 3 && IsNum(code[0]) && IsNum(code[1]) && IsNum(code[2])
  {
    100 * Digit(code[0]) + 10 * Digit(code[1]) + Digit(code[2])
  }

  lemma CodeQuiet(f: Fields, code: seq<byte>, g: Fields)
    requires f.state == ResLine(ResFirstStatusCode)
    requires |code| == 3 && IsNum(code[0]) && IsNum(code[1]) && IsNum(code[2])
    requires g == f.(status := CodeValue(code), state := ResLine(ResStatusStart))
    ensures Quiet(f, code + [SPACE], g)
  {
    var f1 := f.(status := Digit(code[0]));
    var f2 := f.(status := Digit(code[0]) * 10 + Digit(code[1]));
    var f3 := f.(status := CodeValue(code));
    hide Act, Quiet, IsNum, Digit;
    CodeActs(f, code[0]);
    CodeActs(f1, code[1]);
    CodeActs(f2, code[2]);
    CodeActs(f3, code[2]);
    assert f == f.(state := ResLine(ResFirstStatusCode));
    NothingQuiet(g);
    var middle := ResLine(ResStatusCode);
    QuietFirst(f3.(state := middle), SPACE, g.state, f3, [], g);
    QuietFirst(f2.(state := middle), code[2], middle, f3, [SPACE] + [], g);
    QuietFirst(f1.(state := middle), code[1], middle, f2, [code[2]] + ([SPACE] + []), g);
    QuietFirst(f, code[0], middle, f1, [code[1]] + ([code[2]] + ([SPACE] + [])), g);
    assert [code[0]] + ([code[1]] + ([code[2]] + ([SPACE] + []))) == code + [SPACE];
  }

  /** The version of a response behind its first letter. */
  lemma ResVersionQuiet(f: Fields, major: byte, minor: byte, g: Fields)
    requires f.state == ResLine(ResH) && IsNum(major) && IsNum(minor)
    requires g == f.(major := Digit(major), minor := Digit(minor), state := ResLine(ResFirstStatusCode))
    ensures Quiet(f, VersionText(major, minor)[1..] + [SPACE], g)
  {
    hide Act, Quiet, IsNum, Digit;
    var f1 := f.(major := Digit(major));
    var f2 := f1.(minor := Digit(minor));
    ResNameActs(f);
    ResVersionActs(f, major, minor);
    ResVersionActs(f1, major, minor);
    ResVersionActs(f2, major, minor);
    assert f == f.(state := ResLine(ResH));
    NothingQuiet(g);
    QuietFirst(f2.(state := ResLine(ResHttpMinor)), SPACE, g.state, f2, [], g);
    QuietFirst(f1.(state := ResLine(ResFirstHttpMinor)), minor, ResLine(ResHttpMinor), f2, [SPACE] + [], g);
    var x := [minor] + ([SPACE] + []);
    QuietFirst(f1.(state := ResLine(ResHttpMajor)), 46, ResLine(ResFirstHttpMinor), f1, x, g);
    QuietFirst(f.(state := ResLine(ResFirstHttpMajor)), major, ResLine(ResHttpMajor), f1, [46] + x, g);
    var y := [major] + ([46] + x);
    QuietFirst(f.(state := ResLine(ResHTTP)), 47, ResLine(ResFirstHttpMajor), f, y, g);
    QuietFirst(f.(state := ResLine(ResHTT)), 80, ResLine(ResHTTP), f, [47] + y, g);
    QuietFirst(f.(state := ResLine(ResHT)), 84, ResLine(ResHTT), f, [80] + ([47] + y), g);
    QuietFirst(f, 84, ResLine(ResHT), f, [84] + ([80] + ([47] + y)), g);
    assert [84] + ([84] + ([80] + ([47] + y))) == VersionText(major, minor)[1..] + [SPACE];
  }

  // --- the reason

  predicate IsReason(t: seq<byte>)
  {
    CR !in t && LF !in t
  }

  lemma ReasonActs(f: Fields, ch: byte)
    requires ch != CR && ch != LF
    ensures Act(f.(state := ResLine(ResStatusStart)), ch) == Move(f.(index := 0), ResStatus)
    ensures Act(f.(state := ResStatus), ch) == Move(f, ResStatus)
  {
  }

  lemma ReasonEndActs(f: Fields)
    ensures Act(f.(state := ResLine(ResStatusStart)), CR) == Move(f, ResLine(ResLineAlmostDone))
    ensures Act(f.(state := ResStatus), CR) == Move(f, ResLine(ResLineAlmostDone))
    ensures Act(f.(state := ResLine(ResLineAlmostDone)), LF) == Move(f, Head(HeaderFieldStart))
  {
  }

  lemma {:induction false} ReasonBytes(s: Spot, t: seq<byte>, rest: seq<byte>)
    requires s.f.state.ResStatus? && IsReason(t) && 2 * (s.seen + |t|) <= HTTP_MAX_HEADER_SIZE
    ensures Tells(s, t, Bytes(Status, t), Spot(s.f, s.seen + |t|), rest)
    decreases |t|
  {
    hide Act, Tells, Bytes;
    if |t| == 0 {
      BytesNone(Status);
      TellsNothing(s, rest);
    } else {
      ReasonActs(s.f, t[0]);
      var s' := Spot(s.f, s.seen + 1);
      KeptTells(s, t[0], Status, s.f, t[1..] + rest);
      ReasonBytes(s', t[1..], rest);
      TellsThenTells(s, [t[0]], [Heard(Status, t[0])], s', t[1..], Bytes(Status, t[1..]), Spot(s.f, s.seen + |t|),
          rest);
      assert [t[0]] + t[1..] == t;
      BytesFirst(Status, t);
    }
  }

  lemma ReasonEnds(s: Spot, rest: seq<byte>)
    requires s.f.state.ResStatus? || s.f.state == ResLine(ResStatusStart)
    requires 2 * (s.seen + 2) <= HTTP_MAX_HEADER_SIZE
    ensures Tells(s, [CR, LF], [], Spot(s.f.(state := Head(HeaderFieldStart)), s.seen + 2), rest)
  {
    hide Act, Tells;
    ReasonEndActs(s.f);
    var s1, s2 := Spot(s.f.(state := ResLine(ResLineAlmostDone)), s.seen + 1),
      Spot(s.f.(state := Head(HeaderFieldStart)), s.seen + 2);
    QuietTells(s, CR, s1.f, [LF] + rest);
    QuietTells(s1, LF, s2.f, rest);
    TellsThenTells(s, [CR], [], s1, [LF], [], s2, rest);
    assert [CR] + [LF] == [CR, LF];
    AddNothing([]);
  }

  /** The reason is handed over whole; it may be empty. */
  lemma ReasonRead(s: Spot, t: seq<byte>, g: Fields, rest: seq<byte>)
    requires s.f.state == ResLine(ResStatusStart) && IsReason(t) && 2 * (s.seen + |t| + 2) <= HTTP_MAX_HEADER_SIZE
    requires g == s.f.(index := if |t| == 0 then s.f.index else 0, state := Head(HeaderFieldStart))
    ensures Tells(s, t + [CR, LF], Bytes(Status, t), Spot(g, s.seen + |t| + 2), rest)
  {
    hide Act, Tells, Bytes;
    if |t| == 0 {
      assert t + [CR, LF] == [CR, LF] && t == [];
      BytesNone(Status);
      ReasonEnds(s, rest);
    } else {
      ReasonActs(s.f, t[0]);
      var s1 := Spot(s.f.(index := 0, state := ResStatus), s.seen + 1);
      var s2 := Spot(s1.f, s.seen + |t|);
      KeptTells(s, t[0], Status, s1.f, t[1..] + ([CR, LF] + rest));
      ReasonBytes(s1, t[1..], [CR, LF] + rest);
      ReasonEnds(s2, rest);
      TellsThenTells(s, [t[0]], [Heard(Status, t[0])], s1, t[1..], Bytes(Status, t[1..]), s2, [CR, LF] + rest);
      assert [t[0]] + t[1..] == t;
      BytesFirst(Status, t);
      TellsThenTells(s, t, Bytes(Status, t), s2, [CR, LF], [], Spot(g, s.seen + |t| + 2), rest);
      AddNothing(Bytes(Status, t));
    }
  }

  // ---------------------------------------------------------------------
  // Start lines
  // ---------------------------------------------------------------------

  /** The first line of a message, in the forms of sections 3.1.1 and 3.1.2 of RFC 7230. */
  datatype StartLine =
    | RequestLine(word: seq<byte>, method_: Method, url: seq<byte>, major: byte, minor: byte)
    | StatusLine(major: byte, minor: byte, code: seq<byte>, reason: seq<byte>)

  predicate IsStart(l: StartLine)
  {
    && IsNum(l.major) && IsNum(l.minor)
    && match l
       case RequestLine(word, m, url, major, _) => Spells(word, MethodString(m)) && IsUrl(m, url) && !Is(major, '0')
       case StatusLine(_, _, code, reason) =>
         |code| == 3 && IsNum(code[0]) && IsNum(code[1]) && IsNum(code[2]) && IsReason(reason)
  }

  function StartText(l: StartLine): seq<byte>
  {
    match l
    case RequestLine(word, _, url, major, minor) =>
      word + [SPACE] + (url + [SPACE]) + (VersionText(major, minor) + [CR, LF])
    case StatusLine(major, minor, code, reason) =>
      VersionText(major, minor) + [SPACE] + (code + [SPACE]) + (reason + [CR, LF])
  }

  /** The parser expects the start of such a message. */
  predicate Expects(f: Fields, l: StartLine)
  {
    f.state == if l.RequestLine? then ReqLine(StartReq) else ResLine(StartRes)
  }

  function StartEvents(l: StartLine): seq<Event>
  {
    [Told(MessageBegin)] + if l.RequestLine? then Bytes(Url, l.url) else Bytes(Status, l.reason)
  }

  /** The fields behind the line. */
  function AfterStart(f: Fields, l: StartLine): Fields
    requires IsStart(l)
  {
    var g := Fresh(f).(major := Digit(l.major), minor := Digit(l.minor), state := Head(HeaderFieldStart));
    match l
    case RequestLine(_, m, _, _, _) => g.(method_ := m, index := |MethodString(m)| + 1)
    case StatusLine(_, _, code, reason) =>
      g.(status := CodeValue(code), index := if |reason| == 0 then f.index else 0)
  }

  lemma ResFirstActs(f: Fields)
    requires f.state == ResLine(StartRes)
    ensures Act(f, 72) == Outcome(Fresh(f).(state := ResLine(ResH)), [MessageBegin], Next, false)
  {
  }

  lemma RequestLineRead(s: Spot, l: StartLine, rest: seq<byte>)
    requires l.RequestLine? && IsStart(l) && Expects(s.f, l) && 2 * (s.seen + |StartText(l)|) <= HTTP_MAX_HEADER_SIZE
    ensures Tells(s, StartText(l), StartEvents(l), Spot(AfterStart(s.f, l), s.seen + |StartText(l)|), rest)
  {
    hide Tells, Act, MethodString, Bytes, IsUrl, Spells, VersionText, Fresh, IsNum, Digit, Quiet;
    var x, y, z := l.word + [SPACE], l.url + [SPACE], VersionText(l.major, l.minor) + [CR, LF];
    var f1 := AfterMethod(Fresh(s.f), l.method_);
    var s1 := Spot(f1, s.seen + |x|);
    var s2 := Spot(f1.(state := ReqLine(ReqHttpStart)), s.seen + |x| + |y|);
    var g := AfterStart(s.f, l);
    WordRead(s, l.word, l.method_, y + (z + rest));
    UrlRead(s1, l.url, z + rest);
    ReqVersionQuiet(s2.f, l.major, l.minor, g);
    QuietRuns(s2, z, g, rest);
    RequestPieces(s, x, s1, y, Bytes(Url, l.url), s2, z, Spot(g, s.seen + |StartText(l)|), rest);
  }

  lemma RequestPieces(s: Spot, x: seq<byte>, s1: Spot, y: seq<byte>, told: seq<Event>, s2: Spot, z: seq<byte>, s3: Spot,
          rest: seq<byte>)
    requires Tells(s, x, [Told(MessageBegin)], s1, y + (z + rest))
    requires Tells(s1, y, told, s2, z + rest) && Tells(s2, z, [], s3, rest)
    ensures Tells(s, x + y + z, [Told(MessageBegin)] + told, s3, rest)
  {
    hide Tells;
    TellsThenTells(s, x, [Told(MessageBegin)], s1, y, told, s2, z + rest);
    TellsThenTells(s, x + y, [Told(MessageBegin)] + told, s2, z, [], s3, rest);
    AddNothing([Told(MessageBegin)] + told);
  }

  /** The name of a method and the space behind it. */
  lemma WordRead(s: Spot, t: seq<byte>, m: Method, rest: seq<byte>)
    requires s.f.state == ReqLine(StartReq) && Spells(t, MethodString(m))
    requires 2 * (s.seen + |t| + 1) <= HTTP_MAX_HEADER_SIZE
    ensures Tells(s, t + [SPACE], [Told(MessageBegin)], Spot(AfterMethod(Fresh(s.f), m), s.seen + |t| + 1), rest)
  {
    hide Tells, MethodString, MethodOf, Fresh, AfterMethod;
    WordFits(t, m);
    MethodExactly(t, m);
    hide Spells;
    MethodRead(s, t, rest);
  }

  lemma WordFits(t: seq<byte>, m: Method)
    requires Spells(t, MethodString(m))
    ensures |t| == |MethodString(m)| > 0 && SPACE !in t && t[0] != CR && t[0] != LF
  {
    LastGuess(m);
    hide MethodString;
    forall i | 0 <= i < |t| ensures t[i] > SPACE {
      Visible(m, i);
    }
  }

  lemma StatusLineRead(s: Spot, l: StartLine, rest: seq<byte>)
    requires l.StatusLine? && IsStart(l) && Expects(s.f, l) && 2 * (s.seen + |StartText(l)|) <= HTTP_MAX_HEADER_SIZE
    ensures Tells(s, StartText(l), StartEvents(l), Spot(AfterStart(s.f, l), s.seen + |StartText(l)|), rest)
  {
    hide Tells, Act, Quiet, IsNum, Digit, Bytes, IsReason;
    var x, y, z := VersionText(l.major, l.minor)[1..] + [SPACE], l.code + [SPACE], l.reason + [CR, LF];
    var f1 := Fresh(s.f).(state := ResLine(ResH));
    var f2 := f1.(major := Digit(l.major), minor := Digit(l.minor), state := ResLine(ResFirstStatusCode));
    var f3 := f2.(status := CodeValue(l.code), state := ResLine(ResStatusStart));
    var g := AfterStart(s.f, l);
    var s1 := Spot(f1, s.seen + 1);
    var s2, s3 := Spot(f2, s1.seen + |x|), Spot(f3, s1.seen + |x| + |y|);
    ResFirstActs(s.f);
    BeginTells(s, 72, f1, x + (y + (z + rest)));
    ResVersionQuiet(f1, l.major, l.minor, f2);
    QuietRuns(s1, x, f2, y + (z + rest));
    CodeQuiet(f2, l.code, f3);
    QuietRuns(s2, y, f3, z + rest);
    ReasonRead(s3, l.reason, g, rest);
    StatusPieces(s, s1, x, s2, y, s3, z, Bytes(Status, l.reason), Spot(g, s.seen + |StartText(l)|), rest);
    assert [72] + x + y + z == StartText(l);
  }

  lemma StatusPieces(s: Spot, s1: Spot, x: seq<byte>, s2: Spot, y: seq<byte>, s3: Spot, z: seq<byte>, told: seq<Event>,
          s4: Spot, rest: seq<byte>)
    requires Tells(s, [72], [Told(MessageBegin)], s1, x + (y + (z + rest)))
    requires Tells(s1, x, [], s2, y + (z + rest)) && Tells(s2, y, [], s3, z + rest) && Tells(s3, z, told, s4, rest)
    ensures Tells(s, [72] + x + y + z, [Told(MessageBegin)] + told, s4, rest)
  {
    hide Tells;
    var a := [Told(MessageBegin)];
    AddNothing(a);
    TellsThenTells(s, [72], a, s1, x, [], s2, y + (z + rest));
    TellsThenTells(s, [72] + x, a, s2, y, [], s3, z + rest);
    TellsThenTells(s, [72] + x + y, a, s3, z, told, s4, rest);
  }

  /** The first line: a message begins, its URL or its reason is handed over, and method, version and status are set. */
  lemma StartRead(s: Spot, l: StartLine, rest: seq<byte>)
    requires IsStart(l) && Expects(s.f, l) && 2 * (s.seen + |StartText(l)|) <= HTTP_MAX_HEADER_SIZE
    ensures Tells(s, StartText(l), StartEvents(l), Spot(AfterStart(s.f, l), s.seen + |StartText(l)|), rest)
  {
    hide Tells, IsStart, StartText, StartEvents, AfterStart;
    if l.RequestLine? {
      RequestLineRead(s, l, rest);
    } else {
      StatusLineRead(s, l, rest);
    }
  }
}
