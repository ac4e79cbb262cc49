/** Which header names and values the HTTP parser recognises, and what it takes from them. */
module HttpHeaders {

  import opened Base
  import opened HttpStates
  import opened HttpParser
  import opened HttpRuns
  import opened HttpMessages

  // ---------------------------------------------------------------------
  // Names
  // ---------------------------------------------------------------------

  const COLON: byte := 58

  function Chars(w: string): seq<int>
  {
    seq(|w|, i requires 0 <= i < |w| => w[i] as int)
  }

  /** A token in lower case. */
  function Lowered(t: seq<byte>): seq<int>
  {
    seq(|t|, i requires 0 <= i < |t| => Token(t[i]))
  }

  predicate IsToken(t: seq<byte>)
  {
    forall i :: 0 <= i < |t| ==> Token(t[i]) != 0
  }

  /** The matcher run over the characters of a name after its first. */
  function FoldName(h: HeaderState, i: nat, t: seq<byte>): (HeaderState, nat)
    decreases |t|
  {
    if |t| == 0 then (h, i)
    else
      var (h', i') := MatchName(h, i, Token(t[0]));
      FoldName(h', i', t[1..])
  }

  /** The word a matching state matches, and the state that says it matched. */
  function MatcherOf(h: HeaderState): Option<(string, HeaderState)>
  {
    match h
    case MatchingConnection => Some(("connection", Connection))
    case MatchingProxyConnection => Some(("proxy-connection", Connection))
    case MatchingContentLength => Some(("content-length", ContentLength))
    case MatchingTransferEncoding => Some(("transfer-encoding", TransferEncoding))
    case MatchingUpgrade => Some(("upgrade", Upgrade))
    case _ => None
  }

  lemma MatcherActs(h: HeaderState, i: nat, c: byte)
    requires MatcherOf(h).Some?
    ensures var (word, matched) := MatcherOf(h).value;
      |word| > 0 && MatchName(h, i, c) == (MatchWord(word, i + 1, c, h, matched, General), i + 1)
    ensures MatcherOf(MatcherOf(h).value.1).None?
    ensures MatchName(MatcherOf(h).value.1, i, c) == (General, i)
  {
  }

  lemma {:induction false} FoldGeneral(i: nat, t: seq<byte>)
    ensures FoldName(General, i, t) == (General, i)
    decreases |t|
  {
    if |t| > 0 {
      FoldGeneral(i, t[1..]);
    }
  }

  /**
   From the middle of a word: matched by exactly its rest, still matching on a beginning of it, given up on
   anything else.
   */
  lemma {:induction false} FoldWord(h: HeaderState, i: nat, t: seq<byte>)
    requires MatcherOf(h).Some? && i + 1 < |MatcherOf(h).value.0|
    ensures var (word, matched) := MatcherOf(h).value;
      FoldName(h, i, t).0 == if Lowered(t) == Chars(word)[i + 1..] then matched
                             else if Lowered(t) < Chars(word)[i + 1..] then h
                             else General
    decreases |t|
  {
    hide MatchName, MatcherOf, Token;
    var (word, matched) := MatcherOf(h).value;
    var rest := Chars(word)[i + 1..];
    if |t| > 0 {
      var c := Token(t[0]);
      MatcherActs(h, i, c);
      assert rest[0] == CharAt(word, i + 1) && rest[1..] == Chars(word)[i + 2..];
      assert Lowered(t)[0] == c && Lowered(t)[1..] == Lowered(t[1..]);
      assert Lowered(t) == [c] + Lowered(t[1..]) && rest == [rest[0]] + rest[1..];
      if c != rest[0] {
        FoldGeneral(i + 1, t[1..]);
      } else if i + 2 == |word| {
        if |t| > 1 {
          MatcherActs(h, i + 1, Token(t[1]));
          FoldGeneral(i + 1, t[2..]);
          assert t[1..][1..] == t[2..];
        }
      } else {
        FoldWord(h, i + 1, t[1..]);
      }
    } else {
      assert Lowered(t) == [];
    }
  }

  /** The state of the matcher after a whole name. */
  function NameState(name: seq<byte>): HeaderState
    requires |name| > 0
  {
    FoldName(FirstOfName(Token(name[0])), 0, name[1..]).0
  }

  lemma SameWord(t: seq<byte>, w: string)
    requires |t| > 0 && |w| > 0
    ensures Lowered(t) == Chars(w) <==> Token(t[0]) as int == w[0] as int && Lowered(t[1..]) == Chars(w)[1..]
  {
    SameTail(t, w, 0);
    assert Chars(w)[0..] == Chars(w);
  }

  /** A header is recognised exactly by its name, in any case. */
  lemma NameMatched(name: seq<byte>)
    requires |name| > 0
    ensures var h, l := NameState(name), Lowered(name);
      && (h.Connection? <==> l == Chars("connection") || l == Chars("proxy-connection"))
      && (h.ContentLength? <==> l == Chars("content-length"))
      && (h.TransferEncoding? <==> l == Chars("transfer-encoding"))
      && (h.Upgrade? <==> l == Chars("upgrade"))
  {
    hide FoldName, Token, Lowered;
    SameWord(name, "connection");
    SameWord(name, "proxy-connection");
    SameWord(name, "content-length");
    SameWord(name, "transfer-encoding");
    SameWord(name, "upgrade");
    var first := FirstOfName(Token(name[0]));
    if first.C? {
      NameWithC(name[1..]);
    } else if first.General? {
      FoldGeneral(0, name[1..]);
    } else {
      FoldWord(first, 0, name[1..]);
    }
  }

  /** After a first "c". */
  lemma NameWithC(t: seq<byte>)
    ensures var h, l := FoldName(C, 0, t).0, Lowered(t);
      && (h.Connection? <==> l == Chars("connection")[1..])
      && (h.ContentLength? <==> l == Chars("content-length")[1..])
      && !h.TransferEncoding? && !h.Upgrade?
  {
    hide Token, Lowered;
    if |t| == 0 {
      NoTail(t, "connection", 1);
      NoTail(t, "content-length", 1);
    } else {
      SameTail(t, "connection", 1);
      SameTail(t, "content-length", 1);
      if Token(t[0]) == 'o' as int {
        NameWithCo(t[1..]);
      } else {
        FoldGeneral(1, t[1..]);
      }
    }
  }

  lemma NoTail(t: seq<byte>, w: string, i: nat)
    requires i < |w| && |t| == 0
    ensures Lowered(t) != Chars(w)[i..]
  {
    assert |Lowered(t)| == 0 && |Chars(w)[i..]| > 0;
  }

  /** Equal tails have equal first characters and equal rests. */
  lemma SameTail(t: seq<byte>, w: string, i: nat)
    requires |t| > 0 && i < |w|
    ensures Lowered(t) == Chars(w)[i..] <==> Token(t[0]) as int == w[i] as int && Lowered(t[1..]) == Chars(w)[i + 1..]
  {
    hide Token;
    var l, r := Lowered(t), Chars(w)[i..];
    assert l == [Token(t[0]) as int] + Lowered(t[1..]) && r == [w[i] as int] + Chars(w)[i + 1..];
    if l == r {
      assert l[0] == r[0] && l[1..] == r[1..];
      assert l[1..] == Lowered(t[1..]) && r[1..] == Chars(w)[i + 1..];
    }
  }

  lemma NameWithCo(t: seq<byte>)
    ensures var h, l := FoldName(CO, 1, t).0, Lowered(t);
      && (h.Connection? <==> l == Chars("connection")[2..])
      && (h.ContentLength? <==> l == Chars("content-length")[2..])
      && !h.TransferEncoding? && !h.Upgrade?
  {
    hide Token, Lowered;
    if |t| == 0 {
      NoTail(t, "connection", 2);
      NoTail(t, "content-length", 2);
    } else {
      SameTail(t, "connection", 2);
      SameTail(t, "content-length", 2);
      if Token(t[0]) == 'n' as int {
        NameWithCon(t[1..]);
      } else {
        FoldGeneral(2, t[1..]);
      }
    }
  }

  lemma NameWithCon(t: seq<byte>)
    ensures var h, l := FoldName(CON, 2, t).0, Lowered(t);
      && (h.Connection? <==> l == Chars("connection")[3..])
      && (h.ContentLength? <==> l == Chars("content-length")[3..])
      && !h.TransferEncoding? && !h.Upgrade?
  {
    hide Token, Lowered;
    if |t| == 0 {
      NoTail(t, "connection", 3);
      NoTail(t, "content-length", 3);
    } else {
      SameTail(t, "connection", 3);
      SameTail(t, "content-length", 3);
      if Token(t[0]) == 'n' as int {
        FoldWord(MatchingConnection, 3, t[1..]);
      } else if Token(t[0]) == 't' as int {
        FoldWord(MatchingContentLength, 3, t[1..]);
      } else {
        FoldGeneral(3, t[1..]);
      }
    }
  }

  // ---------------------------------------------------------------------
  // Lines
  // ---------------------------------------------------------------------

  /** A byte of a name or value. */
  lemma KeptByte(s: Spot, data: seq<byte>, k: Kind)
    requires |data| > 0 && !TooLong(s) && ParsingHeader(s.f.state)
    requires var o := Act(s.f, data[0]); o.flow.Next? && |o.notes| == 0 && Collecting(o.f.state) == Some(k) && !o.reset
    ensures Run(s, data) == Join([Heard(k, data[0])], 1, Run(Spot(Act(s.f, data[0]).f, s.seen + 1), data[1..]))
  {
    hide Act;
    HeaderByte(s, data);
    assert Notes(Act(s.f, data[0]).notes) + [Heard(k, data[0])] == [Heard(k, data[0])];
  }

  lemma BytesFirst(k: Kind, t: seq<byte>)
    requires |t| > 0
    ensures Bytes(k, t) == [Heard(k, t[0])] + Bytes(k, t[1..])
  {
  }

  /** One byte handed over, and then the others. */
  lemma BytesJoin(k: Kind, t: seq<byte>, whole: Result, mid: Result, r: Result)
    requires |t| > 0 && whole == Join([Heard(k, t[0])], 1, mid) && mid == Join(Bytes(k, t[1..]), |t| - 1, r)
    ensures whole == Join(Bytes(k, t), |t|, r)
  {
    BytesFirst(k, t);
    JoinJoin([Heard(k, t[0])], 1, Bytes(k, t[1..]), |t| - 1, r);
  }

  lemma BytesNone(k: Kind)
    ensures Bytes(k, []) == []
  {
  }

  lemma AddNothing(a: seq<Event>)
    ensures a + [] == a && [] + a == a
  {
  }

  lemma NameActs(f: Fields, ch: byte)
    requires f.state.HeaderField? && Token(ch) != 0
    ensures var (h, i) := MatchName(f.header, f.index, Token(ch));
      Act(f, ch) == Go(f.(header := h, index := i))
  {
    hide MatchName, Token;
  }

  lemma {:induction false} NameBytes(s: Spot, t: seq<byte>, rest: seq<byte>)
    requires s.f.state.HeaderField? && IsToken(t) && 2 * (s.seen + |t|) <= HTTP_MAX_HEADER_SIZE
    ensures var (h, i) := FoldName(s.f.header, s.f.index, t);
      Run(s, t + rest) == Join(Bytes(Field, t), |t|, Run(Spot(s.f.(header := h, index := i), s.seen + |t|), rest))
    decreases |t|
  {
    hide Run, Act, MatchName, Token;
    if |t| == 0 {
      assert t + rest == rest && Bytes(Field, t) == [];
      JoinNothing(Run(s, rest));
    } else {
      var data := t + rest;
      assert data[0] == t[0] && data[1..] == t[1..] + rest;
      NameActs(s.f, t[0]);
      KeptByte(s, data, Field);
      var (h, i) := MatchName(s.f.header, s.f.index, Token(t[0]));
      NameBytes(Spot(s.f.(header := h, index := i), s.seen + 1), t[1..], rest);
      BytesFirst(Field, t);
      var (h', i') := FoldName(h, i, t[1..]);
      JoinJoin([Heard(Field, t[0])], 1, Bytes(Field, t[1..]), |t| - 1,
          Run(Spot(s.f.(header := h', index := i'), s.seen + |t|), rest));
    }
  }

  lemma FirstNameActs(f: Fields, ch: byte)
    requires f.state == Head(HeaderFieldStart) && Token(ch) != 0
    ensures ch != CR && ch != LF
    ensures Act(f, ch) == Move(f.(index := 0, header := FirstOfName(Token(ch))), HeaderField)
  {
    assert Token(CR) == 0 && Token(LF) == 0;
    hide Token, FirstOfName;
  }

  lemma ColonActs(f: Fields)
    requires f.state.HeaderField?
    ensures Act(f, COLON) == Move(f, Head(HeaderValueDiscardWs))
  {
  }

  /** The rest of a name and its colon. */
  lemma NameToColon(s: Spot, t: seq<byte>, rest: seq<byte>)
    requires s.f.state.HeaderField? && IsToken(t) && 2 * (s.seen + |t| + 1) <= HTTP_MAX_HEADER_SIZE
    ensures var (h, i) := FoldName(s.f.header, s.f.index, t);
      Run(s, t + ([COLON] + rest))
      == Join(Bytes(Field, t), |t| + 1, Run(Spot(s.f.(state := Head(HeaderValueDiscardWs), header := h, index := i),
          s.seen + |t| + 1), rest))
  {
    hide Run, Act, Token, Bytes, FoldName;
    var colon := [COLON] + rest;
    NameBytes(s, t, colon);
    var (h, i) := FoldName(s.f.header, s.f.index, t);
    var s2 := Spot(s.f.(header := h, index := i), s.seen + |t|);
    ColonActs(s2.f);
    QuietByte(s2, colon);
    assert colon[1..] == rest;
    JoinJoin(Bytes(Field, t), |t|, [], 1, Run(Spot(s2.f.(state := Head(HeaderValueDiscardWs)), s2.seen + 1), rest));
    AddNothing(Bytes(Field, t));
  }

  /** A header's name and its colon: the name is handed over, and the matcher says which header it is. */
  lemma HeaderName(s: Spot, name: seq<byte>, rest: seq<byte>, i: nat)
    requires s.f.state == Head(HeaderFieldStart) && |name| > 0 && IsToken(name)
        && 2 * (s.seen + |name| + 1) <= HTTP_MAX_HEADER_SIZE
    requires i == FoldName(FirstOfName(Token(name[0])), 0, name[1..]).1
    ensures Run(s, name + ([COLON] + rest))
         == Join(Bytes(Field, name), |name| + 1,
                 Run(Spot(s.f.(state := Head(HeaderValueDiscardWs), header := NameState(name), index := i),
                     s.seen + |name| + 1), rest))
  {
    hide Run, Act, Token, FirstOfName, Bytes, FoldName, TooLong;
    var data := name + ([COLON] + rest);
    assert data[0] == name[0] && data[1..] == name[1..] + ([COLON] + rest);
    FirstNameActs(s.f, name[0]);
    Fits(s, 1);
    KeptByte(s, data, Field);
    var s1 := Spot(s.f.(index := 0, header := FirstOfName(Token(name[0])), state := HeaderField), s.seen + 1);
    NameToColon(s1, name[1..], rest);
    JoinJoin([Heard(Field, name[0])], 1, Bytes(Field, name[1..]), |name|,
             Run(Spot(s1.f.(state := Head(HeaderValueDiscardWs), header := NameState(name), index := i),
                 s.seen + |name| + 1), rest));
    BytesFirst(Field, name);
  }

  lemma Fits(s: Spot, n: nat)
    requires n > 0 && 2 * (s.seen + n) <= HTTP_MAX_HEADER_SIZE
    ensures !TooLong(s)
  {
  }

  // --- Content-Length

  /** Digits, and spaces among them. */
  predicate IsNumeral(t: seq<byte>)
  {
    forall i :: 0 <= i < |t| ==> IsNum(t[i]) || Is(t[i], ' ')
  }

  /** The digits without the spaces. */
  function Digits(t: seq<byte>): seq<nat>
    requires IsNumeral(t)
  {
    if |t| == 0 then [] else if IsNum(t[0]) then [Digit(t[0])] + Digits(t[1..]) else Digits(t[1..])
  }

  predicate IsBlank(t: seq<byte>)
  {
    forall i :: 0 <= i < |t| ==> Is(t[i], ' ') || t[i] == 9
  }

  lemma BlankActs(f: Fields, ch: byte)
    requires f.state == Head(HeaderValueDiscardWs) && (Is(ch, ' ') || ch == 9)
    ensures Act(f, ch) == Go(f)
  {
  }

  lemma {:induction false} Blanks(s: Spot, t: seq<byte>, rest: seq<byte>)
    requires s.f.state == Head(HeaderValueDiscardWs) && IsBlank(t) && 2 * (s.seen + |t|) <= HTTP_MAX_HEADER_SIZE
    ensures Run(s, t + rest) == Join([], |t|, Run(Spot(s.f, s.seen + |t|), rest))
    decreases |t|
  {
    hide Run, Act;
    if |t| == 0 {
      assert t + rest == rest;
      JoinNothing(Run(s, rest));
    } else {
      var data := t + rest;
      assert data[0] == t[0] && data[1..] == t[1..] + rest;
      BlankActs(s.f, t[0]);
      QuietByte(s, data);
      Blanks(Spot(s.f, s.seen + 1), t[1..], rest);
      JoinJoin([], 1, [], |t| - 1, Run(Spot(s.f, s.seen + |t|), rest));
    }
  }

  lemma LengthDigitActs(f: Fields, ch: byte)
    requires f.state.HeaderValue? && f.header.ContentLength? && IsNum(ch) && f.length <= (ULLONG_MAX - 10) / 10
    ensures Act(f, ch) == Go(f.(length := f.length * 10 + Digit(ch)))
  {
    NoWrap(10, f.length, Digit(ch));
  }

  lemma LengthSpaceActs(f: Fields, ch: byte)
    requires f.state.HeaderValue? && f.header.ContentLength? && Is(ch, ' ')
    ensures Act(f, ch) == Go(f)
  {
  }

  lemma DigitsStep(t: seq<byte>, from: nat)
    requires |t| > 0 && IsNumeral(t) && IsNum(t[0]) && Accumulate(10, Digits(t), from).Some?
    ensures from <= (ULLONG_MAX - 10) / 10
    ensures Accumulate(10, Digits(t), from) == Accumulate(10, Digits(t[1..]), from * 10 + Digit(t[0]))
  {
    hide Accumulate;
    assert Digits(t)[0] == Digit(t[0]) && Digits(t)[1..] == Digits(t[1..]);
    AccumulateStep(10, Digits(t), from);
  }

  lemma LengthDigit(s: Spot, data: seq<byte>, d: nat)
    requires s.f.state.HeaderValue? && s.f.header.ContentLength? && 2 * (s.seen + 1) <= HTTP_MAX_HEADER_SIZE
    requires |data| > 0 && IsNum(data[0]) && Digit(data[0]) == d && s.f.length <= (ULLONG_MAX - 10) / 10
    ensures Run(s, data) == Join([Heard(Value, data[0])], 1,
        Run(Spot(s.f.(length := s.f.length * 10 + d), s.seen + 1), data[1..]))
  {
    hide Run, Act, IsNum;
    LengthDigitActs(s.f, data[0]);
    KeptByte(s, data, Value);
  }

  lemma LengthSpace(s: Spot, data: seq<byte>)
    requires s.f.state.HeaderValue? && s.f.header.ContentLength? && 2 * (s.seen + 1) <= HTTP_MAX_HEADER_SIZE
    requires |data| > 0 && Is(data[0], ' ')
    ensures Run(s, data) == Join([Heard(Value, data[0])], 1, Run(Spot(s.f, s.seen + 1), data[1..]))
  {
    hide Run, Act, Is;
    LengthSpaceActs(s.f, data[0]);
    KeptByte(s, data, Value);
  }

  /** The digits of a length after its first: v is what they add up to. */
  lemma {:induction false} LengthDigits(s: Spot, t: seq<byte>, rest: seq<byte>, v: nat)
    requires s.f.state.HeaderValue? && s.f.header.ContentLength? && 2 * (s.seen + |t|) <= HTTP_MAX_HEADER_SIZE
    requires IsNumeral(t) && Accumulate(10, Digits(t), s.f.length) == Some(v)
    ensures Run(s, t + rest) == Join(Bytes(Value, t), |t|, Run(Spot(s.f.(length := v), s.seen + |t|), rest))
    decreases |t|
  {
    if |t| == 0 {
      hide Run;
      assert t + rest == rest && t == [];
      BytesNone(Value);
      JoinNothing(Run(s, rest));
    } else {
      hide Run, IsNum, Bytes, Digit, Accumulate, Join, TooLong;
      FirstAndRest(t, rest);
      var n := s.f.length;
      if IsNum(t[0]) {
        DigitsStep(t, n);
        LengthDigit(s, t + rest, Digit(t[0]));
        n := n * 10 + Digit(t[0]);
      } else {
        LengthSpace(s, t + rest);
      }
      hide Digits;
      var s' := Spot(s.f.(length := n), s.seen + 1);
      LengthDigits(s', t[1..], rest, v);
      assert s'.f.(length := v) == s.f.(length := v);
      BytesJoin(Value, t, Run(s, t + rest), Run(s', t[1..] + rest), Run(Spot(s.f.(length := v), s.seen + |t|), rest));
    }
  }

  lemma FirstAndRest(t: seq<byte>, rest: seq<byte>)
    requires |t| > 0
    ensures (t + rest)[0] == t[0] && (t + rest)[1..] == t[1..] + rest
  {
  }

  lemma LineEndActs(f: Fields)
    requires f.state.HeaderValue?
    ensures Act(f, CR) == Move(f, Head(HeaderAlmostDone))
    ensures Act(f.(state := Head(HeaderAlmostDone)), LF) == Move(f, Head(HeaderValueLws))
  {
  }

  /** CR LF after a value. */
  lemma ValueLineEnds(s: Spot, rest: seq<byte>)
    requires s.f.state.HeaderValue? && 2 * (s.seen + 2) <= HTTP_MAX_HEADER_SIZE
    ensures Run(s, [CR, LF] + rest) == Join([], 2, Run(Spot(s.f.(state := Head(HeaderValueLws)), s.seen + 2), rest))
  {
    hide Run, Act;
    var data := [CR, LF] + rest;
    LineEndActs(s.f);
    assert data[0] == CR && data[1..][0] == LF && data[1..][1..] == rest;
    var s1 := Spot(s.f.(state := Head(HeaderAlmostDone)), s.seen + 1);
    var s2 := Spot(s.f.(state := Head(HeaderValueLws)), s.seen + 2);
    QuietByte(s, data);
    QuietByte(s1, data[1..]);
    JoinJoin([], 1, [], 1, Run(s2, rest));
  }

  lemma FirstLengthActs(f: Fields, ch: byte)
    requires f.state == Head(HeaderValueDiscardWs) && f.header.ContentLength? && !f.flags.contentLength && IsNum(ch)
    ensures Act(f, ch) == Go(f.(state := HeaderValue, index := 0, flags := f.flags.(contentLength := true),
        length := Digit(ch)))
  {
  }

  /** The digits after the first, and the end of the line. */
  lemma LengthToEnd(s: Spot, t: seq<byte>, rest: seq<byte>, v: nat)
    requires s.f.state.HeaderValue? && s.f.header.ContentLength? && 2 * (s.seen + |t| + 2) <= HTTP_MAX_HEADER_SIZE
    requires IsNumeral(t) && Accumulate(10, Digits(t), s.f.length) == Some(v)
    ensures Run(s, t + ([CR, LF] + rest))
         == Join(Bytes(Value, t), |t| + 2, Run(Spot(s.f.(state := Head(HeaderValueLws), length := v), s.seen + |t| + 2),
             rest))
  {
    hide Run, Act, Bytes, IsNum, Accumulate, Digits;
    LengthDigits(s, t, [CR, LF] + rest, v);
    var s3 := Spot(s.f.(length := v), s.seen + |t|);
    ValueLineEnds(s3, rest);
    JoinJoin(Bytes(Value, t), |t|, [], 2, Run(Spot(s3.f.(state := Head(HeaderValueLws)), s3.seen + 2), rest));
    AddNothing(Bytes(Value, t));
  }

  lemma LengthIs(t: seq<byte>)
    requires |t| > 0 && IsNum(t[0]) && IsNumeral(t) && Accumulate(10, Digits(t), 0).Some?
    ensures Accumulate(10, Digits(t[1..]), Digit(t[0])) == Some(Numeral(10, Digits(t), 0))
        && Numeral(10, Digits(t), 0) < ULLONG_MAX
  {
    hide Accumulate, IsNum;
    DigitsStep(t, 0);
    DigitsSmall(t);
    AccumulateExactly(10, Digits(t), 0);
  }

  /** The first digit of a length, and the rest of the line. */
  lemma LengthFromFirst(s: Spot, t: seq<byte>, rest: seq<byte>)
    requires s.f.state == Head(HeaderValueDiscardWs) && s.f.header.ContentLength? && !s.f.flags.contentLength
    requires |t| > 0 && IsNum(t[0]) && IsNumeral(t) && Accumulate(10, Digits(t), 0).Some?
        && 2 * (s.seen + |t| + 2) <= HTTP_MAX_HEADER_SIZE
    ensures Run(s, t + ([CR, LF] + rest))
         == Join(Bytes(Value, t), |t| + 2,
                 Run(Spot(s.f.(state := Head(HeaderValueLws), index := 0, flags := s.f.flags.(contentLength := true),
                               length := Numeral(10, Digits(t), 0)), s.seen + |t| + 2), rest))
  {
    hide Run, Act, Bytes, IsNum, Accumulate, Digits, Numeral;
    var data := t + ([CR, LF] + rest);
    assert data[0] == t[0] && data[1..] == t[1..] + ([CR, LF] + rest);
    FirstLengthActs(s.f, t[0]);
    KeptByte(s, data, Value);
    LengthIs(t);
    var s2 := Spot(s.f.(state := HeaderValue, index := 0, flags := s.f.flags.(contentLength := true),
        length := Digit(t[0])), s.seen + 1);
    LengthToEnd(s2, t[1..], rest, Numeral(10, Digits(t), 0));
    JoinJoin([Heard(Value, t[0])], 1, Bytes(Value, t[1..]), |t| + 1,
             Run(Spot(s2.f.(state := Head(HeaderValueLws), length := Numeral(10, Digits(t), 0)), s.seen + |t| + 2),
                 rest));
    BytesFirst(Value, t);
  }

  /** The value of a Content-Length header: the length is the value of its digits, whatever spaces stand among them. */
  lemma LengthValue(s: Spot, blanks: seq<byte>, t: seq<byte>, rest: seq<byte>)
    requires s.f.state == Head(HeaderValueDiscardWs) && s.f.header.ContentLength? && !s.f.flags.contentLength
    requires IsBlank(blanks) && |t| > 0 && IsNum(t[0]) && IsNumeral(t) && Accumulate(10, Digits(t), 0).Some?
    requires 2 * (s.seen + |blanks| + |t| + 2) <= HTTP_MAX_HEADER_SIZE
    ensures Run(s, blanks + (t + ([CR, LF] + rest)))
         == Join(Bytes(Value, t), |blanks| + |t| + 2,
                 Run(Spot(s.f.(state := Head(HeaderValueLws), index := 0, flags := s.f.flags.(contentLength := true),
                               length := Numeral(10, Digits(t), 0)), s.seen + |blanks| + |t| + 2), rest))
  {
    hide Run, Act, Bytes, IsNum, Accumulate, Digits, Numeral;
    Blanks(s, blanks, t + ([CR, LF] + rest));
    LengthFromFirst(Spot(s.f, s.seen + |blanks|), t, rest);
    JoinJoin([], |blanks|, Bytes(Value, t), |t| + 2,
             Run(Spot(s.f.(state := Head(HeaderValueLws), index := 0, flags := s.f.flags.(contentLength := true),
                           length := Numeral(10, Digits(t), 0)), s.seen + |blanks| + |t| + 2), rest));
    AddNothing(Bytes(Value, t));
  }

  lemma {:induction false} DigitsSmall(t: seq<byte>)
    requires IsNumeral(t)
    ensures forall i :: 0 <= i < |Digits(t)| ==> Digits(t)[i] < 10
    decreases |t|
  {
    if |t| > 0 {
      DigitsSmall(t[1..]);
    }
  }
}
