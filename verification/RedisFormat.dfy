/**
 The command formatter, and its agreement with the reply grammar: a formatted command reads
 back as an array of exactly its arguments.
 */
module RedisFormat {

  import opened Base
  import opened RedisProtocol
  import RedisReader

  const SPACE: byte := 32
  const PERCENT: byte := 37
  const LETTER_S: byte := 115
  const LETTER_B: byte := 98

  // ---------------------------------------------------------------------
  // Numbers
  // ---------------------------------------------------------------------

  /** %d and %zu of a number that is not negative. */
  function Decimal(n: nat): (s: seq<byte>)
    ensures |s| > 0
  {
    if n < 10 then [ZERO + n] else Decimal(n / 10) + [ZERO + n % 10]
  }

  method IntLen(n: int) returns (len: nat)
    requires -INT_MAX <= n <= INT_MAX
    ensures len == |Decimal(if n < 0 then -n else n)| + if n < 0 then 1 else 0
  {
    var i := n;
    len := 0;
    if i < 0 {
      len := len + 1;
      i := -i;
    }
    len := len + 1;
    var rest := i / 10;
    while rest != 0
      invariant rest >= 0
      invariant len + (if rest == 0 then 0 else |Decimal(rest)|)
                == |Decimal(if n < 0 then -n else n)| + if n < 0 then 1 else 0
    {
      len := len + 1;
      rest := rest / 10;
    }
  }

  predicate AllDigits(s: seq<byte>)
  {
    forall i :: 0 <= i < |s| ==> ZERO <= s[i] < ZERO + 10
  }

  lemma {:induction false} DecimalDigits(n: nat)
    ensures AllDigits(Decimal(n))
  {
    if n >= 10 {
      DecimalDigits(n / 10);
    }
  }

  /** Reading the digits of n after v gives v followed by n. */
  lemma {:induction false} DigitsRead(n: nat, rest: seq<byte>)
    requires n <= LLONG_MAX
    ensures ReadDigits(Decimal(n) + rest, 0) == ReadDigits(rest, n)
  {
    if n < 10 {
      assert ([ZERO + n] + rest)[1..] == rest;
    } else {
      var d := [ZERO + n % 10];
      assert Decimal(n) + rest == Decimal(n / 10) + (d + rest);
      DigitsRead(n / 10, d + rest);
      assert (d + rest)[1..] == rest;
    }
  }

  lemma NumberRead(n: nat)
    requires n <= LLONG_MAX
    ensures ReadNumber(Decimal(n)) == Some(n)
  {
    DecimalDigits(n);
    DigitsRead(n, []);
    assert Decimal(n) + [] == Decimal(n);
  }

  // ---------------------------------------------------------------------
  // The protocol form of a command
  // ---------------------------------------------------------------------

  const NEWLINE: seq<byte> := [CR, LF]

  function NumberLine(mark: byte, n: nat): seq<byte>
  {
    [mark] + Decimal(n) + NEWLINE
  }

  function FormatArg(arg: seq<byte>): seq<byte>
  {
    NumberLine(DOLLAR, |arg|) + arg + NEWLINE
  }

  /** The protocol form of the arguments from i on. */
  function FormatFrom(args: seq<seq<byte>>, i: nat): seq<byte>
    requires i <= |args|
    decreases |args| - i
  {
    if i == |args| then [] else FormatArg(args[i]) + FormatFrom(args, i + 1)
  }

  function Format(args: seq<seq<byte>>): seq<byte>
  {
    NumberLine(STAR, |args|) + FormatFrom(args, 0)
  }

  /** memcpy into the command buffer. */
  method Put(cmd: array<byte>, pos: nat, bytes: seq<byte>)
    requires pos + |bytes| <= cmd.Length
    modifies cmd
    ensures cmd[..pos + |bytes|] == old(cmd[..pos]) + bytes
  {
    var i := 0;
    while i < |bytes|
      invariant 0 <= i <= |bytes|
      invariant cmd[..pos + i] == old(cmd[..pos]) + bytes[..i]
    {
      cmd[pos + i] := bytes[i];
      i := i + 1;
    }
  }

  /** sprintf of a mark, a number and a newline; it also writes a terminating NUL. */
  method PutLine(cmd: array<byte>, pos: nat, mark: byte, n: nat) returns (written: nat)
    requires pos + |NumberLine(mark, n)| < cmd.Length
    modifies cmd
    ensures written == |NumberLine(mark, n)|
    ensures cmd[..pos + written] == old(cmd[..pos]) + NumberLine(mark, n)
  {
    written := |NumberLine(mark, n)|;
    Put(cmd, pos, NumberLine(mark, n));
    cmd[pos + written] := NUL;
  }

  /** The second half of both formatters: write the protocol form into a buffer of the computed size. */
  method BuildCommand(args: seq<seq<byte>>, totlen: nat) returns (cmd: array<byte>)
    requires totlen == |Format(args)|
    ensures fresh(cmd) && cmd.Length == totlen + 1 && cmd[..] == Format(args) + [NUL]
  {
    cmd := new byte[totlen + 1](_ => NUL);
    var pos: nat := PutLine(cmd, 0, STAR, |args|);
    ghost var all := Format(args);
    hide NumberLine, Format;
    var j := 0;
    while j < |args|
      invariant 0 <= j <= |args| && pos + |FormatFrom(args, j)| == totlen
      invariant cmd[..pos] + FormatFrom(args, j) == all
    {
      ghost var done := cmd[..pos];
      Regroup(done, FormatArg(args[j]), FormatFrom(args, j + 1));
      pos := PutArg(cmd, pos, args[j]);
      j := j + 1;
    }
    assert pos == totlen;
    assert cmd[..totlen] == all;
    cmd[totlen] := NUL;
  }

  lemma Regroup(x: seq<byte>, y: seq<byte>, z: seq<byte>)
    ensures x + (y + z) == x + y + z
  {
  }

  method PutArg(cmd: array<byte>, start: nat, arg: seq<byte>) returns (pos: nat)
    requires start + |FormatArg(arg)| < cmd.Length
    modifies cmd
    ensures pos == start + |FormatArg(arg)|
    ensures cmd[..pos] == old(cmd[..start]) + FormatArg(arg)
  {
    hide NumberLine, Decimal;
    pos := start;
    var n := PutLine(cmd, pos, DOLLAR, |arg|);
    pos := pos + n;
    Put(cmd, pos, arg);
    pos := pos + |arg|;
    Put(cmd, pos, NEWLINE);
    pos := pos + 2;
  }

  /** redisFormatCommandArgv: exactly totlen bytes and a NUL. */
  method FormatCommandArgv(args: seq<seq<byte>>) returns (cmd: array<byte>, totlen: nat)
    requires |args| <= INT_MAX && |Format(args)| <= INT_MAX
    ensures fresh(cmd) && totlen == |Format(args)| && cmd.Length == totlen + 1
    ensures cmd[..] == Format(args) + [NUL]
  {
    var n := IntLen(|args|);
    totlen := 1 + n + 2;
    var j := 0;
    while j < |args|
      invariant 0 <= j <= |args| && totlen + |FormatFrom(args, j)| == |Format(args)|
    {
      n := IntLen(|args[j]|);
      totlen := totlen + (1 + n + 2 + |args[j]| + 2);
      j := j + 1;
    }
    cmd := BuildCommand(args, totlen);
  }

  // ---------------------------------------------------------------------
  // Round trip
  // ---------------------------------------------------------------------

  function Texts(args: seq<seq<byte>>): seq<Reply>
  {
    seq(|args|, i requires 0 <= i < |args| => Text(TString, args[i]))
  }

  /** A line of digits is found and read. */
  lemma LineReads(n: nat, u: seq<byte>)
    requires n <= LLONG_MAX
    ensures var s := Decimal(n) + NEWLINE + u;
            var k := |Decimal(n)|;
            FindNewline(s) == Some(k) && ReadNumber(s[..k]) == Some(n) && s[k + 2..] == u
  {
    DecimalDigits(n);
    NumberRead(n);
    var s, k := Decimal(n) + NEWLINE + u, |Decimal(n)|;
    assert s[..k] == Decimal(n);
    assert NewlineAt(s, k);
    forall i | 0 <= i < k ensures !NewlineAt(s, i) {
      assert s[i] == Decimal(n)[i];
    }
  }

  lemma BulkReads(s: seq<byte>, k: nat, arg: seq<byte>, u: seq<byte>)
    requires FindNewline(s) == Some(k) && ReadNumber(s[..k]) == Some(|arg|)
    requires s[k + 2..] == arg + NEWLINE + u
    ensures ParseBulk(s) == Item(Text(TString, arg), u)
  {
    hide FindNewline, ReadNumber;
    var n, rest := |arg|, s[k + 2..];
    assert s[k + 2..k + 2 + n] == rest[..n] == arg;
    assert s[k + 2 + n + 2..] == rest[n + 2..] == u;
  }

  lemma ArgReads(arg: seq<byte>, u: seq<byte>, level: nat)
    requires |arg| <= LLONG_MAX && level <= MAX_LEVEL
    ensures ParseItem(FormatArg(arg) + u, level) == Item(Text(TString, arg), u)
  {
    hide FindNewline, ReadNumber, Decimal, ParseBulk;
    assert FormatArg(arg) == NumberLine(DOLLAR, |arg|) + (arg + NEWLINE);
    var n, rest := |arg|, arg + NEWLINE + u;
    var s := Decimal(n) + NEWLINE + rest;
    MarkedLine(DOLLAR, n, arg + NEWLINE, u);
    LineReads(n, rest);
    BulkReads(s, |Decimal(n)|, arg, u);
  }

  /** A line in front of some bytes starts with its mark and goes on with the number. */
  lemma MarkedLine(mark: byte, n: nat, x: seq<byte>, u: seq<byte>)
    ensures var t := NumberLine(mark, n) + x + u;
            t[0] == mark && t[1..] == Decimal(n) + NEWLINE + (x + u)
  {
    hide Decimal;
  }

  /** The arguments from i on read as the remaining elements. */
  lemma {:induction false} ArgsRead(args: seq<seq<byte>>, i: nat, level: nat, u: seq<byte>)
    requires i <= |args| && level <= MAX_LEVEL && forall j :: 0 <= j < |args| ==> |args[j]| <= LLONG_MAX
    ensures ParseItems(FormatFrom(args, i) + u, |args| - i, level, Texts(args)[..i]) == Item(Array(Texts(args)), u)
    decreases |args| - i
  {
    hide FormatArg, ParseItem;
    if i == |args| {
      assert FormatFrom(args, i) + u == u;
      assert Texts(args)[..i] == Texts(args);
    } else {
      var rest := FormatFrom(args, i + 1) + u;
      Regroup(FormatArg(args[i]), FormatFrom(args, i + 1), u);
      ArgReads(args[i], rest, level);
      assert Texts(args)[..i] + [Text(TString, args[i])] == Texts(args)[..i + 1];
      ArgsRead(args, i + 1, level, u);
    }
  }

  /** A formatted command reads back as the array of its arguments, binary content included. */
  lemma RoundTrip(args: seq<seq<byte>>, u: seq<byte>)
    requires |args| <= INT_MAX && forall j :: 0 <= j < |args| ==> |args[j]| <= LLONG_MAX
    ensures ParseItem(Format(args) + u, 0) == Item(Array(Texts(args)), u)
  {
    hide FindNewline, ReadNumber, Decimal, ParseItems, FormatFrom;
    var n, rest := |args|, FormatFrom(args, 0) + u;
    MarkedLine(STAR, n, FormatFrom(args, 0), u);
    LineReads(n, rest);
    ArrayReads(Decimal(n) + NEWLINE + rest, |Decimal(n)|, n);
    ArgsRead(args, 0, 1, u);
    assert Texts(args)[..0] == [];
    var t := Format(args) + u;
    assert t[0] == STAR && t[1..] == Decimal(n) + NEWLINE + rest;
    assert ParseTyped(TArray, t[1..], 0) == Item(Array(Texts(args)), u);
    assert ParseItem(t, 0) == ParseTyped(TArray, t[1..], 0);
  }

  lemma ArrayReads(s: seq<byte>, k: nat, n: nat)
    requires FindNewline(s) == Some(k) && ReadNumber(s[..k]) == Some(n) && n <= INT_MAX
    ensures k + 2 <= |s| && ParseTyped(TArray, s, 0) == ParseItems(s[k + 2..], n, 1, [])
  {
    hide FindNewline, ReadNumber, ParseItems;
  }

  /** Every command as the reply it reads back as. */
  function Echoes(commands: seq<seq<seq<byte>>>): seq<Reply>
  {
    seq(|commands|, i requires 0 <= i < |commands| => Array(Texts(commands[i])))
  }

  lemma StreamStep(u: seq<byte>, r: Reply, rest: seq<byte>)
    requires ParseItem(u, 0) == Item(r, rest)
    ensures Stream(u) == Outcome([r] + Stream(rest).replies, Stream(rest).error)
  {
    hide ParseItem;
  }

  lemma NothingStreamed()
    ensures Stream([]) == Outcome([], None)
  {
  }

  /** A pipeline of formatted commands is a stream of exactly those commands. */
  lemma {:induction false} PipelineRoundTrip(commands: seq<seq<seq<byte>>>)
    requires forall i :: 0 <= i < |commands| ==> Sized(commands[i])
    ensures Stream(FormatAll(commands)) == Outcome(Echoes(commands), None)
  {
    hide Stream, Texts, Format, Sized, ParseItem;
    if |commands| == 0 {
      NothingStreamed();
    } else {
      var c, rest := commands[0], commands[1..];
      SizedRoundTrip(c, FormatAll(rest));
      PipelineRoundTrip(rest);
      StreamStep(FormatAll(commands), Array(Texts(c)), FormatAll(rest));
      assert Echoes(commands) == [Array(Texts(c))] + Echoes(rest);
    }
  }

  lemma SizedRoundTrip(args: seq<seq<byte>>, u: seq<byte>)
    requires Sized(args)
    ensures ParseItem(Format(args) + u, 0) == Item(Array(Texts(args)), u)
  {
    hide ParseItem, Format, Texts;
    RoundTrip(args, u);
  }

  /** The reader gives a formatted command back under any fragmentation: one object, the array of its arguments. */
  method ReadCommandBack(args: seq<seq<byte>>, fragments: seq<seq<byte>>)
    returns (heap: seq<RedisReader.Object>, out: seq<RedisReader.Pointer>, error: Option<Error>)
    requires Sized(args) && RedisReader.Flatten(fragments) == Format(args)
    ensures error == None && |out| == 1 && RedisReader.Denotes(heap, out[0], |heap|, Array(Texts(args)))
  {
    RoundTrip(args, []);
    assert Format(args) + [] == Format(args);
    assert ParseItem([], 0) == NeedMore;
    assert Stream(Format(args)) == Outcome([Array(Texts(args))], None);
    hide RedisReader.Flatten, Format, ParseItem, RedisReader.Denotes, Stream;
    heap, out, error := RedisReader.ReadFragments(fragments);
  }

  predicate Sized(args: seq<seq<byte>>)
  {
    |args| <= INT_MAX && forall j :: 0 <= j < |args| ==> |args[j]| <= LLONG_MAX
  }

  function FormatAll(commands: seq<seq<seq<byte>>>): seq<byte>
  {
    if |commands| == 0 then [] else Format(commands[0]) + FormatAll(commands[1..])
  }

  // ---------------------------------------------------------------------
  // redisvFormatCommand
  // ---------------------------------------------------------------------

  /** One unit of a format string: a blank, or something that contributes bytes to the current argument. */
  datatype Piece = Blank | Bytes(bytes: seq<byte>)

  /** strlen's view of an argument. */
  function UpToNul(s: seq<byte>): seq<byte>
  {
    if |s| == 0 || s[0] == NUL then [] else [s[0]] + UpToNul(s[1..])
  }

  predicate IsDirective(format: seq<byte>)
  {
    |format| >= 2 && format[0] == PERCENT
  }

  /** Only %s, %b and %% occur, and there is an argument for each of the first two. */
  predicate WellFormed(format: seq<byte>, args: seq<seq<byte>>)
  {
    if |format| == 0 then true
    else if !IsDirective(format) then WellFormed(format[1..], args)
    else if format[1] == PERCENT then WellFormed(format[2..], args)
    else (format[1] == LETTER_S || format[1] == LETTER_B) && |args| > 0 && WellFormed(format[2..], args[1..])
  }

  /** The pieces of a format string with its arguments filled in. A final % stands for itself. */
  function Pieces(format: seq<byte>, args: seq<seq<byte>>): seq<Piece>
    requires WellFormed(format, args)
  {
    if |format| == 0 then []
    else if !IsDirective(format) then
      [if format[0] == SPACE then Blank else Bytes([format[0]])] + Pieces(format[1..], args)
    else if format[1] == PERCENT then [Bytes([PERCENT])] + Pieces(format[2..], args)
    else [Bytes(if format[1] == LETTER_S then UpToNul(args[0]) else args[0])] + Pieces(format[2..], args[1..])
  }

  /** The words: maximal runs of pieces without a blank. A run of pieces is a word even if it has no bytes. */
  function Words(pieces: seq<Piece>): seq<seq<Piece>>
  {
    if |pieces| == 0 then []
    else
      var n := |pieces| - 1;
      var words := Words(pieces[..n]);
      if pieces[n].Blank? then words
      else if n == 0 || pieces[n - 1].Blank? then words + [[pieces[n]]]
      else if |words| == 0 then [[pieces[n]]]
      else words[..|words| - 1] + [words[|words| - 1] + [pieces[n]]]
  }

  function Concat(word: seq<Piece>): seq<byte>
  {
    if |word| == 0 then []
    else Concat(word[..|word| - 1]) + match word[|word| - 1] case Blank => [] case Bytes(b) => b
  }

  /** The arguments that a format string and its parameters stand for. */
  function Arguments(format: seq<byte>, args: seq<seq<byte>>): seq<seq<byte>>
    requires WellFormed(format, args)
  {
    ConcatAll(Words(Pieces(format, args)))
  }

  function ConcatAll(words: seq<seq<Piece>>): seq<seq<byte>>
  {
    seq(|words|, i requires 0 <= i < |words| => Concat(words[i]))
  }

  lemma WordsSnoc(p: seq<Piece>, x: Piece)
    ensures Words(p + [x]) ==
            if x.Blank? then Words(p)
            else if |p| == 0 || p[|p| - 1].Blank? then Words(p) + [[x]]
            else if |Words(p)| == 0 then [[x]]
            else Words(p)[..|Words(p)| - 1] + [Words(p)[|Words(p)| - 1] + [x]]
  {
    assert (p + [x])[..|p|] == p;
  }

  lemma WordsExist(p: seq<Piece>)
    requires |p| > 0 && p[|p| - 1].Bytes?
    ensures |Words(p)| > 0
  {
  }

  /** Blanks separate words, whatever stands on either side. */
  lemma {:induction false} WordsSplit(p: seq<Piece>, q: seq<Piece>)
    ensures Words(p + [Blank] + q) == Words(p) + Words(q)
    decreases |q|
  {
    hide Words;
    if |q| == 0 {
      NoWords();
      WordsSnoc(p, Blank);
      assert p + [Blank] + q == p + [Blank];
      assert Words(p) + [] == Words(p);
    } else {
      var q', x := q[..|q| - 1], q[|q| - 1];
      WordsSplit(p, q');
      SnocBehindBlank(p, q', x);
      assert q' + [x] == q;
      PieceRegroup(p + [Blank], q', [x]);
    }
  }

  lemma NoWords()
    ensures Words([]) == []
  {
  }

  lemma PieceRegroup(p: seq<Piece>, q: seq<Piece>, r: seq<Piece>)
    ensures p + (q + r) == p + q + r
  {
  }

  lemma SnocBehindBlank(p: seq<Piece>, q: seq<Piece>, x: Piece)
    requires Words(p + [Blank] + q) == Words(p) + Words(q)
    ensures Words(p + [Blank] + q + [x]) == Words(p) + Words(q + [x])
  {
    var r := p + [Blank] + q;
    WordsSnoc(r, x);
    WordsSnoc(q, x);
    assert r[|r| - 1] == if |q| > 0 then q[|q| - 1] else Blank;
    if |q| > 0 && q[|q| - 1].Bytes? {
      WordsExist(q);
    }
    hide Words;
  }

  /** Pieces without a blank between them are one word. */
  lemma {:induction false} WordsWhole(p: seq<Piece>)
    requires |p| > 0 && forall i :: 0 <= i < |p| ==> p[i].Bytes?
    ensures Words(p) == [p]
  {
    var n := |p| - 1;
    if n > 0 {
      WordsWhole(p[..n]);
      assert p[..n] + [p[n]] == p;
    } else {
      assert Words(p[..0]) == [];
      assert [p[0]] == p;
    }
  }

  /** The part of the words that is finished, and the one that is still growing. */
  ghost predicate Growing(p: seq<Piece>, closed: seq<seq<Piece>>, word: seq<Piece>)
  {
    && Words(p) == closed + (if |word| > 0 then [word] else [])
    && (|word| > 0 <==> |p| > 0 && p[|p| - 1].Bytes?)
  }

  lemma GrowWord(p: seq<Piece>, closed: seq<seq<Piece>>, word: seq<Piece>, x: Piece)
    requires Growing(p, closed, word)
    ensures x.Bytes? ==> Growing(p + [x], closed, word + [x])
    ensures x.Blank? ==> Growing(p + [x], if |word| > 0 then closed + [word] else closed, [])
  {
    WordsSnoc(p, x);
    hide Words;
    if |word| > 0 {
      assert (closed + [word])[..|closed|] == closed;
    } else {
      assert closed + [] == closed;
      assert [] + [x] == [x];
    }
  }

  lemma {:induction false} FormatAppend(args: seq<seq<byte>>, a: seq<byte>, i: nat)
    requires i <= |args|
    ensures |FormatFrom(args + [a], i)| == |FormatFrom(args, i)| + |FormatArg(a)|
    decreases |args| - i
  {
    if i < |args| {
      FormatAppend(args, a, i + 1);
    } else {
      assert FormatFrom(args + [a], i + 1) == [];
    }
  }

  lemma {:induction false} ArgWithin(args: seq<seq<byte>>, k: nat, i: nat)
    requires i <= k < |args|
    ensures |args[k]| <= |FormatFrom(args, i)|
    decreases k - i
  {
    if i < k {
      ArgWithin(args, k, i + 1);
    }
  }

  /** A finished word is an argument of the whole, so its length is within the total. */
  lemma WordWithin(p: seq<Piece>, closed: seq<seq<Piece>>, word: seq<Piece>, rest: seq<Piece>)
    requires Growing(p, closed, word) && |word| > 0
    requires |rest| > 0 ==> rest[0].Blank?
    ensures |Concat(word)| <= |Format(ConcatAll(Words(p + rest)))|
  {
    hide Words, FormatFrom, NumberLine;
    var words := Words(p + rest);
    if |rest| > 0 {
      WordsSplit(p, rest[1..]);
      assert p + rest == p + [Blank] + rest[1..];
      assert words == Words(p) + Words(rest[1..]);
    } else {
      assert p + rest == p;
    }
    assert |words| > |closed| && words[|closed|] == word;
    ArgWithin(ConcatAll(words), |closed|, 0);
  }

  lemma ConcatAppend(word: seq<Piece>, b: seq<byte>)
    ensures Concat(word + [Bytes(b)]) == Concat(word) + b
  {
    assert (word + [Bytes(b)])[..|word|] == word;
  }

  lemma ConcatAllAppend(words: seq<seq<Piece>>, word: seq<Piece>)
    ensures ConcatAll(words + [word]) == ConcatAll(words) + [Concat(word)]
  {
  }

  /** strlen and a copy: the bytes before the terminating NUL. */
  method CopyString(arg: seq<byte>) returns (s: seq<byte>)
    ensures s == UpToNul(arg)
  {
    var n := 0;
    while n < |arg| && arg[n] != NUL
      invariant 0 <= n <= |arg| && UpToNul(arg) == arg[..n] + UpToNul(arg[n..])
    {
      assert arg[n..][1..] == arg[n + 1..];
      assert arg[..n] + [arg[n]] == arg[..n + 1];
      n := n + 1;
    }
    s := arg[..n];
  }

  /** addArgument: the argument list, and the total length it needs so far. */
  method AddArgument(a: seq<byte>, argv: seq<seq<byte>>, totlen: nat) returns (argv': seq<seq<byte>>, totlen': nat)
    requires |a| <= INT_MAX && totlen == |FormatFrom(argv, 0)|
    ensures argv' == argv + [a] && totlen' == |FormatFrom(argv', 0)|
  {
    FormatAppend(argv, a, 0);
    var n := IntLen(|a|);
    totlen' := totlen + 1 + n + 2 + |a| + 2;
    argv' := argv + [a];
  }

  /** What the scanning loop knows after the pieces p. */
  ghost predicate Scanned(p: seq<Piece>, closed: seq<seq<Piece>>, word: seq<Piece>, argv: seq<seq<byte>>,
          current: seq<byte>, touched: bool, totlen: nat)
  {
    && Growing(p, closed, word) && (touched <==> |word| > 0)
    && argv == ConcatAll(closed) && current == Concat(word) && totlen == |FormatFrom(argv, 0)|
  }

  lemma ScanBytes(p: seq<Piece>, closed: seq<seq<Piece>>, word: seq<Piece>, argv: seq<seq<byte>>, current: seq<byte>,
          touched: bool, totlen: nat, b: seq<byte>)
    requires Scanned(p, closed, word, argv, current, touched, totlen)
    ensures Scanned(p + [Bytes(b)], closed, word + [Bytes(b)], argv, current + b, true, totlen)
  {
    GrowWord(p, closed, word, Bytes(b));
    ConcatAppend(word, b);
  }

  lemma ScanBlank(p: seq<Piece>, closed: seq<seq<Piece>>, word: seq<Piece>, argv: seq<seq<byte>>, current: seq<byte>,
          touched: bool, totlen: nat)
    requires Scanned(p, closed, word, argv, current, touched, totlen)
    ensures touched ==>
        Scanned(p + [Blank], closed + [word], [], argv + [current], [], false, |FormatFrom(argv + [current], 0)|)
    ensures !touched ==> Scanned(p + [Blank], closed, [], argv, current, false, totlen)
  {
    GrowWord(p, closed, word, Blank);
    ConcatAllAppend(closed, word);
  }

  /** A touched argument is one of the final ones. */
  lemma ScanTouched(p: seq<Piece>, closed: seq<seq<Piece>>, word: seq<Piece>, argv: seq<seq<byte>>, current: seq<byte>,
          totlen: nat, rest: seq<Piece>)
    requires Scanned(p, closed, word, argv, current, true, totlen) && (|rest| > 0 ==> rest[0].Blank?)
    ensures totlen == |FormatFrom(argv, 0)| && |current| <= |Format(ConcatAll(Words(p + rest)))|
  {
    WordWithin(p, closed, word, rest);
  }

  lemma ScanEnds(p: seq<Piece>, closed: seq<seq<Piece>>, word: seq<Piece>, argv: seq<seq<byte>>, current: seq<byte>,
          touched: bool, totlen: nat)
    requires Scanned(p, closed, word, argv, current, touched, totlen)
    ensures ConcatAll(Words(p)) == if touched then argv + [current] else argv
    ensures totlen == |FormatFrom(argv, 0)| && (touched ==> |current| <= |Format(ConcatAll(Words(p)))|)
  {
    ConcatAllAppend(closed, word);
    if touched {
      ScanTouched(p, closed, word, argv, current, totlen, []);
      assert p + [] == p;
    }
  }

  lemma ScanStart()
    ensures Scanned([], [], [], [], [], false, 0)
  {
  }

  /** The pieces p have been scanned, and the rest of the format gives the others. */
  ghost predicate Ahead(all: seq<Piece>, p: seq<Piece>, format: seq<byte>, args: seq<seq<byte>>, c: nat, k: nat)
  {
    && c <= |format| && k <= |args| && WellFormed(format[c..], args[k..])
    && all == p + Pieces(format[c..], args[k..])
  }

  /** The bytes of the directive at c, and the parameters left. */
  method ReadDirective(format: seq<byte>, args: seq<seq<byte>>, c: nat, k: nat, ghost all: seq<Piece>,
          ghost p: seq<Piece>)
    returns (bytes: seq<byte>, k': nat)
    requires Ahead(all, p, format, args, c, k) && c + 1 < |format| && format[c] == PERCENT
    ensures Ahead(all, p + [Bytes(bytes)], format, args, c + 2, k')
  {
    PiecesStep(format, args, c, k);
    k' := k;
    if format[c + 1] == LETTER_S {
      bytes := CopyString(args[k]);
      k' := k + 1;
    } else if format[c + 1] == LETTER_B {
      bytes := args[k];
      k' := k + 1;
    } else {
      bytes := [PERCENT];
    }
    PieceRegroup(p, [Bytes(bytes)], Pieces(format[c + 2..], args[k'..]));
  }

  function Literal(ch: byte): Piece
  {
    if ch == SPACE then Blank else Bytes([ch])
  }

  lemma LiteralAhead(all: seq<Piece>, p: seq<Piece>, format: seq<byte>, args: seq<seq<byte>>, c: nat, k: nat)
      returns (rest: seq<Piece>)
    requires Ahead(all, p, format, args, c, k) && c < |format| && (format[c] != PERCENT || c + 1 == |format|)
    ensures Ahead(all, p + [Literal(format[c])], format, args, c + 1, k)
    ensures |rest| > 0 && rest[0] == Literal(format[c]) && p + rest == all
  {
    PiecesStep(format, args, c, k);
    rest := Pieces(format[c..], args[k..]);
    PieceRegroup(p, [Literal(format[c])], Pieces(format[c + 1..], args[k..]));
  }

  /** A character that is no directive: a blank ends the current argument, anything else joins it. */
  method ScanLiteral(ch: byte, argv: seq<seq<byte>>, totlen: nat, current: seq<byte>, touched: bool,
                     ghost p: seq<Piece>, ghost closed: seq<seq<Piece>>, ghost word: seq<Piece>, ghost rest: seq<Piece>)
    returns (argv': seq<seq<byte>>, totlen': nat, current': seq<byte>, touched': bool,
             ghost closed': seq<seq<Piece>>, ghost word': seq<Piece>)
    requires Scanned(p, closed, word, argv, current, touched, totlen)
    requires |rest| > 0 && rest[0] == Literal(ch)
    requires |Format(ConcatAll(Words(p + rest)))| <= INT_MAX
    ensures Scanned(p + [Literal(ch)], closed', word', argv', current', touched', totlen')
  {
    hide Scanned, FormatFrom, Words, ConcatAll, Format;
    argv', totlen', current', touched', closed', word' := argv, totlen, current, touched, closed, [];
    if ch == SPACE {
      ScanBlank(p, closed, word, argv, current, touched, totlen);
      if touched {
        ScanTouched(p, closed, word, argv, current, totlen, rest);
        argv', totlen' := AddArgument(current, argv, totlen);
        current' := [];
        touched' := false;
        closed' := closed + [word];
      }
    } else {
      ScanBytes(p, closed, word, argv, current, touched, totlen, [ch]);
      current' := current + [ch];
      touched' := true;
      word' := word + [rest[0]];
    }
  }

  /** The scanning loop of redisvFormatCommand: collect the arguments and the length they need. */
  method ScanFormat(format: seq<byte>, args: seq<seq<byte>>) returns (argv: seq<seq<byte>>, totlen: nat)
    requires NUL !in format && WellFormed(format, args) && |Format(Arguments(format, args))| <= INT_MAX
    ensures argv == Arguments(format, args) && totlen == |FormatFrom(argv, 0)|
  {
    var current: seq<byte>, touched := [], false;
    argv, totlen := [], 0;
    var c, k := 0, 0;
    ghost var p: seq<Piece>, closed: seq<seq<Piece>>, word: seq<Piece> := [], [], [];
    ghost var all := Pieces(format, args);
    ScanStart();
    assert format[c..] == format && args[k..] == args && [] + all == all;
    hide Scanned, Ahead, FormatFrom, Words, ConcatAll, Format, Pieces, WellFormed, Literal;
    while c < |format|
      invariant 0 <= c <= |format| && 0 <= k
      invariant Ahead(all, p, format, args, c, k)
      invariant Scanned(p, closed, word, argv, current, touched, totlen)
    {
      if format[c] != PERCENT || c + 1 == |format| {
        ghost var rest := LiteralAhead(all, p, format, args, c, k);
        argv, totlen, current, touched, closed, word :=
          ScanLiteral(format[c], argv, totlen, current, touched, p, closed, word, rest);
        p := p + [Literal(format[c])];
      } else {
        var bytes;
        bytes, k := ReadDirective(format, args, c, k, all, p);
        ScanBytes(p, closed, word, argv, current, touched, totlen, bytes);
        current := current + bytes;
        touched := true;
        p, word := p + [Bytes(bytes)], word + [Bytes(bytes)];
        c := c + 1;
      }
      c := c + 1;
    }
    PiecesEnd(all, p, format, args, c, k);
    ScanEnds(p, closed, word, argv, current, touched, totlen);
    if touched {
      argv, totlen := AddArgument(current, argv, totlen);
    }
  }

  lemma PiecesEnd(all: seq<Piece>, p: seq<Piece>, format: seq<byte>, args: seq<seq<byte>>, c: nat, k: nat)
    requires Ahead(all, p, format, args, c, k) && c == |format|
    ensures p == all
  {
  }

  /** What the next step of the scan meets, and what is left after it. */
  lemma PiecesStep(format: seq<byte>, args: seq<seq<byte>>, c: nat, k: nat)
    requires c < |format| && k <= |args| && WellFormed(format[c..], args[k..])
    ensures var rest := Pieces(format[c..], args[k..]);
            var literal := format[c] != PERCENT || c + 1 == |format|;
      && |rest| > 0
      && (if literal then
            && WellFormed(format[c + 1..], args[k..])
            && rest[0] == (if format[c] == SPACE then Blank else Bytes([format[c]]))
            && rest == [rest[0]] + Pieces(format[c + 1..], args[k..])
          else if format[c + 1] == LETTER_S || format[c + 1] == LETTER_B then
            && k < |args| && WellFormed(format[c + 2..], args[k + 1..])
            && rest[0] == Bytes(if format[c + 1] == LETTER_S then UpToNul(args[k]) else args[k])
            && rest == [rest[0]] + Pieces(format[c + 2..], args[k + 1..])
          else
            && WellFormed(format[c + 2..], args[k..]) && rest[0] == Bytes([PERCENT])
            && rest == [rest[0]] + Pieces(format[c + 2..], args[k..]))
  {
    var f, a := format[c..], args[k..];
    assert f[1..] == format[c + 1..];
    if |f| >= 2 {
      assert f[2..] == format[c + 2..];
    }
    if |a| > 0 {
      assert a[1..] == args[k + 1..];
    }
  }

  /** redisvFormatCommand for formats of %s, %b and %%: the same bytes as formatting the arguments they stand for. */
  method FormatCommand(format: seq<byte>, args: seq<seq<byte>>) returns (cmd: array<byte>, totlen: nat)
    requires NUL !in format && WellFormed(format, args)
    requires |Arguments(format, args)| <= INT_MAX && |Format(Arguments(format, args))| <= INT_MAX
    ensures fresh(cmd) && totlen == |Format(Arguments(format, args))| && cmd.Length == totlen + 1
    ensures cmd[..] == Format(Arguments(format, args)) + [NUL]
  {
    var argv;
    argv, totlen := ScanFormat(format, args);
    FormatLength(argv);
    var n := IntLen(|argv|);
    totlen := totlen + (1 + n + 2);
    cmd := BuildCommand(argv, totlen);
  }

  lemma FormatLength(args: seq<seq<byte>>)
    ensures |Format(args)| == 1 + |Decimal(|args|)| + 2 + |FormatFrom(args, 0)|
  {
  }
}
