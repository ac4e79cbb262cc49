/** Which texts cJSON_Minify can minify: those made of blanks, comments, closed literals and other bytes. */
module JsonPieces {

  import opened Base
  import opened JsonText
  import opened JsonMinify

  /**
   What a text is made of. The body of a block comment starts with its star; in the comment of three bytes it
   is empty.
   */
  datatype Piece =
    | Blank(b: byte)
    | LineComment(body: seq<byte>)
    | BlockComment(body: seq<byte>)
    | Literal(body: seq<byte>)
    | Mark(b: byte)

  function PieceText(p: Piece): seq<byte>
  {
    match p
    case Blank(b) => [b]
    case LineComment(body) => [SLASH] + ([SLASH] + body)
    case BlockComment(body) => [SLASH] + (body + [STAR, SLASH])
    case Literal(body) => [QUOTE] + body + [QUOTE]
    case Mark(b) => [b]
  }

  /** What minifying leaves of it. */
  function PieceKept(p: Piece): seq<byte>
  {
    if p.Literal? || p.Mark? then PieceText(p) else []
  }

  /** A comment ends at this index. */
  predicate CommentEndsAt(t: seq<byte>, i: nat)
  {
    i + 1 < |t| && t[i] == STAR && t[i + 1] == SLASH
  }

  /** No bare quote, and a byte behind every backslash. */
  predicate Closed(body: seq<byte>)
  {
    |body| > 0 ==>
      if body[0] == BACKSLASH then |body| > 1 && Closed(body[2..]) else body[0] != QUOTE && Closed(body[1..])
  }

  /** A piece in front of other text. */
  predicate IsPiece(p: Piece, next: seq<byte>)
  {
    match p
    case Blank(b) => IsBlank(b)
    case LineComment(body) => NEWLINE !in body && (|next| > 0 ==> next[0] == NEWLINE)
    case BlockComment(body) =>
      (|body| > 0 ==> body[0] == STAR) && forall i :: 0 <= i < |body| ==> !CommentEndsAt(body + [STAR, SLASH], i)
    case Literal(body) => Closed(body)
    case Mark(b) =>
      !IsBlank(b) && b != QUOTE && (b == SLASH && |next| > 0 ==> next[0] != SLASH && next[0] != STAR)
  }

  function PiecesText(ps: seq<Piece>): seq<byte>
  {
    if |ps| == 0 then [] else PieceText(ps[0]) + PiecesText(ps[1..])
  }

  function Kept(ps: seq<Piece>): seq<byte>
  {
    if |ps| == 0 then [] else PieceKept(ps[0]) + Kept(ps[1..])
  }

  predicate ArePieces(ps: seq<Piece>, tail: seq<byte>)
  {
    |ps| > 0 ==> IsPiece(ps[0], PiecesText(ps[1..]) + tail) && ArePieces(ps[1..], tail)
  }

  /** The rest of a literal that is never closed. */
  predicate NeverCloses(u: seq<byte>)
  {
    |u| > 0 ==>
      if u[0] == BACKSLASH then |u| > 1 ==> NeverCloses(u[2..]) else u[0] != QUOTE && NeverCloses(u[1..])
  }

  /** A literal or a block comment that is opened and never closed. */
  predicate Unclosed(t: seq<byte>)
  {
    || (|t| > 0 && t[0] == QUOTE && NeverCloses(t[1..]))
    || (|t| > 1 && t[0] == SLASH && t[1] == STAR && forall i :: 0 <= i < |t[1..]| ==> !CommentEndsAt(t[1..], i))
  }

  // --- one piece

  lemma {:induction false} LiteralCloses(body: seq<byte>, next: seq<byte>)
    requires Closed(body)
    ensures LiteralEnd(body + [QUOTE] + next) == Some(|body|)
    decreases |body|
  {
    var u := body + [QUOTE] + next;
    if |body| == 0 {
      assert u[0] == QUOTE;
    } else if body[0] == BACKSLASH {
      assert u[2..] == body[2..] + [QUOTE] + next;
      LiteralCloses(body[2..], next);
    } else {
      assert u[1..] == body[1..] + [QUOTE] + next;
      LiteralCloses(body[1..], next);
    }
  }

  lemma {:induction false} LineSkipped(body: seq<byte>, next: seq<byte>)
    requires NEWLINE !in body && (|next| > 0 ==> next[0] == NEWLINE)
    ensures SkipLine(body + next) == next
    decreases |body|
  {
    if |body| == 0 {
      assert body + next == next;
    } else {
      assert (body + next)[1..] == body[1..] + next;
      LineSkipped(body[1..], next);
    }
  }

  lemma {:induction false} CommentSkipped(u: seq<byte>, n: nat)
    requires CommentEndsAt(u, n) && forall i :: 0 <= i < n ==> !CommentEndsAt(u, i)
    ensures SkipComment(u) == Some(u[n..])
    decreases n
  {
    if n > 0 {
      assert !CommentEndsAt(u, 0);
      forall i | 0 <= i < n - 1 ensures !CommentEndsAt(u[1..], i) {
        assert !CommentEndsAt(u, i + 1);
      }
      CommentSkipped(u[1..], n - 1);
      assert u[1..][n - 1..] == u[n..];
    } else {
      assert u[0..] == u;
    }
  }

  lemma BlockSkipped(body: seq<byte>, next: seq<byte>)
    requires IsPiece(BlockComment(body), next)
    ensures SkipComment(body + [STAR, SLASH] + next) == Some([STAR, SLASH] + next)
  {
    var u := body + [STAR, SLASH] + next;
    forall i | 0 <= i < |body| ensures !CommentEndsAt(u, i) {
      assert !CommentEndsAt(body + [STAR, SLASH], i);
    }
    CommentSkipped(u, |body|);
    assert u[|body|..] == [STAR, SLASH] + next;
  }

  lemma LineMinifies(body: seq<byte>, next: seq<byte>)
    requires IsPiece(LineComment(body), next)
    ensures Minify([SLASH] + ([SLASH] + body) + next) == Minify(next)
  {
    var t := [SLASH] + ([SLASH] + body) + next;
    assert t[0] == SLASH && t[1] == SLASH && t[1..] == [SLASH] + body + next;
    LineSkipped([SLASH] + body, next);
    hide SkipLine;
  }

  lemma BlockMinifies(body: seq<byte>, next: seq<byte>)
    requires IsPiece(BlockComment(body), next)
    ensures Minify([SLASH] + (body + [STAR, SLASH]) + next) == Minify(next)
  {
    var t := [SLASH] + (body + [STAR, SLASH]) + next;
    assert t[0] == SLASH && t[1] == STAR && t[1..] == body + [STAR, SLASH] + next;
    BlockSkipped(body, next);
    hide SkipComment;
    assert ([STAR, SLASH] + next)[2..] == next;
  }

  lemma LiteralMinifies(body: seq<byte>, next: seq<byte>)
    requires Closed(body)
    ensures Minify([QUOTE] + body + [QUOTE] + next) == Prefix([QUOTE] + body + [QUOTE], Minify(next))
  {
    var t := [QUOTE] + body + [QUOTE] + next;
    assert t[0] == QUOTE && t[1..] == body + [QUOTE] + next;
    LiteralCloses(body, next);
    hide LiteralEnd;
    assert t[..|body| + 2] == [QUOTE] + body + [QUOTE] && t[|body| + 2..] == next;
  }

  lemma MarkMinifies(b: byte, next: seq<byte>)
    ensures IsPiece(Mark(b), next) ==> Minify([b] + next) == Prefix([b], Minify(next))
    ensures IsBlank(b) ==> Minify([b] + next) == Minify(next)
  {
    var t := [b] + next;
    assert t[1..] == next && t[0] == b && (|next| > 0 ==> t[1] == next[0]);
  }

  lemma PrefixNothing(r: Option<seq<byte>>)
    ensures Prefix([], r) == r
  {
    if r.Some? {
      assert [] + r.value == r.value;
    }
  }

  /** A piece adds what is kept of it. */
  lemma PieceMinifies(p: Piece, next: seq<byte>)
    requires IsPiece(p, next)
    ensures Minify(PieceText(p) + next) == Prefix(PieceKept(p), Minify(next))
  {
    hide Minify;
    PrefixNothing(Minify(next));
    match p
    case Blank(b) => MarkMinifies(b, next);
    case LineComment(body) => LineMinifies(body, next);
    case BlockComment(body) => BlockMinifies(body, next);
    case Literal(body) => LiteralMinifies(body, next);
    case Mark(b) => MarkMinifies(b, next);
  }

  // --- the unclosed rest

  lemma {:induction false} NeverEnds(u: seq<byte>)
    ensures NeverCloses(u) <==> LiteralEnd(u).None? || LiteralEnd(u).value == |u|
    decreases |u|
  {
    if |u| > 0 && u[0] != QUOTE {
      if u[0] != BACKSLASH {
        NeverEnds(u[1..]);
      } else if |u| > 1 {
        NeverEnds(u[2..]);
      }
    }
  }

  lemma {:induction false} NoCommentEnd(u: seq<byte>)
    ensures SkipComment(u).None? <==> forall i :: 0 <= i < |u| ==> !CommentEndsAt(u, i)
    decreases |u|
  {
    if SkipComment(u).Some? {
      FirstCommentEnd(u);
    } else {
      forall i | 0 <= i < |u| ensures !CommentEndsAt(u, i) {
        if |u| >= 2 {
          NoCommentEnd(u[1..]);
          if i > 0 {
            assert !CommentEndsAt(u[1..], i - 1);
          }
        }
      }
    }
  }

  lemma {:induction false} FirstCommentEnd(u: seq<byte>)
    requires SkipComment(u).Some?
    ensures var n := |u| - |SkipComment(u).value|;
      && CommentEndsAt(u, n) && SkipComment(u).value == u[n..]
      && forall i :: 0 <= i < n ==> !CommentEndsAt(u, i)
    decreases |u|
  {
    if u[0] == STAR && u[1] == SLASH {
      assert u[0..] == u;
    } else {
      FirstCommentEnd(u[1..]);
      var n := |u| - |SkipComment(u).value|;
      assert u[1..][n - 1..] == u[n..];
      forall i | 0 <= i < n ensures !CommentEndsAt(u, i) {
        if i > 0 {
          assert !CommentEndsAt(u[1..], i - 1);
        }
      }
    }
  }

  lemma UnclosedFails(t: seq<byte>)
    requires Unclosed(t)
    ensures Minify(t).None?
  {
    if t[0] == QUOTE {
      NeverEnds(t[1..]);
    } else {
      NoCommentEnd(t[1..]);
    }
  }

  // --- whole texts

  /** A text cut into pieces, with a rest that is empty or unclosed. */
  predicate IsCut(t: seq<byte>, ps: seq<Piece>, tail: seq<byte>)
  {
    t == PiecesText(ps) + tail && ArePieces(ps, tail) && (tail == [] || Unclosed(tail))
  }

  /** However a text can be cut, that is what minifying it gives. */
  lemma {:induction false} MinifyCut(t: seq<byte>, ps: seq<Piece>, tail: seq<byte>)
    requires IsCut(t, ps, tail)
    ensures Minify(t) == if tail == [] then Some(Kept(ps)) else None
    decreases |ps|
  {
    hide Minify, PieceText, PieceKept, IsPiece, Unclosed;
    if |ps| == 0 {
      assert t == tail;
      if tail == [] {
        NothingLeft();
      } else {
        UnclosedFails(tail);
      }
    } else {
      var next := PiecesText(ps[1..]) + tail;
      assert t == PieceText(ps[0]) + next;
      PieceMinifies(ps[0], next);
      MinifyCut(next, ps[1..], tail);
    }
  }

  lemma NothingLeft()
    ensures Minify([]) == Some([])
  {
  }

  lemma {:induction false} ClosedBody(u: seq<byte>)
    requires LiteralEnd(u).Some? && LiteralEnd(u).value < |u|
    ensures Closed(u[..LiteralEnd(u).value])
    decreases |u|
  {
    var n := LiteralEnd(u).value;
    if n > 0 {
      if u[0] == BACKSLASH {
        ClosedBody(u[2..]);
        assert u[..n][2..] == u[2..][..n - 2];
      } else {
        ClosedBody(u[1..]);
        assert u[..n][1..] == u[1..][..n - 1];
      }
    }
  }

  lemma {:induction false} LineBody(u: seq<byte>)
    ensures var n := |u| - |SkipLine(u)|;
      SkipLine(u) == u[n..] && NEWLINE !in u[..n] && (n < |u| ==> u[n] == NEWLINE)
    decreases |u|
  {
    if |u| > 0 && u[0] != NEWLINE {
      LineBody(u[1..]);
      var n := |u| - |SkipLine(u)|;
      assert u[..n] == [u[0]] + u[1..][..n - 1];
    }
  }

  lemma FirstLineComment(t: seq<byte>) returns (p: Piece, next: seq<byte>)
    requires |t| > 1 && t[0] == SLASH && t[1] == SLASH
    ensures IsPiece(p, next) && t == PieceText(p) + next
  {
    var u := t[1..];
    var n := |u| - |SkipLine(u)|;
    LineBody(u);
    assert n > 0 && u[..n] == [SLASH] + u[1..n];
    hide SkipLine;
    p, next := LineComment(u[1..n]), u[n..];
    assert t == [SLASH] + u && u == u[..n] + u[n..];
  }

  lemma FirstBlockComment(t: seq<byte>) returns (p: Piece, next: seq<byte>)
    requires |t| > 1 && t[0] == SLASH && t[1] == STAR && !Unclosed(t)
    ensures IsPiece(p, next) && t == PieceText(p) + next
  {
    hide SkipComment, CommentEndsAt;
    var u := t[1..];
    NoCommentEnd(u);
    FirstCommentEnd(u);
    var n := |u| - |SkipComment(u).value|;
    BlockIsPiece(u, n);
    p, next := BlockComment(u[..n]), u[n + 2..];
    assert t == [SLASH] + u;
  }

  lemma BlockIsPiece(u: seq<byte>, n: nat)
    requires CommentEndsAt(u, n) && u[0] == STAR && forall i :: 0 <= i < n ==> !CommentEndsAt(u, i)
    ensures IsPiece(BlockComment(u[..n]), u[n + 2..]) && u == u[..n] + [STAR, SLASH] + u[n + 2..]
  {
    var x := u[..n] + [STAR, SLASH];
    assert x == u[..n + 2];
    forall i | 0 <= i < n ensures !CommentEndsAt(x, i) {
      assert !CommentEndsAt(u, i);
    }
  }

  lemma FirstLiteral(t: seq<byte>) returns (p: Piece, next: seq<byte>)
    requires |t| > 0 && t[0] == QUOTE && !Unclosed(t)
    ensures IsPiece(p, next) && t == PieceText(p) + next
  {
    var u := t[1..];
    NeverEnds(u);
    ClosedBody(u);
    var n := LiteralEnd(u).value;
    hide LiteralEnd, NeverCloses, Closed;
    p, next := Literal(u[..n]), u[n + 1..];
    assert u[..n] + [QUOTE] == u[..n + 1];
    assert t == [QUOTE] + u && u == u[..n + 1] + u[n + 1..];
    assert [QUOTE] + u[..n] + [QUOTE] == [QUOTE] + u[..n + 1];
  }

  /** The first piece of a text, if it does not start with something unclosed. */
  lemma FirstPiece(t: seq<byte>) returns (p: Piece, next: seq<byte>)
    requires |t| > 0 && !Unclosed(t)
    ensures IsPiece(p, next) && t == PieceText(p) + next
  {
    if IsBlank(t[0]) {
      p, next := Blank(t[0]), t[1..];
    } else if t[0] == SLASH && |t| > 1 && t[1] == SLASH {
      p, next := FirstLineComment(t);
    } else if t[0] == SLASH && |t| > 1 && t[1] == STAR {
      p, next := FirstBlockComment(t);
    } else if t[0] == QUOTE {
      p, next := FirstLiteral(t);
    } else {
      p, next := Mark(t[0]), t[1..];
    }
  }

  /** Every text can be cut. */
  lemma {:induction false} CutText(t: seq<byte>) returns (ps: seq<Piece>, tail: seq<byte>)
    ensures IsCut(t, ps, tail)
    decreases |t|
  {
    hide PieceText, IsPiece, Unclosed;
    if |t| == 0 || Unclosed(t) {
      ps, tail := [], t;
      assert [] + t == t;
    } else {
      var p, next := FirstPiece(t);
      PieceNotEmpty(p);
      ps, tail := CutText(next);
      assert ([p] + ps)[1..] == ps;
      ps := [p] + ps;
      assert PieceText(p) + (PiecesText(ps[1..]) + tail) == PieceText(p) + PiecesText(ps[1..]) + tail;
    }
  }

  lemma PieceNotEmpty(p: Piece)
    ensures |PieceText(p)| > 0
  {
  }

  /**
   The source stays inside the text exactly when it is made of pieces; otherwise the text ends in a literal or a
   block comment that is never closed, and the source reads on behind its NUL.
   */
  lemma MinifyExactly(t: seq<byte>)
    ensures Minify(t).Some? <==> exists ps :: IsCut(t, ps, [])
    ensures Minify(t).None? <==> exists ps, tail :: IsCut(t, ps, tail) && Unclosed(tail)
  {
    hide Minify, IsCut, Unclosed;
    var ps, tail := CutText(t);
    MinifyCut(t, ps, tail);
    if exists qs :: IsCut(t, qs, []) {
      var qs :| IsCut(t, qs, []);
      MinifyCut(t, qs, []);
    }
    if exists qs, rest :: IsCut(t, qs, rest) && Unclosed(rest) {
      var qs, rest :| IsCut(t, qs, rest) && Unclosed(rest);
      UnclosedNotEmpty(rest);
      MinifyCut(t, qs, rest);
    }
    CutRest(t, ps, tail);
  }

  lemma UnclosedNotEmpty(t: seq<byte>)
    requires Unclosed(t)
    ensures |t| > 0
  {
  }

  lemma CutRest(t: seq<byte>, ps: seq<Piece>, tail: seq<byte>)
    requires IsCut(t, ps, tail)
    ensures tail == [] || Unclosed(tail)
  {
  }
}
