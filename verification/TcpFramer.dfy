/**
 Taking length-prefixed frames out of a TCP stream: a receive buffer that keeps bytes until there
 are enough for a header, and a packet under construction that takes what is left of a frame.
 */
module TcpFramer {

  import opened Base

  const TAG_HEAD_1: byte := 0x7e
  const TAG_HEAD_2: byte := 0xaa
  const HEAD_LEN: nat := 27
  const RECV_BUF_LEN: nat := 16 * 1024

  // ---------------------------------------------------------------------
  // Streams
  // ---------------------------------------------------------------------

  predicate TagAt(s: seq<byte>, i: nat)
  {
    i + 1 < |s| && s[i] == TAG_HEAD_1 && s[i + 1] == TAG_HEAD_2
  }

  /** The length a header announces: its own, and that of the body in network order. */
  function FrameLength(s: seq<byte>): nat
    requires |s| >= HEAD_LEN
  {
    s[24] * 256 + s[25] + HEAD_LEN
  }

  /** Frames, and the beginning of one more. */
  predicate Stream(s: seq<byte>)
    decreases |s|
  {
    |s| < HEAD_LEN || (TagAt(s, 0) && (|s| < FrameLength(s) || Stream(s[FrameLength(s)..])))
  }

  function Frames(s: seq<byte>): seq<seq<byte>>
    decreases |s|
  {
    if |s| < HEAD_LEN || |s| < FrameLength(s) then [] else [s[..FrameLength(s)]] + Frames(s[FrameLength(s)..])
  }

  function Flatten(fs: seq<seq<byte>>): seq<byte>
  {
    if |fs| == 0 then [] else fs[0] + Flatten(fs[1..])
  }

  lemma {:induction false} FlattenMore(fs: seq<seq<byte>>, f: seq<byte>)
    ensures Flatten(fs + [f]) == Flatten(fs) + f
    decreases |fs|
  {
    if |fs| == 0 {
      assert fs + [f] == [f] && [f][1..] == [];
      assert f + [] == f && [] + f == f;
    } else {
      FlattenMore(fs[1..], f);
      assert (fs + [f])[1..] == fs[1..] + [f];
      assert fs[0] + (Flatten(fs[1..]) + f) == fs[0] + Flatten(fs[1..]) + f;
    }
  }

  /** A beginning of a stream is a stream. */
  lemma {:induction false} StreamStarts(x: seq<byte>, y: seq<byte>)
    requires Stream(x + y)
    ensures Stream(x)
    decreases |x|
  {
    if |x| >= HEAD_LEN {
      assert (x + y)[..HEAD_LEN] == x[..HEAD_LEN];
      HeaderDecides(x + y, x);
      var n := FrameLength(x);
      if |x| >= n {
        assert (x + y)[n..] == x[n..] + y;
        StreamStarts(x[n..], y);
      }
    }
  }

  lemma HeaderDecides(a: seq<byte>, b: seq<byte>)
    requires |a| >= HEAD_LEN && |b| >= HEAD_LEN && a[..HEAD_LEN] == b[..HEAD_LEN]
    ensures FrameLength(a) == FrameLength(b) && TagAt(a, 0) == TagAt(b, 0)
  {
    assert a[0] == a[..HEAD_LEN][0] && b[0] == b[..HEAD_LEN][0];
    assert a[1] == a[..HEAD_LEN][1] && b[1] == b[..HEAD_LEN][1];
    assert a[24] == a[..HEAD_LEN][24] && b[24] == b[..HEAD_LEN][24];
    assert a[25] == a[..HEAD_LEN][25] && b[25] == b[..HEAD_LEN][25];
  }

  // ---------------------------------------------------------------------
  // TcpServer::parse
  // ---------------------------------------------------------------------

  /** What parse works on: frames handed on, the packet under construction and what it lacks, bytes not looked at. */
  datatype Net = Net(frames: seq<seq<byte>>, pkt: seq<byte>, less: nat, rest: seq<byte>)

  /** The first tag after the start; the last position looked at when there is none. */
  function FindTag(s: seq<byte>, i: nat): (r: nat)
    requires i < |s|
    ensures i <= r < |s| && (r + 1 < |s| ==> TagAt(s, r)) && forall k :: i <= k < r ==> !TagAt(s, k)
    decreases |s| - i
  {
    if i + 1 >= |s| || TagAt(s, i) then i else FindTag(s, i + 1)
  }

  /**
   Bytes that do not start with a tag: up to the next tag they are skipped. The test for "no tag" is made
   with the length that is left, so a tag in the very middle counts as none.
   */
  function Resync(n: Net): Net
    requires |n.rest| > 0
  {
    var i := FindTag(n.rest, 0);
    if i + 1 == |n.rest| || i + 1 == |n.rest| - i then Net(n.frames, [], 0, []) else n.(rest := n.rest[i..])
  }

  function Step(n: Net): Net
    requires |n.rest| >= HEAD_LEN
  {
    if n.less > 0 then
      if |n.rest| >= n.less then Net(n.frames + [n.pkt + n.rest[..n.less]], [], 0, n.rest[n.less..])
      else Net(n.frames, n.pkt + n.rest, n.less - |n.rest|, [])
    else if !TagAt(n.rest, 0) then Resync(n)
    else
      var l := FrameLength(n.rest);
      if |n.rest| >= l then n.(frames := n.frames + [n.rest[..l]], rest := n.rest[l..])
      else Net(n.frames, n.rest, l - |n.rest|, [])
  }

  lemma StepShrinks(n: Net)
    requires |n.rest| >= HEAD_LEN
    ensures |Step(n).rest| < |n.rest|
  {
  }

  function Parse(n: Net): Net
    decreases |n.rest|
  {
    if |n.rest| < HEAD_LEN then n
    else
      StepShrinks(n);
      Parse(Step(n))
  }

  lemma ParseOn(n: Net)
    ensures if |n.rest| >= HEAD_LEN then Parse(n) == Parse(Step(n)) && |Step(n).rest| < |n.rest| else Parse(n) == n
  {
    if |n.rest| >= HEAD_LEN {
      StepShrinks(n);
    }
  }

  // ---------------------------------------------------------------------
  // Streams taken apart
  // ---------------------------------------------------------------------

  /** The bytes not handed on yet. */
  function Unread(n: Net): seq<byte>
  {
    n.pkt + n.rest
  }

  /** A packet under construction is the beginning of a frame, and the framer knows what it lacks. */
  predicate Sound(n: Net)
  {
    if n.less == 0 then n.pkt == []
    else |n.pkt| >= HEAD_LEN && |n.pkt| + n.less == FrameLength(n.pkt)
  }

  predicate IsFrame(f: seq<byte>)
  {
    |f| >= HEAD_LEN && |f| == FrameLength(f)
  }

  predicate AllFrames(fs: seq<seq<byte>>)
  {
    forall i :: 0 <= i < |fs| ==> IsFrame(fs[i])
  }

  lemma FrontFrame(f: seq<byte>, u: seq<byte>)
    requires IsFrame(f)
    ensures Frames(f + u) == [f] + Frames(u)
    ensures Stream(f + u) ==> Stream(u)
  {
    var s := f + u;
    assert s[..HEAD_LEN] == f[..HEAD_LEN];
    HeaderDecides(s, f);
    assert s[..|f|] == f && s[|f|..] == u;
  }

  /** Whole frames in front of a stream are its first frames. */
  lemma {:induction false} FrontFrames(fs: seq<seq<byte>>, u: seq<byte>)
    requires AllFrames(fs)
    ensures Frames(Flatten(fs) + u) == fs + Frames(u)
    ensures Stream(Flatten(fs) + u) ==> Stream(u)
    decreases |fs|
  {
    hide Frames, Stream, IsFrame;
    if |fs| == 0 {
      assert Flatten(fs) + u == u && fs + Frames(u) == Frames(u);
    } else {
      FrontFrame(fs[0], Flatten(fs[1..]) + u);
      FrontFrames(fs[1..], u);
      assert Flatten(fs) + u == fs[0] + (Flatten(fs[1..]) + u);
      assert [fs[0]] + (fs[1..] + Frames(u)) == fs + Frames(u);
    }
  }

  /** What a step or several keep. */
  predicate Keeps(n: Net, m: Net)
  {
    Sound(m) && Stream(Unread(m)) && AllFrames(m.frames) && Flatten(m.frames) + Unread(m) == Flatten(n.frames)
        + Unread(n)
  }

  /** A step hands on the next frame or none, and loses nothing. */
  lemma StepKeeps(n: Net)
    requires |n.rest| >= HEAD_LEN && Sound(n) && Stream(Unread(n)) && AllFrames(n.frames)
    ensures Keeps(n, Step(n))
  {
    if n.less > 0 {
      PacketStep(n);
    } else {
      assert Unread(n) == n.rest;
      HeaderStep(n);
    }
  }

  lemma SameHeader(a: seq<byte>, b: seq<byte>)
    requires |a| >= HEAD_LEN && a <= b
    ensures FrameLength(b) == FrameLength(a) && TagAt(b, 0) == TagAt(a, 0)
  {
    assert b[..HEAD_LEN] == a[..HEAD_LEN];
    HeaderDecides(a, b);
  }

  lemma PacketStep(n: Net)
    requires |n.rest| >= HEAD_LEN && Sound(n) && Stream(Unread(n)) && n.less > 0 && AllFrames(n.frames)
    ensures Keeps(n, Step(n))
  {
    SameHeader(n.pkt, Unread(n));
    if |n.rest| >= n.less {
      PacketFilled(n);
    } else {
      assert Unread(Step(n)) == Unread(n);
    }
  }

  lemma PacketFilled(n: Net)
    requires Sound(n) && Stream(Unread(n)) && AllFrames(n.frames) && 0 < n.less <= |n.rest| && |n.rest| >= HEAD_LEN
    ensures Keeps(n, Step(n))
  {
    hide Frames, Stream, FrameLength, Flatten, AllFrames;
    var f, u := n.pkt + n.rest[..n.less], n.rest[n.less..];
    SameHeader(n.pkt, f);
    assert Unread(n) == f + u && [] + u == u;
    HandedOn(n.frames, f, u);
  }

  /** A frame handed on. */
  lemma HandedOn(fs: seq<seq<byte>>, f: seq<byte>, u: seq<byte>)
    requires AllFrames(fs) && IsFrame(f) && Stream(f + u)
    ensures AllFrames(fs + [f]) && Stream(u) && Flatten(fs + [f]) + u == Flatten(fs) + (f + u)
  {
    hide Stream, Flatten, IsFrame;
    FrontFrame(f, u);
    FlattenMore(fs, f);
    assert Flatten(fs) + f + u == Flatten(fs) + (f + u);
  }

  lemma HeaderStep(n: Net)
    requires |n.rest| >= HEAD_LEN && Sound(n) && n.less == 0 && Stream(n.rest) && AllFrames(n.frames)
    ensures Keeps(n, Step(n))
  {
    hide Frames, Flatten, AllFrames;
    var s := n.rest;
    var l := FrameLength(s);
    assert Unread(n) == s;
    if |s| >= l {
      SameHeader(s[..l], s);
      assert s == s[..l] + s[l..] && [] + s[l..] == s[l..];
      HandedOn(n.frames, s[..l], s[l..]);
    } else {
      assert Unread(Step(n)) == s;
    }
  }

  /**
   Over a stream of frames parse hands on the frames in order and keeps the other bytes: fewer than a
   header are left unlooked at, and at most one complete frame is held back.
   */
  lemma {:induction false} ParseKeeps(n: Net)
    requires Sound(n) && Stream(Unread(n)) && AllFrames(n.frames)
    ensures var m := Parse(n);
      Keeps(n, m) && |m.rest| < HEAD_LEN && |Frames(Unread(m))| == if 0 < m.less <= |m.rest| then 1 else 0
    decreases |n.rest|
  {
    hide Sound, Step, Stream, Frames, AllFrames;
    if |n.rest| < HEAD_LEN {
      HeldBack(n);
    } else {
      StepShrinks(n);
      StepKeeps(n);
      ParseKeeps(Step(n));
    }
  }

  /** A frame is held back exactly when the packet's missing bytes are there, but fewer than a header. */
  lemma HeldBack(n: Net)
    requires Sound(n) && |n.rest| < HEAD_LEN
    ensures |Frames(Unread(n))| == if 0 < n.less <= |n.rest| then 1 else 0
  {
    var s := Unread(n);
    if n.less > 0 {
      assert s[..HEAD_LEN] == n.pkt[..HEAD_LEN];
      HeaderDecides(s, n.pkt);
    }
  }

  // ---------------------------------------------------------------------
  // Connections
  // ---------------------------------------------------------------------

  lemma Slices(b: seq<byte>, data: nat, n: nat, k: nat)
    requires data + n <= |b| && k <= n
    ensures b[data..data + n][..k] == b[data..data + k] && b[data..data + n][k..] == b[data + k..data + n]
  {
  }

  class Connection {
    const buf: array<byte>
    var bufLen: nat
    /** The packet under construction: m_data up to m_len. */
    var pkt: seq<byte>
    var lessPktLen: nat
    /** The frames handed on. */
    var frames: seq<seq<byte>>

    ghost predicate Valid()
      reads this, buf
    {
      buf.Length == RECV_BUF_LEN && bufLen <= RECV_BUF_LEN
    }

    ghost function State(): Net
      requires Valid()
      reads this, buf
    {
      Net(frames, pkt, lessPktLen, buf[..bufLen])
    }

    constructor ()
      ensures Valid() && State() == Net([], [], 0, []) && fresh(buf)
    {
      buf := new byte[RECV_BUF_LEN](_ => 0);
      bufLen, pkt, lessPktLen, frames := 0, [], 0, [];
    }

    /** Connection::read: bytes are received behind those already there. */
    method Read(bytes: seq<byte>)
      requires Valid() && bufLen + |bytes| <= RECV_BUF_LEN
      modifies this, buf
      ensures Valid() && State() == old(State()).(rest := old(State()).rest + bytes)
    {
      var i := 0;
      ghost var was := buf[..bufLen];
      while i < |bytes|
        invariant i <= |bytes| && bufLen == old(bufLen) + i && unchanged(`pkt, `lessPktLen, `frames)
        invariant buf[..bufLen] == was + bytes[..i]
      {
        buf[bufLen] := bytes[i];
        bufLen := bufLen + 1;
        i := i + 1;
      }
    }

    /** TcpServer::parse */
    method ParseBuffer()
      requires Valid()
      modifies this, buf
      ensures Valid() && State() == Parse(old(State()))
    {
      hide Parse, Step;
      var data: nat := 0;
      assert buf[0..bufLen] == buf[..bufLen];
      while bufLen >= HEAD_LEN
        invariant data + bufLen <= RECV_BUF_LEN && buf.Length == RECV_BUF_LEN && unchanged(buf)
        invariant Parse(Net(frames, pkt, lessPktLen, buf[data..data + bufLen])) == Parse(old(State()))
        decreases bufLen
      {
        ParseOn(Net(frames, pkt, lessPktLen, buf[data..data + bufLen]));
        data := ParseOnce(data);
      }
      ParseOn(Net(frames, pkt, lessPktLen, buf[data..data + bufLen]));
      if bufLen > 0 && data != 0 {
        MoveDown(data);
      }
    }

    /** One turn of the loop, on the bytes from data on. */
    method ParseOnce(data: nat) returns (data': nat)
      requires data + bufLen <= RECV_BUF_LEN && buf.Length == RECV_BUF_LEN && bufLen >= HEAD_LEN
      modifies this
      ensures data' + bufLen <= RECV_BUF_LEN && unchanged(buf)
      ensures Net(frames, pkt, lessPktLen, buf[data'..data' + bufLen])
           == Step(old(Net(frames, pkt, lessPktLen, buf[data..data + bufLen])))
    {
      ghost var rest := buf[data..data + bufLen];
      assert rest[0] == buf[data] && rest[1] == buf[data + 1];
      if lessPktLen > 0 {
        data' := FillPacket(data);
      } else if buf[data] == TAG_HEAD_1 && buf[data + 1] == TAG_HEAD_2 {
        data' := StartPacket(data);
      } else {
        data' := SkipToTag(data);
      }
    }

    /** A packet is under construction. */
    method FillPacket(data: nat) returns (data': nat)
      requires data + bufLen <= RECV_BUF_LEN && buf.Length == RECV_BUF_LEN && bufLen >= HEAD_LEN && lessPktLen > 0
      modifies this
      ensures data' + bufLen <= RECV_BUF_LEN && unchanged(buf)
      ensures Net(frames, pkt, lessPktLen, buf[data'..data' + bufLen])
           == Step(old(Net(frames, pkt, lessPktLen, buf[data..data + bufLen])))
    {
      ghost var rest := buf[data..data + bufLen];
      if bufLen >= lessPktLen {
        Slices(buf[..], data, bufLen, lessPktLen);
        frames := frames + [pkt + buf[data..data + lessPktLen]];
        bufLen := bufLen - lessPktLen;
        data' := data + lessPktLen;
        pkt, lessPktLen := [], 0;
      } else {
        pkt := pkt + buf[data..data + bufLen];
        lessPktLen := lessPktLen - bufLen;
        bufLen := 0;
        data' := data;
        assert buf[data'..data' + bufLen] == [];
      }
    }

    /** The bytes start with a tag. */
    method StartPacket(data: nat) returns (data': nat)
      requires data + bufLen <= RECV_BUF_LEN && buf.Length == RECV_BUF_LEN && bufLen >= HEAD_LEN && lessPktLen == 0
      requires TagAt(buf[data..data + bufLen], 0)
      modifies this
      ensures data' + bufLen <= RECV_BUF_LEN && unchanged(buf)
      ensures Net(frames, pkt, lessPktLen, buf[data'..data' + bufLen])
           == Step(old(Net(frames, pkt, lessPktLen, buf[data..data + bufLen])))
    {
      ghost var rest := buf[data..data + bufLen];
      var pktLen: nat := buf[data + 24] * 256 + buf[data + 25] + HEAD_LEN;
      assert pktLen == FrameLength(rest) by {
        assert rest[24] == buf[data + 24] && rest[25] == buf[data + 25];
      }
      hide FrameLength;
      if bufLen >= pktLen {
        Slices(buf[..], data, bufLen, pktLen);
        frames := frames + [buf[data..data + pktLen]];
        bufLen := bufLen - pktLen;
        data' := data + pktLen;
      } else {
        pkt := buf[data..data + bufLen];
        lessPktLen := pktLen - bufLen;
        bufLen := 0;
        data' := data;
        assert buf[data'..data' + bufLen] == [];
      }
    }

    /** The search for the next tag. */
    method SkipToTag(data: nat) returns (data': nat)
      requires data + bufLen <= RECV_BUF_LEN && buf.Length == RECV_BUF_LEN && bufLen >= HEAD_LEN
      requires !TagAt(buf[data..data + bufLen], 0)
      modifies this
      ensures data' + bufLen <= RECV_BUF_LEN && unchanged(buf)
      ensures Net(frames, pkt, lessPktLen, buf[data'..data' + bufLen])
           == Resync(old(Net(frames, pkt, lessPktLen, buf[data..data + bufLen])))
    {
      ghost var rest := buf[data..data + bufLen];
      data' := data;
      var i := SearchTag(data);
      assert FindTag(rest, 0) == i;
      if i < bufLen - 1 {
        data' := data + i;
        bufLen := bufLen - i;
        assert rest[i..] == buf[data'..data' + bufLen];
      }
      if i == bufLen - 1 {
        bufLen, pkt, lessPktLen := 0, [], 0;
        assert buf[data'..data' + bufLen] == [];
      }
    }

    /** The position of the next tag, or the last position. */
    method SearchTag(data: nat) returns (i: nat)
      requires data + bufLen <= RECV_BUF_LEN && buf.Length == RECV_BUF_LEN && bufLen > 0
      ensures i == FindTag(buf[data..data + bufLen], 0)
    {
      ghost var rest := buf[data..data + bufLen];
      i := 0;
      while i < bufLen - 1 && !(buf[data + i] == TAG_HEAD_1 && buf[data + i + 1] == TAG_HEAD_2)
        invariant i <= bufLen - 1 && FindTag(rest, i) == FindTag(rest, 0)
      {
        assert rest[i] == buf[data + i] && rest[i + 1] == buf[data + i + 1];
        i := i + 1;
      }
      assert i < bufLen - 1 ==> rest[i] == buf[data + i] && rest[i + 1] == buf[data + i + 1];
    }

    /** memmove to the start of the buffer. */
    method MoveDown(data: nat)
      requires data + bufLen <= RECV_BUF_LEN && buf.Length == RECV_BUF_LEN
      modifies buf
      ensures buf[..bufLen] == old(buf[data..data + bufLen])
    {
      var i := 0;
      while i < bufLen
        invariant i <= bufLen && buf[..i] == old(buf[data..data + i])
        invariant forall k :: data + i <= k < RECV_BUF_LEN ==> buf[k] == old(buf[k])
      {
        buf[i] := buf[data + i];
        i := i + 1;
      }
    }

    /** What TcpServer::read does with the bytes of one wake-up. */
    method Receive(bytes: seq<byte>)
      requires Valid() && bufLen + |bytes| <= RECV_BUF_LEN
      modifies this, buf
      ensures Valid() && State() == Parse(old(State()).(rest := old(State()).rest + bytes))
    {
      Read(bytes);
      ParseBuffer();
    }
  }

  /** The pieces of a stream fit the space that parse leaves in the buffer. */
  predicate PiecesFit(pieces: seq<seq<byte>>)
  {
    forall i :: 0 <= i < |pieces| ==> |pieces[i]| <= RECV_BUF_LEN - HEAD_LEN + 1
  }

  /** So much of a stream has been received. */
  predicate Received(n: Net, got: seq<byte>)
  {
    Sound(n) && AllFrames(n.frames) && |n.rest| < HEAD_LEN && Flatten(n.frames) + Unread(n) == got
  }

  lemma ReceiveKeeps(n: Net, got: seq<byte>, more: seq<byte>)
    requires Received(n, got) && Stream(got + more)
    ensures Received(Parse(n.(rest := n.rest + more)), got + more)
  {
    hide Stream, Frames, AllFrames, Flatten, Parse;
    var m := n.(rest := n.rest + more);
    assert Unread(m) == Unread(n) + more;
    assert Flatten(n.frames) + (Unread(n) + more) == got + more;
    FrontFrames(n.frames, Unread(m));
    ParseKeeps(m);
  }

  lemma Nothing()
    ensures Received(Net([], [], 0, []), [])
  {
  }

  /** What has been handed on: the frames of the stream in order, all but the one that may be held back. */
  lemma ReceivedFrames(n: Net, got: seq<byte>)
    requires Received(n, got)
    ensures n.frames + Frames(Unread(n)) == Frames(got)
    ensures |Frames(Unread(n))| == if 0 < n.less <= |n.rest| then 1 else 0
  {
    FrontFrames(n.frames, Unread(n));
    HeldBack(n);
  }

  /**
   A stream of frames received in pieces of any size: the frames handed on are the frames of the stream
   in order, all of them but the one that may be held back, and no byte is lost.
   */
  method ReceiveAll(conn: Connection, pieces: seq<seq<byte>>)
    requires conn.Valid() && conn.State() == Net([], [], 0, [])
    requires PiecesFit(pieces) && Stream(Flatten(pieces))
    modifies conn, conn.buf
    ensures conn.Valid() && conn.bufLen < HEAD_LEN
    ensures var n := conn.State();
      && Flatten(n.frames) + Unread(n) == Flatten(pieces)
      && n.frames + Frames(Unread(n)) == Frames(Flatten(pieces))
      && |Frames(Unread(n))| == if 0 < n.less <= |n.rest| then 1 else 0
  {
    hide Stream, Frames, AllFrames, Parse, Sound;
    var rest := pieces;
    ghost var got: seq<byte> := [];
    Nothing();
    assert got + Flatten(rest) == Flatten(pieces);
    while |rest| > 0
      invariant conn.Valid() && PiecesFit(rest) && Received(conn.State(), got)
      invariant got + Flatten(rest) == Flatten(pieces)
      decreases |rest|
    {
      assert got + Flatten(rest) == got + rest[0] + Flatten(rest[1..]);
      StreamStarts(got + rest[0], Flatten(rest[1..]));
      ReceiveKeeps(conn.State(), got, rest[0]);
      conn.Receive(rest[0]);
      got := got + rest[0];
      rest := rest[1..];
    }
    assert got + [] == got;
    ReceivedFrames(conn.State(), got);
  }

  // ---------------------------------------------------------------------
  // Garbage in front of a stream
  // ---------------------------------------------------------------------

  /** Garbage: no tag starts in it, not even one that ends in the first byte behind it. */
  predicate Garbage(g: seq<byte>, u: seq<byte>)
  {
    |g| > 0 && forall k :: 0 <= k < |g| ==> !TagAt(g + u, k)
  }

  /** The search finds the start of the stream, and loses it when the garbage is one byte shorter. */
  lemma GarbageStep(fs: seq<seq<byte>>, g: seq<byte>, u: seq<byte>)
    requires Garbage(g, u) && TagAt(u, 0) && |g| + |u| >= HEAD_LEN
    ensures Step(Net(fs, [], 0, g + u)) == if |u| == |g| + 1 then Net(fs, [], 0, []) else Net(fs, [], 0, u)
  {
    var s := g + u;
    assert !TagAt(s, 0);
    assert s[|g|] == u[0] && s[|g| + 1] == u[1];
    assert TagAt(s, |g|);
    var i := FindTag(s, 0);
    assert i == |g|;
    assert s[i..] == u;
  }

  /**
   Parse skips garbage and goes on with the stream behind it as it would without the garbage, except when
   the stream so far is exactly one byte longer than the garbage: then it throws all of it away.
   */
  lemma GarbageSkipped(fs: seq<seq<byte>>, g: seq<byte>, u: seq<byte>)
    requires Garbage(g, u) && TagAt(u, 0) && |g| + |u| >= HEAD_LEN
    ensures Parse(Net(fs, [], 0, g + u)) == Parse(Net(fs, [], 0, if |u| == |g| + 1 then [] else u))
  {
    hide Step;
    ParseOn(Net(fs, [], 0, g + u));
    GarbageStep(fs, g, u);
  }

  /** Frames behind garbage are kept, handed on or held, exactly when they are not the one length that is lost. */
  lemma LostExactly(fs: seq<seq<byte>>, g: seq<byte>, u: seq<byte>)
    requires Garbage(g, u) && TagAt(u, 0) && |g| + |u| >= HEAD_LEN && Stream(u) && AllFrames(fs)
    ensures var m := Parse(Net(fs, [], 0, g + u));
      && (m.frames + Frames(Unread(m)) == fs + Frames(u) && Flatten(m.frames) + Unread(m) == Flatten(fs) + u
          <==> |u| != |g| + 1)
      && (|u| == |g| + 1 ==> m == Net(fs, [], 0, []))
  {
    hide Stream, Frames, AllFrames, Step, Parse, Flatten;
    GarbageSkipped(fs, g, u);
    if |u| == |g| + 1 {
      ParseOn(Net(fs, [], 0, []));
      assert |Flatten(fs) + u| > |Flatten(fs) + []|;
    } else {
      var n, m := Net(fs, [], 0, u), Parse(Net(fs, [], 0, u));
      assert Unread(n) == u;
      ParseKeeps(n);
      FrontFrames(fs, u);
      FrontFrames(m.frames, Unread(m));
    }
  }

  const EMPTY_FRAME: seq<byte> := [TAG_HEAD_1, TAG_HEAD_2] + Zeros(HEAD_LEN - 2)

  function Zeros(n: nat): seq<byte>
  {
    seq(n, _ => 0)
  }

  lemma EmptyFrame()
    ensures IsFrame(EMPTY_FRAME) && TagAt(EMPTY_FRAME, 0)
  {
  }

  /** A complete frame behind 26 bytes of garbage is lost; behind any other number of them it is handed on. */
  lemma FrameLost(i: nat)
    requires i > 0
    ensures IsFrame(EMPTY_FRAME)
    ensures Parse(Net([], [], 0, Zeros(i) + EMPTY_FRAME)) == Net(if i == 26 then [] else [EMPTY_FRAME], [], 0, [])
  {
    EmptyFrame();
    var f, g := EMPTY_FRAME, Zeros(i);
    assert |f| == HEAD_LEN;
    GarbageSkipped([], g, f);
    ParseOn(Net([], [], 0, []));
    ParseOn(Net([], [], 0, f));
    assert f[..HEAD_LEN] == f && f[HEAD_LEN..] == [];
    assert Step(Net([], [], 0, f)) == Net([f], [], 0, []);
    ParseOn(Net([f], [], 0, []));
  }
}
