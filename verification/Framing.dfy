/**
 * A client's byte stream: messages behind an eight-byte header of transaction id and length, both in
 * network order, arriving in arbitrary pieces; and the secret that opens the way to the message handler.
 */
module Framing {
  import opened Bytes

  const HEADER_SIZE: nat := 8

  datatype Header = Header(tid: nat, length: nat)

  datatype Frame = Frame(tid: nat, body: seq<byte>)

  // -- frames ------------------------------------------------------------------------------------------

  function ReadHeader(buf: seq<byte>): Header
    requires |buf| >= HEADER_SIZE
  {
    Header(FromBE(buf[..4]), FromBE(buf[4..8]))
  }

  /** What has been received but not delivered: a header that was taken off, if any, and the bytes behind it. */
  datatype Residue = Residue(header: Option<Header>, buf: seq<byte>)

  const NOTHING := Residue(None, [])

  /** Too little for the next header, or for the body that the header announces. */
  predicate Waiting(r: Residue) {
    match r.header
    case None => |r.buf| < HEADER_SIZE
    case Some(h) => |r.buf| < h.length
  }

  /** The frames that are complete, and what is left. */
  function Parse(r: Residue): (seq<Frame>, Residue)
    decreases |r.buf| + if r.header.Some? then 1 else 0
  {
    match r.header
    case None =>
      if |r.buf| < HEADER_SIZE then ([], r)
      else Parse(Residue(Some(ReadHeader(r.buf)), r.buf[HEADER_SIZE..]))
    case Some(h) =>
      if |r.buf| < h.length then ([], r)
      else
        var (frames, rest) := Parse(Residue(None, r.buf[h.length..]));
        ([Frame(h.tid, r.buf[..h.length])] + frames, rest)
  }

  function Append(r: Residue, data: seq<byte>): Residue {
    Residue(r.header, r.buf + data)
  }

  lemma {:induction false} ParseLeavesWaiting(r: Residue)
    ensures Waiting(Parse(r).1)
    decreases |r.buf| + if r.header.Some? then 1 else 0
  {
    match r.header
    case None =>
      if |r.buf| >= HEADER_SIZE {
        ParseLeavesWaiting(Residue(Some(ReadHeader(r.buf)), r.buf[HEADER_SIZE..]));
      }
    case Some(h) =>
      if |r.buf| >= h.length {
        ParseLeavesWaiting(Residue(None, r.buf[h.length..]));
      }
  }

  /** Parsing what has come so far and going on from there is parsing it all at once. */
  lemma {:induction false} ParseAppend(r: Residue, data: seq<byte>)
    ensures var (frames, rest) := Parse(r);
      var (more, end) := Parse(Append(rest, data));
      Parse(Append(r, data)) == (frames + more, end)
    decreases |r.buf| + if r.header.Some? then 1 else 0
  {
    var all := Append(r, data);
    match r.header
    case None =>
      if |r.buf| >= HEADER_SIZE {
        var next := Residue(Some(ReadHeader(r.buf)), r.buf[HEADER_SIZE..]);
        ParseAppend(next, data);
        assert all.buf[..4] == r.buf[..4] && all.buf[4..8] == r.buf[4..8];
        assert all.buf[HEADER_SIZE..] == r.buf[HEADER_SIZE..] + data;
        assert Parse(all) == Parse(Append(next, data));
      } else {
        assert [] + Parse(all).0 == Parse(all).0;
      }
    case Some(h) =>
      if |r.buf| >= h.length {
        var next := Residue(None, r.buf[h.length..]);
        ParseAppend(next, data);
        assert all.buf[..h.length] == r.buf[..h.length];
        assert all.buf[h.length..] == r.buf[h.length..] + data;
        var f := Frame(h.tid, r.buf[..h.length]);
        var (frames, rest) := Parse(next);
        Associate([f], frames, Parse(Append(rest, data)).0);
        assert Parse(all).0 == [f] + Parse(Append(next, data)).0;
      } else {
        assert [] + Parse(all).0 == Parse(all).0;
      }
  }

  /** Feeding pieces one after the other. */
  function Feed(r: Residue, pieces: seq<seq<byte>>): (seq<Frame>, Residue)
    decreases |pieces|
  {
    if pieces == [] then ([], r)
    else
      var (frames, rest) := Parse(Append(r, pieces[0]));
      var (more, end) := Feed(rest, pieces[1..]);
      (frames + more, end)
  }

  function Joined(pieces: seq<seq<byte>>): seq<byte> {
    if pieces == [] then [] else pieces[0] + Joined(pieces[1..])
  }

  /** However a stream is cut into pieces, the same frames come out and the same residue stays. */
  lemma {:induction false} PiecesDoNotMatter(r: Residue, pieces: seq<seq<byte>>)
    requires Waiting(r)
    ensures Feed(r, pieces) == Parse(Append(r, Joined(pieces)))
    decreases |pieces|
  {
    if pieces == [] {
      assert r.buf + [] == r.buf;
    } else {
      var first, others := Append(r, pieces[0]), Joined(pieces[1..]);
      var (frames, rest) := Parse(first);
      ParseLeavesWaiting(first);
      PiecesDoNotMatter(rest, pieces[1..]);
      ParseAppend(first, others);
      Associate(r.buf, pieces[0], others);
      assert Append(first, others) == Append(r, Joined(pieces));
    }
  }

  /** What the writer puts on the wire; the length field is 32 bits wide, whatever the length is. */
  function Wire(f: Frame): seq<byte> {
    BE(f.tid, 4) + BE(|f.body| % TWO32, 4) + f.body
  }

  predicate Sendable(f: Frame) {
    f.tid < TWO32 && |f.body| < TWO32
  }

  /** On the wire: the transaction id, the length, both with the most significant byte first, and the message. */
  lemma WireBytes(f: Frame)
    requires Sendable(f)
    ensures var w := Wire(f);
      && |w| == 8 + |f.body| && w[8..] == f.body
      && f.tid == w[0] as nat * 0x100_0000 + w[1] as nat * 0x1_0000 + w[2] as nat * 0x100 + w[3] as nat
      && |f.body| == w[4] as nat * 0x100_0000 + w[5] as nat * 0x1_0000 + w[6] as nat * 0x100 + w[7] as nat
  {
    BytesOfBE(f.tid);
    BytesOfBE(|f.body|);
    assert forall i :: 0 <= i < 4 ==> Wire(f)[i] == BE(f.tid, 4)[i] && Wire(f)[4 + i] == BE(|f.body|, 4)[i];
  }

  lemma WireHeader(f: Frame, rest: seq<byte>)
    requires f.tid < TWO32
    ensures |Wire(f) + rest| >= HEADER_SIZE
    ensures ReadHeader(Wire(f) + rest) == Header(f.tid, |f.body| % TWO32)
    ensures (Wire(f) + rest)[HEADER_SIZE..] == f.body + rest
  {
    var w := Wire(f) + rest;
    assert w[..4] == BE(f.tid, 4) && w[4..8] == BE(|f.body| % TWO32, 4);
    Pow256Values();
    BERoundTrip(f.tid, 4);
    BERoundTrip(|f.body| % TWO32, 4);
  }

  lemma ParseWire(f: Frame, rest: seq<byte>)
    requires Sendable(f)
    ensures Parse(Residue(None, Wire(f) + rest))
         == ([f] + Parse(Residue(None, rest)).0, Parse(Residue(None, rest)).1)
  {
    hide Wire;
    WireHeader(f, rest);
    Cut(f.body, rest);
    assert Parse(Residue(None, Wire(f) + rest)) == Parse(Residue(Some(Header(f.tid, |f.body|)), f.body + rest));
  }

  /** Any messages, written and cut into any pieces, arrive as they were, with nothing left over. */
  lemma {:induction false} FramesRoundTrip(frames: seq<Frame>, pieces: seq<seq<byte>>)
    requires forall f :: f in frames ==> Sendable(f)
    requires Joined(pieces) == Concat(Wire, frames)
    ensures Feed(NOTHING, pieces) == (frames, NOTHING)
  {
    PiecesDoNotMatter(NOTHING, pieces);
    assert [] + Joined(pieces) == Joined(pieces);
    ParseAll(frames);
  }

  lemma {:induction false} ParseAll(frames: seq<Frame>)
    requires forall f :: f in frames ==> Sendable(f)
    ensures Parse(Residue(None, Concat(Wire, frames))) == (frames, NOTHING)
  {
    if frames != [] {
      ParseWire(frames[0], Concat(Wire, frames[1..]));
      ParseAll(frames[1..]);
      assert frames == [frames[0]] + frames[1..];
    }
  }

  /** A single message arrives as it was exactly when its length fits the header. */
  lemma OneFrameRoundTrip(f: Frame)
    requires f.tid < TWO32
    ensures Parse(Residue(None, Wire(f))) == ([f], NOTHING) <==> |f.body| < TWO32
  {
    assert Wire(f) + [] == Wire(f);
    if |f.body| < TWO32 {
      ParseWire(f, []);
      assert Parse(NOTHING) == ([], NOTHING);
      assert [f] + [] == [f];
    } else {
      WireHeader(f, []);
      var h := Header(f.tid, |f.body| % TWO32);
      assert Parse(Residue(None, Wire(f))) == Parse(Residue(Some(h), f.body + []));
      assert |Parse(Residue(Some(h), f.body + [])).0[0].body| == h.length;
    }
  }

  // -- the secret ----------------------------------------------------------------------------------------

  type Text = seq<bv8>

  const AUTH: Text := [0x61, 0x75, 0x74, 0x68]

  /** What the BSON reader makes of a message sent before authentication; missing fields read as empty. */
  datatype AuthDocument = Unparsable | Document(cmd: Text, secret: Text)

  datatype AuthResult = Authenticated | ParseFailed | AuthenticationFailed | AuthenticationRequired

  function Judge(secret: Text, doc: AuthDocument): AuthResult {
    match doc
    case Unparsable => ParseFailed
    case Document(cmd, given) =>
      if cmd != AUTH then AuthenticationRequired
      else if given == secret && secret != [] then Authenticated
      else AuthenticationFailed
  }

  /** The differences of all bytes, or-ed together, are zero exactly when there is no difference. */
  method SameText(a: Text, b: Text) returns (same: bool)
    requires |a| == |b|
    ensures same <==> a == b
  {
    var diff: bv8 := 0;
    for i := 0 to |a|
      invariant diff == 0 <==> a[..i] == b[..i]
    {
      NoDifference(diff, a[i], b[i]);
      assert a[..i + 1] == a[..i] + [a[i]] && b[..i + 1] == b[..i] + [b[i]];
      diff := diff | (a[i] ^ b[i]);
    }
    assert a[..|a|] == a && b[..|b|] == b;
    same := diff == 0;
  }

  lemma NoDifference(d: bv8, x: bv8, y: bv8)
    ensures d | (x ^ y) == 0 <==> d == 0 && x == y
  {
  }

  // -- a client ----------------------------------------------------------------------------------------

  /** The code around a client: its secret, how BSON is read and written, and the message handler, whose
      reply may depend on everything it has been given so far. */
  datatype Surroundings = Surroundings(
    secret: Text,
    read: seq<byte> -> AuthDocument,
    render: AuthResult -> seq<byte>,
    handler: seq<Frame> -> Option<seq<byte>>)

  datatype Session = Session(authed: bool, delivered: seq<Frame>, replies: seq<Frame>)

  const NEW_SESSION := Session(false, [], [])

  function Handle(c: Surroundings, s: Session, f: Frame): Session {
    if !s.authed then
      var result := Judge(c.secret, c.read(f.body));
      Session(result.Authenticated?, s.delivered, s.replies + [Frame(f.tid, c.render(result))])
    else
      var delivered := s.delivered + [f];
      var reply := c.handler(delivered);
      Session(true, delivered, s.replies + if reply.Some? then [Frame(f.tid, reply.value)] else [])
  }

  function HandleAll(c: Surroundings, s: Session, frames: seq<Frame>): Session
    decreases |frames|
  {
    if frames == [] then s else HandleAll(c, Handle(c, s, frames[0]), frames[1..])
  }

  lemma {:induction false} HandleAppend(c: Surroundings, s: Session, a: seq<Frame>, b: seq<Frame>)
    ensures HandleAll(c, s, a + b) == HandleAll(c, HandleAll(c, s, a), b)
    decreases |a|
  {
    if a == [] {
      assert a + b == b;
    } else {
      assert (a + b)[0] == a[0] && (a + b)[1..] == a[1..] + b;
      HandleAppend(c, Handle(c, s, a[0]), a[1..], b);
    }
  }

  /** Without the secret nothing is delivered, and every message is answered by what is wrong with it. */
  lemma {:induction false} WithoutTheSecret(c: Surroundings, s: Session, frames: seq<Frame>)
    requires !s.authed
    requires forall f :: f in frames ==>
               c.secret == [] || c.read(f.body) != Document([0x61, 0x75, 0x74, 0x68], c.secret)
    ensures var end := HandleAll(c, s, frames);
      && !end.authed && end.delivered == s.delivered
      && s.replies <= end.replies && |end.replies| == |s.replies| + |frames|
      && forall i :: 0 <= i < |frames| ==>
           var doc, reply := c.read(frames[i].body), end.replies[|s.replies| + i];
           && reply.tid == frames[i].tid
           && (doc.Unparsable? ==> reply.body == c.render(ParseFailed))
           && (doc.Document? && doc.cmd != [0x61, 0x75, 0x74, 0x68] ==> reply.body == c.render(AuthenticationRequired))
           && (doc.Document? && doc.cmd == [0x61, 0x75, 0x74, 0x68] ==> reply.body == c.render(AuthenticationFailed))
    decreases |frames|
  {
    if frames != [] {
      var next := Handle(c, s, frames[0]);
      assert frames[0] in frames;
      WithoutTheSecret(c, next, frames[1..]);
      var end := HandleAll(c, s, frames);
      assert end.replies[|s.replies|] == next.replies[|s.replies|];
      forall i | 0 < i < |frames| ensures frames[i] == frames[1..][i - 1] {
      }
    }
  }

  /**
   * The first message with the secret lets the client in, and is told so; the handler is given exactly what comes
   * after it, and its are the replies from then on.
   */
  lemma BehindTheSecret(c: Surroundings, s: Session, frames: seq<Frame>, k: nat)
    requires !s.authed && k < |frames|
    requires c.secret != [] && c.read(frames[k].body) == Document([0x61, 0x75, 0x74, 0x68], c.secret)
    requires forall f :: f in frames[..k] ==> c.read(f.body) != Document([0x61, 0x75, 0x74, 0x68], c.secret)
    ensures var end := HandleAll(c, s, frames);
      && end.authed && end.delivered == s.delivered + frames[k + 1..]
      && end.replies == HandleAll(c, s, frames[..k]).replies + [Frame(frames[k].tid, c.render(Authenticated))]
                        + Answered(c, s.delivered, frames[k + 1..])
  {
    WithoutTheSecret(c, s, frames[..k]);
    var before := HandleAll(c, s, frames[..k]);
    HandleAppend(c, s, frames[..k], frames[k..]);
    assert frames == frames[..k] + frames[k..];
    assert frames[k..][0] == frames[k] && frames[k..][1..] == frames[k + 1..];
    OnceOpen(c, Handle(c, before, frames[k]), frames[k + 1..]);
  }

  /** A client gets in if and only if some message reads as the command "auth" with the server's secret, which is not
      empty. */
  lemma OnlyTheSecretOpens(c: Surroundings, s: Session, frames: seq<Frame>)
    requires !s.authed
    ensures HandleAll(c, s, frames).authed <==>
      c.secret != [] && exists f :: f in frames && c.read(f.body) == Document([0x61, 0x75, 0x74, 0x68], c.secret)
  {
    if c.secret != [] && exists f :: f in frames && c.read(f.body) == Document([0x61, 0x75, 0x74, 0x68], c.secret) {
      var k := FirstWith(c, frames);
      BehindTheSecret(c, s, frames, k);
    } else {
      WithoutTheSecret(c, s, frames);
    }
  }

  lemma {:induction false} FirstWith(c: Surroundings, frames: seq<Frame>) returns (k: nat)
    requires exists f :: f in frames && c.read(f.body) == Document([0x61, 0x75, 0x74, 0x68], c.secret)
    ensures k < |frames| && c.read(frames[k].body) == Document([0x61, 0x75, 0x74, 0x68], c.secret)
    ensures forall f :: f in frames[..k] ==> c.read(f.body) != Document([0x61, 0x75, 0x74, 0x68], c.secret)
  {
    k := 0;
    if c.read(frames[0].body) != Document([0x61, 0x75, 0x74, 0x68], c.secret) {
      k := FirstWith(c, frames[1..]);
      assert frames[..k + 1] == [frames[0]] + frames[1..][..k];
      k := k + 1;
    }
  }

  /** The handler's replies, each under the transaction id of its message. */
  function Answered(c: Surroundings, given: seq<Frame>, frames: seq<Frame>): seq<Frame>
    decreases |frames|
  {
    if frames == [] then []
    else
      var now := given + [frames[0]];
      (match c.handler(now) case Some(body) => [Frame(frames[0].tid, body)] case None => [])
      + Answered(c, now, frames[1..])
  }

  lemma {:induction false} OnceOpen(c: Surroundings, s: Session, frames: seq<Frame>)
    requires s.authed
    ensures var end := HandleAll(c, s, frames);
      end.authed && end.delivered == s.delivered + frames && end.replies == s.replies + Answered(c, s.delivered, frames)
    decreases |frames|
  {
    if frames != [] {
      var next := Handle(c, s, frames[0]);
      OnceOpen(c, next, frames[1..]);
      assert frames == [frames[0]] + frames[1..];
    }
  }

  /** A server without a secret lets nobody in. */
  lemma NoSecretNoAccess(c: Surroundings, frames: seq<Frame>)
    requires c.secret == []
    ensures !HandleAll(c, NEW_SESSION, frames).authed && HandleAll(c, NEW_SESSION, frames).delivered == []
  {
    WithoutTheSecret(c, NEW_SESSION, frames);
  }

  class UvClient {
    const config: Surroundings
    var authed: bool
    var recvBuffer: seq<byte>
    var receivedHeader: Option<Header>
    var stream: seq<byte>
    // the messages the handler was given, which is all it can remember, and the replies written
    var delivered: seq<Frame>
    ghost var replies: seq<Frame>

    constructor (config: Surroundings)
      ensures Valid() && this.config == config && State() == NEW_SESSION && Unparsed() == NOTHING
    {
      this.config := config;
      authed, recvBuffer, receivedHeader, stream := false, [], None, [];
      delivered, replies := [], [];
    }

    ghost function State(): Session
      reads `authed, `delivered, `replies
    {
      Session(authed, delivered, replies)
    }

    ghost function Unparsed(): Residue
      reads `recvBuffer, `receivedHeader
    {
      Residue(receivedHeader, recvBuffer)
    }

    /** The bytes written are the replies, framed. */
    ghost predicate Valid()
      reads `stream, `replies
    {
      stream == Concat(Wire, replies)
    }

    method WriteMessage(tid: nat, msg: seq<byte>)
      modifies `stream
      ensures stream == old(stream) + Wire(Frame(tid, msg))
    {
      var frameSize := HEADER_SIZE + |msg|;
      var data := new byte[frameSize](_ => 0);
      Memcpy(data, 0, BE(tid, 4));
      Memcpy(data, 4, BE(|msg| % TWO32, 4));
      Memcpy(data, HEADER_SIZE, msg);
      assert data[..] == BE(tid, 4) + BE(|msg| % TWO32, 4) + msg;
      stream := stream + data[..];
    }

    method HandleAuth(msg: seq<byte>) returns (result: AuthResult)
      modifies `authed
      ensures result == Judge(config.secret, config.read(msg))
      ensures result.Authenticated? <==>
        config.secret != [] && config.read(msg) == Document([0x61, 0x75, 0x74, 0x68], config.secret)
      ensures result.ParseFailed? <==> config.read(msg).Unparsable?
      ensures result.AuthenticationRequired? <==>
        config.read(msg).Document? && config.read(msg).cmd != [0x61, 0x75, 0x74, 0x68]
      ensures authed == (old(authed) || result.Authenticated?)
    {
      match config.read(msg)
      case Unparsable => return ParseFailed;
      case Document(cmd, secret) =>
        if cmd == AUTH {
          if |secret| == |config.secret| && config.secret != [] {
            var same := SameText(secret, config.secret);
            if same {
              authed := true;
              return Authenticated;
            }
          }
          return AuthenticationFailed;
        }
        return AuthenticationRequired;
    }

    method HandleMessage(msg: seq<byte>)
      requires Valid() && receivedHeader.Some?
      modifies `authed, `stream, `delivered, `replies
      ensures Valid() && State() == Handle(config, old(State()), Frame(receivedHeader.value.tid, msg))
    {
      var reply: Option<seq<byte>>;
      var f := Frame(receivedHeader.value.tid, msg);
      if !authed {
        var result := HandleAuth(msg);
        reply := Some(config.render(result));
      } else {
        delivered := delivered + [f];
        reply := config.handler(delivered);
      }
      if reply.Some? {
        ConcatAppend(Wire, replies, [Frame(f.tid, reply.value)]);
        assert Concat(Wire, [Frame(f.tid, reply.value)]) == Wire(Frame(f.tid, reply.value)) + Concat(Wire, []);
        WriteMessage(receivedHeader.value.tid, reply.value);
        replies := replies + [Frame(f.tid, reply.value)];
      }
    }

    /** One piece of the stream: every frame it completes is handled, in order, and the rest is kept. */
    method OnData(data: seq<byte>)
      requires Valid()
      modifies this
      ensures Valid() && Waiting(Unparsed())
      ensures var (frames, rest) := Parse(Append(old(Unparsed()), data));
        Unparsed() == rest && State() == HandleAll(config, old(State()), frames)
    {
      recvBuffer := recvBuffer + data;
      ghost var (frames, rest) := Parse(Unparsed());
      ghost var done: seq<Frame> := [];
      while true
        invariant Valid()
        invariant done + Parse(Unparsed()).0 == frames && Parse(Unparsed()).1 == rest
        invariant State() == HandleAll(config, old(State()), done)
        decreases |recvBuffer| + if receivedHeader.Some? then 1 else 0
      {
        if receivedHeader.None? {
          if |recvBuffer| >= HEADER_SIZE {
            receivedHeader := Some(ReadHeader(recvBuffer));
            recvBuffer := recvBuffer[HEADER_SIZE..];
          } else {
            break;
          }
        }
        if receivedHeader.Some? && |recvBuffer| >= receivedHeader.value.length {
          var msg := recvBuffer[..receivedHeader.value.length];
          ghost var f := Frame(receivedHeader.value.tid, msg);
          HandleMessage(msg);
          HandleAppend(config, old(State()), done, [f]);
          Associate(done, [f], Parse(Residue(None, recvBuffer[receivedHeader.value.length..])).0);
          done := done + [f];
          recvBuffer := recvBuffer[receivedHeader.value.length..];
          receivedHeader := None;
        } else if receivedHeader.Some? {
          break;
        }
      }
      assert Parse(Unparsed()).0 == [] && done + [] == done;
    }
  }

  /** So a client ends up in the same session, with the same residue, however its stream was cut. */
  function Receive(c: Surroundings, s: Session, r: Residue, pieces: seq<seq<byte>>): (Session, Residue)
    decreases |pieces|
  {
    if pieces == [] then (s, r)
    else
      var (frames, rest) := Parse(Append(r, pieces[0]));
      Receive(c, HandleAll(c, s, frames), rest, pieces[1..])
  }

  lemma {:induction false} SessionOfAStream(c: Surroundings, s: Session, r: Residue, pieces: seq<seq<byte>>)
    requires Waiting(r)
    ensures var (frames, rest) := Parse(Append(r, Joined(pieces)));
      Receive(c, s, r, pieces) == (HandleAll(c, s, frames), rest)
  {
    PiecesDoNotMatter(r, pieces);
    ReceiveIsFeed(c, s, r, pieces);
  }

  lemma {:induction false} ReceiveIsFeed(c: Surroundings, s: Session, r: Residue, pieces: seq<seq<byte>>)
    ensures Receive(c, s, r, pieces) == (HandleAll(c, s, Feed(r, pieces).0), Feed(r, pieces).1)
    decreases |pieces|
  {
    if pieces != [] {
      var (frames, rest) := Parse(Append(r, pieces[0]));
      ReceiveIsFeed(c, HandleAll(c, s, frames), rest, pieces[1..]);
      HandleAppend(c, s, frames, Feed(rest, pieces[1..]).0);
    }
  }
}
