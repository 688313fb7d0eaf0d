/**
  Messages on the byte stream: sendPacket's length header and recvPacket (section 3 of draft-ietf-secsh-filexfer-02).
 */
module Framing {
  import opened Prelude
  import opened Wire

  const MAX_MSG_LENGTH: nat := 262144

  /** What sendPacket writes for one marshalled packet. */
  function Frame(m: bytes): bytes {
    Put32(|m|) + m
  }

  function FrameAll(ms: seq<bytes>): bytes {
    if ms == [] then [] else Frame(ms[0]) + FrameAll(ms[1..])
  }

  /**
    recvPacket: a message, io.EOF, io.ErrUnexpectedEOF, a message too long, or an empty one, on which b[0] panics.
    io.ReadFull reports io.EOF whenever it got no byte at all, be it of the header or of the message.
   */
  datatype Received = Message(m: bytes, rest: bytes) | EndOfStream | UnexpectedEnd | LongPacket | Panic

  function Recv(stream: bytes): (r: Received)
    ensures r.Message? ==> |r.rest| < |stream|
  {
    if stream == [] then EndOfStream
    else if |stream| < 4 then UnexpectedEnd
    else
      var length := Value32(stream);
      if length > MAX_MSG_LENGTH then LongPacket
      else if length == 0 then Panic
      else if |stream| == 4 then EndOfStream
      else if 4 + length > |stream| then UnexpectedEnd
      else Message(stream[4..4 + length], stream[4 + length..])
  }

  /** The receive loop: messages until something other than a message comes. */
  method RecvAll(stream: bytes) returns (ms: seq<bytes>, last: Received)
    ensures !last.Message?
    ensures ms == Split(stream).0 && last == Split(stream).1
  {
    hide Recv;
    var rest := stream;
    ms, last := [], Recv(stream);
    while last.Message?
      invariant Split(stream).0 == ms + Split(rest).0 && Split(stream).1 == Split(rest).1 && last == Recv(rest)
      decreases |rest|
    {
      ms := ms + [last.m];
      rest := last.rest;
      last := Recv(rest);
    }
  }

  function Split(stream: bytes): (seq<bytes>, Received)
    decreases |stream|
  {
    var r := Recv(stream);
    if r.Message? then
      var (ms, last) := Split(r.rest);
      ([r.m] + ms, last)
    else ([], r)
  }

  /** One framed message is received back exactly when its length is between 1 and the maximum. */
  lemma RecvFrame(m: bytes, t: bytes)
    requires |m| < TWO32
    ensures Recv(Frame(m) + t) == Message(m, t) <==> 1 <= |m| <= MAX_MSG_LENGTH
    ensures |m| == 0 ==> Recv(Frame(m) + t) == Panic
    ensures |m| > MAX_MSG_LENGTH ==> Recv(Frame(m) + t) == LongPacket
  {
    var s := Frame(m) + t;
    assert s == Put32(|m|) + (m + t);
    Value32OfPut(|m|, m + t);
    assert s[4..4 + |m|] == m && s[4 + |m|..] == t;
  }

  /** A message cut short is noticed, except that a stream ending right after a header looks like one that has ended. */
  lemma RecvCut(m: bytes, k: nat)
    requires 1 <= |m| <= MAX_MSG_LENGTH && k < |Frame(m)|
    ensures Recv(Frame(m)[..k]) == if k == 0 || k == 4 then EndOfStream else UnexpectedEnd
  {
    if k >= 4 {
      assert Frame(m)[..k] == Put32(|m|) + m[..k - 4];
      Value32OfPut(|m|, m[..k - 4]);
    }
  }

  predicate Sendable(ms: seq<bytes>) {
    forall m | m in ms :: 1 <= |m| <= MAX_MSG_LENGTH
  }

  /** Any sequence of sendable messages is split back into the same sequence, whatever follows it on the stream. */
  lemma {:induction false} SplitFrames(ms: seq<bytes>, t: bytes)
    requires Sendable(ms)
    ensures Split(FrameAll(ms) + t) == (ms + Split(t).0, Split(t).1)
  {
    hide Recv, Frame;
    if ms == [] {
      assert FrameAll(ms) + t == t && ms + Split(t).0 == Split(t).0;
    } else {
      var rest := FrameAll(ms[1..]) + t;
      assert FrameAll(ms) + t == Frame(ms[0]) + rest;
      RecvFrame(ms[0], rest);
      SplitFrames(ms[1..], t);
      assert [ms[0]] + (ms[1..] + Split(t).0) == ms + Split(t).0;
    }
  }

  lemma StreamRoundTrip(ms: seq<bytes>)
    requires Sendable(ms)
    ensures Split(FrameAll(ms)) == (ms, EndOfStream)
  {
    SplitFrames(ms, []);
    assert FrameAll(ms) + [] == FrameAll(ms) && ms + [] == ms;
  }
}
