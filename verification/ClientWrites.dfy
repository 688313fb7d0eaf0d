/**
  File.Write and File.ReadFrom: a buffer, or a reader's stream, cut into write
  packets and kept in flight in a growing window.
 */
module ClientWrites {
  import opened Prelude
  import opened MemStore

  /**
    What can come out of the result channel: a status, a result carrying an error of its own, a packet of another
    type.
   */
  datatype Result = Status(err: Error) | Lost(err: Error) | Unexpected

  const UNIMPLEMENTED: nat := 2

  /** One Read of the source reader. */
  datatype ReadResult = ReadResult(data: seq<byte>, err: Error)

  /** The i-th Read; a reader that has nothing left reports io.EOF. */
  function ReadAtTurn(reader: seq<ReadResult>, i: nat): ReadResult {
    if i < |reader| then reader[i] else ReadResult([], Eof)
  }

  /** The number of Reads until the reader reports an error, that Read included. */
  function Reads(reader: seq<ReadResult>): (n: nat)
    ensures 1 <= n <= |reader| + 1
    ensures ReadAtTurn(reader, n - 1).err != Ok
    ensures forall i | 0 <= i < n - 1 :: ReadAtTurn(reader, i).err == Ok
  {
    if reader == [] || reader[0].err != Ok then 1
    else
      var n := Reads(reader[1..]);
      assert forall i | 1 <= i <= n :: ReadAtTurn(reader, i) == ReadAtTurn(reader[1..], i - 1);
      1 + n
  }

  /** The bytes of the first n Reads. */
  function Stream(reader: seq<ReadResult>, n: nat): seq<byte> {
    if n == 0 then [] else Stream(reader, n - 1) + ReadAtTurn(reader, n - 1).data
  }

  /** The write packets that carry the first n Reads one after the other from offset off. */
  function StreamPackets(reader: seq<ReadResult>, off: nat, n: nat): seq<WritePacket> {
    if n == 0 then []
    else StreamPackets(reader, off, n - 1)
         + [WritePacket(off + |Stream(reader, n - 1)|, ReadAtTurn(reader, n - 1).data)]
  }

  /** The packets of a stream are contiguous, and their data put together is the stream. */
  lemma {:induction false} StreamTiled(reader: seq<ReadResult>, off: nat, n: nat)
    ensures
      var ws := StreamPackets(reader, off, n);
      && |ws| == n
      && (n > 0 ==> ws[0].offset == off)
      && (forall i | 0 <= i < n - 1 :: ws[i + 1].offset == ws[i].offset + |ws[i].data|)
      && (n > 0 ==> ws[n - 1].offset + |ws[n - 1].data| == off + |Stream(reader, n)|)
      && Stream(reader, n) == DataOf(ws)
  {
    if n > 0 {
      StreamTiled(reader, off, n - 1);
      var ws := StreamPackets(reader, off, n);
      assert ws[..n - 1] == StreamPackets(reader, off, n - 1);
      if n > 1 {
        assert ws[n - 2] == StreamPackets(reader, off, n - 1)[n - 2];
      }
      forall i | 0 <= i < n - 1
        ensures ws[i + 1].offset == ws[i].offset + |ws[i].data|
      {
        if i < n - 2 {
          var vs := StreamPackets(reader, off, n - 1);
          assert ws[i] == vs[i] && ws[i + 1] == vs[i + 1];
        }
      }
    }
  }

  function DataOf(ws: seq<WritePacket>): seq<byte> {
    if ws == [] then [] else DataOf(ws[..|ws| - 1]) + ws[|ws| - 1].data
  }

  function Normal(e: Error): Error {
    if e == Eof then Ok else e
  }

  lemma NextTile(b: seq<byte>, off: nat, done: nat, maxPacket: nat)
    requires done < |b| && maxPacket >= 1
    ensures
      var l := Min(|b| - done, maxPacket);
      Tiles(b[done..], off + done, maxPacket)
      == [WritePacket(off + done, b[done..done + l])] + Tiles(b[done + l..], off + done + l, maxPacket)
  {
    var l := Min(|b| - done, maxPacket);
    assert b[done..][l..] == b[done + l..] && b[done..][..l] == b[done..done + l];
  }

  lemma NoTiles(off: nat, maxPacket: nat)
    requires maxPacket >= 1
    ensures Tiles([], off, maxPacket) == []
  {
  }

  /** The first `done` bytes of the buffer have gone out as `sent`, the rest is still to be tiled. */
  ghost predicate SentSoFar(b: seq<byte>, off: nat, maxPacket: nat, done: nat, sent: seq<WritePacket>)
    requires done <= |b| && maxPacket >= 1
  {
    Tiles(b, off, maxPacket) == sent + Tiles(b[done..], off + done, maxPacket)
  }

  lemma SendsNext(b: seq<byte>, off: nat, maxPacket: nat, done: nat, sent: seq<WritePacket>)
    requires done < |b| && maxPacket >= 1 && SentSoFar(b, off, maxPacket, done, sent)
    ensures
      var l := Min(|b| - done, maxPacket);
      SentSoFar(b, off, maxPacket, done + l, sent + [WritePacket(off + done, b[done..done + l])])
  {
    hide Tiles;
    var l := Min(|b| - done, maxPacket);
    NextTile(b, off, done, maxPacket);
    Assoc(sent, [WritePacket(off + done, b[done..done + l])], Tiles(b[done + l..], off + done + l, maxPacket));
  }

  lemma SentPrefix(b: seq<byte>, off: nat, maxPacket: nat, done: nat, sent: seq<WritePacket>)
    requires done <= |b| && maxPacket >= 1 && SentSoFar(b, off, maxPacket, done, sent)
    ensures sent <= Tiles(b, off, maxPacket)
    ensures done == |b| ==> sent == Tiles(b, off, maxPacket)
  {
    if done == |b| {
      NoTiles(off + |b|, maxPacket);
      assert b[|b|..] == [];
    }
  }

  lemma NothingSent(b: seq<byte>, off: nat, maxPacket: nat)
    requires maxPacket >= 1
    ensures SentSoFar(b, off, maxPacket, 0, [])
  {
    assert b[0..] == b;
  }

  /** The first |sent| Reads, `total` bytes in all, have gone out as `sent`. */
  ghost predicate StreamedSoFar(reader: seq<ReadResult>, off: nat, sent: seq<WritePacket>, total: nat) {
    sent == StreamPackets(reader, off, |sent|) && total == |Stream(reader, |sent|)|
  }

  lemma Streamed(reader: seq<ReadResult>, off: nat, sent: seq<WritePacket>, total: nat)
    requires StreamedSoFar(reader, off, sent, total)
    ensures sent == StreamPackets(reader, off, |sent|) && total == |Stream(reader, |sent|)|
  {
  }

  lemma StreamsNext(reader: seq<ReadResult>, off: nat, sent: seq<WritePacket>, total: nat)
    requires StreamedSoFar(reader, off, sent, total)
    ensures
      var data := ReadAtTurn(reader, |sent|).data;
      StreamedSoFar(reader, off, sent + [WritePacket(off + total, data)], total + |data|)
  {
    hide ReadAtTurn;
  }

  /**
    What comes out of the result channel at each turn. Every behaviour of the server and the network is one such
    function; a result that carries an error of its own is never nil.
   */
  type Replies = nat -> Result

  ghost predicate Plausible(replies: Replies) {
    forall t :: replies(t).Lost? ==> replies(t).err != Ok
  }

  /** The first n results are all OK statuses. */
  ghost predicate AllOk(replies: Replies, n: nat) {
    forall t | 0 <= t < n :: replies(t) == Status(Ok)
  }

  ghost predicate AllStatus(replies: Replies, n: nat) {
    forall t | 0 <= t < n :: replies(t).Status?
  }

  /** The first error among the first n statuses, Ok when there is none. */
  function FirstError(replies: Replies, n: nat): Error {
    if n == 0 then Ok
    else
      var before := FirstError(replies, n - 1);
      if before != Ok then before else if replies(n - 1).Status? then replies(n - 1).err else Ok
  }

  lemma {:induction false} NoErrorMeansOk(replies: Replies, n: nat)
    requires AllStatus(replies, n)
    ensures FirstError(replies, n) == Ok <==> AllOk(replies, n)
  {
    if n > 0 {
      NoErrorMeansOk(replies, n - 1);
    }
  }

  /** The error recorded after one more result: a status error only when there was none before, anything else always. */
  function OnReply(firstErr: Error, res: Result): Error {
    match res
    case Lost(e) => e
    case Unexpected => Failed(UNIMPLEMENTED)
    case Status(e) => if e != Ok && firstErr == Ok then e else firstErr
  }

  // ---- what becomes of a stream ------------------------------------------------------

  /** The number of packets sent before result t is received, when the results before it were all OK. */
  function Out(t: nat, max: nat): nat
    requires max >= 1
  {
    t + Min(t + 1, max)
  }

  /** The number of packets sent for a stream of `count` Reads, when the first t results are OK. */
  function Sent(replies: Replies, count: nat, max: nat, t: nat): nat
    requires max >= 1
    decreases count - t
  {
    if Out(t, max) >= count then count
    else if replies(t) == Status(Ok) then Sent(replies, count, max, t + 1)
    else Out(t, max)
  }

  /** The error of the last of the first n results that was no status. */
  function LastOther(replies: Replies, n: nat): Option<Error> {
    if n == 0 then None
    else
      match replies(n - 1)
      case Status(_) => LastOther(replies, n - 1)
      case Lost(e) => Some(e)
      case Unexpected => Some(Failed(UNIMPLEMENTED))
  }

  /** The error that n results add up to: the last one that was no status wins, else the first status error counts. */
  function ReplyError(replies: Replies, n: nat): Error {
    match LastOther(replies, n)
    case Some(e) => e
    case None => FirstError(replies, n)
  }

  lemma ReplyAdds(replies: Replies, n: nat)
    requires Plausible(replies)
    ensures ReplyError(replies, n + 1) == OnReply(ReplyError(replies, n), replies(n))
    ensures ReplyError(replies, n) == Ok <==> AllOk(replies, n)
  {
    OthersMatter(replies, n);
    if AllStatus(replies, n) {
      NoErrorMeansOk(replies, n);
    }
  }

  function ReaderError(reader: seq<ReadResult>): (e: Error)
    ensures e != Ok
  {
    ReadAtTurn(reader, Reads(reader) - 1).err
  }

  /**
    The error recorded after n Reads and `turn` results: the last result that was no status wins; without one it is
    the reader's own if its end has been reached, and else the first status error.
   */
  function Verdict(reader: seq<ReadResult>, replies: Replies, n: nat, turn: nat): Error {
    match LastOther(replies, turn)
    case Some(e) => e
    case None => if n == Reads(reader) then ReaderError(reader) else FirstError(replies, turn)
  }

  lemma {:induction false} OthersMatter(replies: Replies, n: nat)
    requires Plausible(replies)
    ensures LastOther(replies, n) != Some(Ok)
    ensures LastOther(replies, n) == None <==> AllStatus(replies, n)
  {
    if n > 0 {
      OthersMatter(replies, n - 1);
    }
  }

  lemma Undecided(reader: seq<ReadResult>, replies: Replies, n: nat, turn: nat)
    requires Plausible(replies) && n <= Reads(reader)
    ensures Verdict(reader, replies, n, turn) == Ok <==> n < Reads(reader) && AllOk(replies, turn)
  {
    OthersMatter(replies, turn);
    hide LastOther, ReaderError, Reads;
    if AllStatus(replies, turn) {
      NoErrorMeansOk(replies, turn);
    }
  }

  lemma ReplyDecides(reader: seq<ReadResult>, replies: Replies, n: nat, turn: nat)
    requires Plausible(replies)
    ensures Verdict(reader, replies, n, turn + 1) == OnReply(Verdict(reader, replies, n, turn), replies(turn))
  {
    OthersMatter(replies, turn);
    hide ReaderError, Reads, AllStatus;
  }

  /** Reading ahead decides the error only by reaching the reader's end. */
  lemma ReadsDecide(reader: seq<ReadResult>, replies: Replies, n: nat, turn: nat, m: nat)
    requires Plausible(replies) && n <= m <= Reads(reader) && Verdict(reader, replies, n, turn) == Ok
    ensures Verdict(reader, replies, m, turn) == if m < Reads(reader) then Ok else ReaderError(reader)
  {
    OthersMatter(replies, turn);
    hide ReaderError, Reads, AllStatus, LastOther;
  }

  /** The window while nothing has gone wrong: how far it has grown and how much has been sent. */
  ghost predicate Windowed(count: nat, max: nat, replies: Replies, t: nat, n: nat, desired: nat, firstErr: Error)
    requires max >= 1
  {
    if firstErr == Ok then
      && desired == Min(t + 1, max) && n == (if t == 0 then 0 else Out(t - 1, max)) < count
      && Sent(replies, count, max, 0) == Sent(replies, count, max, t)
    else Sent(replies, count, max, 0) == n
  }

  lemma WindowMoves(count: nat, max: nat, replies: Replies, t: nat, n: nat, desired: nat, m: nat, firstErr: Error)
    requires max >= 1 && Plausible(replies) && Windowed(count, max, replies, t, n, desired, Ok)
    requires n <= m <= count && m - t <= desired
    requires firstErr == Ok <==> m < count
    requires firstErr == Ok ==> m - t >= desired
    ensures m == Min(count, Out(t, max))
    ensures
      Windowed(count, max, replies, t + 1, m, Window(replies(t), firstErr, desired, max),
               OnReply(firstErr, replies(t)))
  {
  }

  /** The window grows with every status that is OK or comes too late to be recorded. */
  function Window(res: Result, firstErr: Error, desired: nat, max: nat): (d: nat)
    ensures d == desired || d == desired + 1 <= max
  {
    if res.Status? && (res.err == Ok || firstErr != Ok) && desired < max then desired + 1 else desired
  }

  /** A turn of the loop, the first part of which is skipped once an error has been recorded. */
  lemma WindowTurn(count: nat, max: nat, replies: Replies, t: nat, n: nat, desired: nat, err0: Error, m: nat,
                   firstErr: Error,
                   desired': nat)
    requires max >= 1 && Plausible(replies) && Windowed(count, max, replies, t, n, desired, err0)
    requires err0 == Ok ==> n <= m <= count && m - t <= desired
    requires err0 == Ok ==> (firstErr == Ok <==> m < count) && (firstErr == Ok ==> m - t >= desired)
    requires err0 != Ok ==> m == n && firstErr == err0
    requires desired' == Window(replies(t), firstErr, desired, max)
    ensures Windowed(count, max, replies, t + 1, m, desired', OnReply(firstErr, replies(t)))
  {
    if err0 == Ok {
      WindowMoves(count, max, replies, t, n, desired, m, firstErr);
    }
  }

  /** The same for a buffer of `count` tiles, whose end is no error. */
  ghost predicate Tiling(count: nat, max: nat, replies: Replies, t: nat, n: nat, desired: nat, firstErr: Error)
    requires max >= 1
  {
    if firstErr == Ok then
      && desired == Min(t + 1, max) && n == (if t == 0 then 0 else Min(count, Out(t - 1, max)))
      && Sent(replies, count, max, 0) == if n < count then Sent(replies, count, max, t) else count
    else Sent(replies, count, max, 0) == n
  }

  lemma TilingMoves(count: nat, max: nat, replies: Replies, t: nat, n: nat, desired: nat, m: nat, err: Error)
    requires max >= 1 && Plausible(replies) && Tiling(count, max, replies, t, n, desired, err)
    requires if err == Ok then n <= m <= count && m - t <= desired && (m < count ==> m - t >= desired) else m == n
    ensures Tiling(count, max, replies, t + 1, m, Window(replies(t), err, desired, max), OnReply(err, replies(t)))
  {
  }

  /** The whole of it: the window, and the error recorded after t results. */
  ghost predicate Buffered(count: nat, max: nat, replies: Replies, t: nat, n: nat, desired: nat, firstErr: Error)
    requires max >= 1
  {
    n <= count && firstErr == ReplyError(replies, t) && Tiling(count, max, replies, t, n, desired, firstErr)
  }

  lemma BufferFirst(count: nat, max: nat, replies: Replies)
    requires max >= 1
    ensures Buffered(count, max, replies, 0, 0, 1, Ok)
  {
  }

  /** What sending ahead leaves: the window is full, or the buffer used up. */
  ghost predicate SentOn(count: nat, desired: nat, inFlight: nat, n: nat, m: nat) {
    n <= m <= count && inFlight <= desired && (m < count ==> inFlight == desired)
  }

  lemma BufferTurn(count: nat, max: nat, replies: Replies, t: nat, n: nat, desired: nat, m: nat, inFlight: nat,
                   firstErr: Error)
    returns (desired': nat, next: Error)
    requires max >= 1 && Plausible(replies) && Buffered(count, max, replies, t, n, desired, firstErr)
    requires m == t + inFlight && if firstErr == Ok then SentOn(count, desired, inFlight, n, m) else m == n
    ensures desired' == Window(replies(t), firstErr, desired, max) && next == OnReply(firstErr, replies(t))
    ensures Buffered(count, max, replies, t + 1, m, desired', next) && m <= count
    ensures firstErr != Ok ==> next != Ok
  {
    hide ReplyError, Tiling;
    ReplyAdds(replies, t);
    desired', next := Window(replies(t), firstErr, desired, max), OnReply(firstErr, replies(t));
    TilingMoves(count, max, replies, t, n, desired, m, firstErr);
  }

  lemma BufferOver(count: nat, max: nat, replies: Replies, n: nat, err: Error)
    requires max >= 1 && (n == count || err != Ok) && Plausible(replies)
    requires exists d :: Buffered(count, max, replies, n, n, d, err)
    ensures n == Sent(replies, count, max, 0) && err == ReplyError(replies, n) && (err == Ok <==> AllOk(replies, n))
  {
    hide ReplyError;
    ReplyAdds(replies, n);
  }

  /** The buffer is used up with the last tile. */
  lemma BufferLeft(b: seq<byte>, off: nat, maxPacket: nat, done: nat, sent: seq<WritePacket>)
    requires done <= |b| && maxPacket >= 1 && SentSoFar(b, off, maxPacket, done, sent)
    ensures |sent| <= |Tiles(b, off, maxPacket)|
    ensures done < |b| <==> |sent| < |Tiles(b, off, maxPacket)|
  {
  }

  /** The whole of it: the window, and the error recorded after n Reads and `turn` results. */
  ghost predicate Streaming(reader: seq<ReadResult>, replies: Replies, max: nat, turn: nat, n: nat, desired: nat,
                            firstErr: Error)
    requires max >= 1
  {
    && n <= Reads(reader) && (firstErr == Ok ==> n < Reads(reader))
    && firstErr == Verdict(reader, replies, n, turn)
    && Windowed(Reads(reader), max, replies, turn, n, desired, firstErr)
  }

  lemma AtFirst(reader: seq<ReadResult>, replies: Replies, max: nat)
    requires max >= 1
    ensures Streaming(reader, replies, max, 0, 0, 1, Ok)
  {
  }

  /** What reading ahead leaves: the window is full, or the reader has come to its end. */
  ghost predicate ReadOn(reader: seq<ReadResult>, desired: nat, inFlight: int, n: nat, m: nat, firstErr: Error) {
    && n <= m <= Reads(reader) && inFlight <= desired
    && firstErr == (if m < Reads(reader) then Ok else ReaderError(reader))
    && (firstErr == Ok ==> inFlight >= desired)
  }

  lemma StreamTurn(reader: seq<ReadResult>, replies: Replies, max: nat, turn: nat, n: nat, desired: nat, err0: Error,
                   m: nat, inFlight: nat, firstErr: Error) returns (desired': nat, next: Error)
    requires max >= 1 && Plausible(replies) && Streaming(reader, replies, max, turn, n, desired, err0)
    requires m == turn + inFlight
    requires if err0 == Ok then ReadOn(reader, desired, inFlight, n, m, firstErr) else m == n && firstErr == err0
    ensures desired' == Window(replies(turn), firstErr, desired, max) && next == OnReply(firstErr, replies(turn))
    ensures Streaming(reader, replies, max, turn + 1, m, desired', next)
    ensures m <= Reads(reader) && (next == Ok ==> m < Reads(reader))
  {
    hide Reads, ReaderError, Verdict, Windowed;
    if err0 == Ok {
      ReadsDecide(reader, replies, n, turn, m);
    }
    ReplyDecides(reader, replies, m, turn);
    desired', next := Window(replies(turn), firstErr, desired, max), OnReply(firstErr, replies(turn));
    WindowTurn(Reads(reader), max, replies, turn, n, desired, err0, m, firstErr, desired');
    Undecided(reader, replies, m, turn + 1);
  }

  /** When the loop has ended. */
  lemma Over(reader: seq<ReadResult>, replies: Replies, max: nat, n: nat, firstErr: Error)
    requires max >= 1 && Plausible(replies) && firstErr != Ok
    requires exists d :: Streaming(reader, replies, max, n, n, d, firstErr)
    ensures n <= Reads(reader)
    ensures n == Sent(replies, Reads(reader), max, 0) && Normal(firstErr) == StreamError(reader, replies, max)
    ensures AllOk(replies, n) ==> n == Reads(reader)
    ensures AllStatus(replies, n) ==>
              firstErr == if n == Reads(reader) then ReaderError(reader) else FirstError(replies, n)
  {
    Undecided(reader, replies, n, n);
    OthersMatter(replies, n);
  }

  /** Result t is the first that is not an OK status. */
  ghost predicate FirstBad(replies: Replies, t: nat) {
    AllOk(replies, t) && replies(t) != Status(Ok)
  }

  lemma {:induction false} SentFrom(replies: Replies, count: nat, max: nat, s: nat, t: nat)
    requires max >= 1 && s <= t && FirstBad(replies, t)
    ensures Sent(replies, count, max, s) == Min(count, Out(t, max))
    decreases t - s
  {
    if s < t {
      SentFrom(replies, count, max, s + 1, t);
    }
  }

  /** The number of packets sent in closed form. */
  lemma SentExactly(replies: Replies, count: nat, max: nat, t: nat)
    requires max >= 1 && FirstBad(replies, t)
    ensures Sent(replies, count, max, 0) == Min(count, Out(t, max))
  {
    SentFrom(replies, count, max, 0, t);
  }

  lemma {:induction false} AllOkSends(replies: Replies, count: nat, max: nat, s: nat)
    requires max >= 1 && AllOk(replies, count)
    ensures Sent(replies, count, max, s) == count
    decreases count - s
  {
    if Out(s, max) < count {
      AllOkSends(replies, count, max, s + 1);
    }
  }

  lemma {:induction false} FirstErrorAt(replies: Replies, n: nat, t: nat)
    requires FirstBad(replies, t) && replies(t).Status? && t < n
    ensures FirstError(replies, n) == replies(t).err
  {
    if t == n - 1 {
      NoErrorMeansOk(replies, t);
    } else {
      FirstErrorAt(replies, n - 1, t);
    }
  }

  /** The error that ReadFrom returns. */
  function StreamError(reader: seq<ReadResult>, replies: Replies, max: nat): Error
    requires max >= 1
  {
    var n := Sent(replies, Reads(reader), max, 0);
    Normal(Verdict(reader, replies, n, n))
  }

  /**
    When only statuses come back, the first error among them, at turn t, is recorded exactly when the reader has not
    been read to its end by then; otherwise it is ignored and the reader's own error counts.
   */
  lemma StatusRecordedExactly(reader: seq<ReadResult>, replies: Replies, max: nat, t: nat)
    requires max >= 1 && FirstBad(replies, t) && AllStatus(replies, Max(t + 1, Reads(reader))) && Plausible(replies)
    ensures StreamError(reader, replies, max)
         == Normal(if Out(t, max) < Reads(reader) then replies(t).err else ReaderError(reader))
  {
    var n := Sent(replies, Reads(reader), max, 0);
    SentExactly(replies, Reads(reader), max, t);
    OthersMatter(replies, n);
    hide LastOther, Reads, ReaderError, Sent;
    if Out(t, max) < Reads(reader) {
      FirstErrorAt(replies, n, t);
    }
  }

  /** A nil error from ReadFrom means that every packet sent was acknowledged. */
  ghost predicate NilIsHonest(reader: seq<ReadResult>, replies: Replies, max: nat)
    requires max >= 1
  {
    StreamError(reader, replies, max) == Ok ==> AllOk(replies, Sent(replies, Reads(reader), max, 0))
  }

  /** An error status for the last packet comes after the reader's end: it is ignored. */
  lemma LateErrorIgnored(reader: seq<ReadResult>, max: nat) returns (replies: Replies)
    requires max >= 1 && ReaderError(reader) == Eof
    ensures Plausible(replies) && AllStatus(replies, Reads(reader)) && !NilIsHonest(reader, replies, max)
    ensures Sent(replies, Reads(reader), max, 0) == Reads(reader)
  {
    var last := Reads(reader) - 1;
    replies := t => if t == last then Status(Failed(0)) else Status(Ok);
    assert FirstBad(replies, last);
    SentExactly(replies, Reads(reader), max, last);
    hide Sent, Reads, ReaderError, Verdict;
    StatusRecordedExactly(reader, replies, max, last);
  }

  /** An EOF status cuts the stream off, and looks like success. */
  lemma EofStatusCutsOff(reader: seq<ReadResult>, max: nat) returns (replies: Replies)
    requires max >= 1 && Reads(reader) >= 2
    ensures Plausible(replies) && AllStatus(replies, Reads(reader)) && !NilIsHonest(reader, replies, max)
    ensures Sent(replies, Reads(reader), max, 0) == 1
  {
    replies := _ => Status(Eof);
    assert FirstBad(replies, 0);
    SentExactly(replies, Reads(reader), max, 0);
    hide Sent, Reads, ReaderError, Verdict;
    StatusRecordedExactly(reader, replies, max, 0);
  }

  /**
    For which readers a nil error can be trusted when the server answers every packet with a status: exactly those
    whose very first Read reports an error other than io.EOF, and for them there is no nil error.
   */
  lemma NilHonestExactly(reader: seq<ReadResult>, max: nat)
    requires max >= 1
    ensures (forall replies | Plausible(replies) && AllStatus(replies, Reads(reader)) ::
               NilIsHonest(reader, replies, max)) <==> Reads(reader) == 1 && ReaderError(reader) != Eof
  {
    hide ReaderError, NilIsHonest, AllStatus;
    if ReaderError(reader) == Eof {
      var replies := LateErrorIgnored(reader, max);
    } else if Reads(reader) >= 2 {
      var replies := EofStatusCutsOff(reader, max);
    } else {
      forall replies | Plausible(replies) && AllStatus(replies, Reads(reader))
        ensures NilIsHonest(reader, replies, max)
      {
        SingleRead(reader, replies, max);
      }
    }
  }

  lemma SingleRead(reader: seq<ReadResult>, replies: Replies, max: nat)
    requires max >= 1 && Reads(reader) == 1 && ReaderError(reader) != Eof
    requires Plausible(replies) && AllStatus(replies, 1)
    ensures NilIsHonest(reader, replies, max)
  {
    OthersMatter(replies, 1);
  }

  // ---- any order of the packets ------------------------------------------------------

  ghost predicate SameElements(ws: seq<WritePacket>, sent: seq<WritePacket>) {
    forall w :: w in ws <==> w in sent
  }

  /** In whatever order these packets are applied to whatever file, they amount to one write of b at off. */
  ghost predicate WritesWhole(sent: seq<WritePacket>, off: nat, b: seq<byte>) {
    forall c, ws | SameElements(ws, sent) :: Apply(c, ws) == Splice(c, off, b) <==> b != [] || off <= |c|
  }

  lemma TilesWriteWhole(b: seq<byte>, off: nat, maxPacket: nat)
    requires maxPacket >= 1
    ensures WritesWhole(Tiles(b, off, maxPacket), off, b)
  {
    hide Apply, Splice, Tiles;
    forall c, ws | SameElements(ws, Tiles(b, off, maxPacket))
      ensures Apply(c, ws) == Splice(c, off, b) <==> b != [] || off <= |c|
    {
      AnyOrderIsOneWrite(c, b, off, maxPacket, ws);
    }
  }

  class File {
    var offset: nat
    const maxPacket: nat
    const maxConcurrentRequests: nat

    ghost predicate Valid() {
      maxPacket >= 1 && maxConcurrentRequests >= 1
    }

    /**
      File.Write. `sent` is what went over the wire, `peak` the largest number of packets in flight at once.
      A nil error means that the buffer's tiles were all sent and all acknowledged; any error means
      that the file position stays and 0 is returned.
     */
    method Write(b: seq<byte>, replies: Replies)
      returns (written: nat, err: Error, sent: seq<WritePacket>, ghost peak: nat)
      requires Valid() && Plausible(replies)
      modifies this`offset
      ensures sent <= Tiles(b, old(offset), maxPacket)
      ensures |sent| == Sent(replies, |Tiles(b, old(offset), maxPacket)|, maxConcurrentRequests, 0)
      ensures err == ReplyError(replies, |sent|) && (err == Ok <==> AllOk(replies, |sent|))
      ensures err == Ok ==> sent == Tiles(b, old(offset), maxPacket) && written == |b|
      ensures err == Ok ==> WritesWhole(sent, old(offset), b)
      ensures err != Ok ==> written == 0
      ensures offset == old(offset) + written
      ensures peak <= maxConcurrentRequests
    {
      hide Tiles, AllOk, SentSoFar, WritesWhole, ReplyError, Plausible, Buffered, Sent;
      var done;
      sent, done, err, peak := SendBuffer(b, replies);
      SentPrefix(b, offset, maxPacket, done, sent);
      BufferOver(|Tiles(b, offset, maxPacket)|, maxConcurrentRequests, replies, |sent|, err);
      TilesWriteWhole(b, offset, maxPacket);
      written := if err == Ok then |b| else 0;
      offset := offset + written;
    }

    /** The loop of Write: `done` bytes of the buffer have been sent, and every packet has had its result. */
    method SendBuffer(b: seq<byte>, replies: Replies)
      returns (sent: seq<WritePacket>, done: nat, firstErr: Error, ghost peak: nat)
      requires Valid() && Plausible(replies)
      ensures done <= |b| && SentSoFar(b, offset, maxPacket, done, sent) && (firstErr == Ok ==> done == |b|)
      ensures exists d ::
                Buffered(|Tiles(b, offset, maxPacket)|, maxConcurrentRequests, replies, |sent|, |sent|, d, firstErr)
      ensures peak <= maxConcurrentRequests
    {
      hide Tiles, SentSoFar, OnReply, Plausible, Buffered, Window, SentOn;
      ghost var count := |Tiles(b, offset, maxPacket)|;
      var max := maxConcurrentRequests;
      var inFlight: nat, desiredInFlight, turn: nat := 0, 1, 0;
      NothingSent(b, offset, maxPacket);
      BufferFirst(count, max, replies);
      sent, done, firstErr, peak := [], 0, Ok, 0;
      while done < |b| || inFlight > 0
        invariant done <= |b| && SentSoFar(b, offset, maxPacket, done, sent)
        invariant 1 <= desiredInFlight <= max && inFlight <= peak <= max && turn + inFlight == |sent| <= count
        invariant Buffered(count, max, replies, turn, |sent|, desiredInFlight, firstErr)
        invariant firstErr == Ok ==> inFlight <= desiredInFlight
        decreases count - turn
      {
        ghost var n := |sent|;
        if firstErr == Ok {
          sent, done, inFlight := SendAhead(b, sent, done, inFlight, desiredInFlight);
          peak := Max(peak, inFlight);
        }
        if inFlight == 0 {
          break;
        }
        var res := replies(turn);
        ghost var d, next := BufferTurn(count, max, replies, turn, n, desiredInFlight, |sent|, inFlight, firstErr);
        desiredInFlight := Window(res, firstErr, desiredInFlight, max);
        inFlight, turn, firstErr := inFlight - 1, turn + 1, OnReply(firstErr, res);
      }
      assert Buffered(count, max, replies, |sent|, |sent|, desiredInFlight, firstErr);
    }

    /** Sends the next tiles of the buffer until the window is full or the buffer used up. */
    method SendAhead(b: seq<byte>, sent0: seq<WritePacket>, done0: nat, inFlight0: nat, desired: nat)
      returns (sent: seq<WritePacket>, done: nat, inFlight: nat)
      requires Valid() && done0 <= |b| && SentSoFar(b, offset, maxPacket, done0, sent0) && inFlight0 <= desired
      ensures done0 <= done <= |b| && SentSoFar(b, offset, maxPacket, done, sent)
      ensures inFlight - inFlight0 == |sent| - |sent0| >= 0
      ensures SentOn(|Tiles(b, offset, maxPacket)|, desired, inFlight, |sent0|, |sent|)
      ensures inFlight <= desired && (done == |b| || inFlight == desired)
    {
      hide Tiles, SentSoFar;
      sent, done, inFlight := sent0, done0, inFlight0;
      while inFlight < desired && done < |b|
        invariant done0 <= done <= |b| && SentSoFar(b, offset, maxPacket, done, sent)
        invariant inFlight - inFlight0 == |sent| - |sent0| >= 0 && inFlight <= desired
        decreases |b| - done
      {
        var l := Min(|b| - done, maxPacket);
        SendsNext(b, offset, maxPacket, done, sent);
        sent := sent + [WritePacket(offset + done, b[done..done + l])];
        inFlight, done := inFlight + 1, done + l;
      }
      BufferLeft(b, offset, maxPacket, done, sent);
    }

    /**
      File.ReadFrom. What is sent and what is returned are functions of the reader, the results and the window limit;
      `peak` is the largest number of packets in flight at once.
     */
    method ReadFrom(reader: seq<ReadResult>, replies: Replies)
      returns (read: nat, err: Error, sent: seq<WritePacket>, left: nat, ghost peak: nat)
      requires Valid() && Plausible(replies)
      modifies this`offset
      ensures |sent| <= Reads(reader) && sent == StreamPackets(reader, old(offset), |sent|)
      ensures |sent| == Sent(replies, Reads(reader), maxConcurrentRequests, 0)
      ensures left == 0
      ensures AllOk(replies, |sent|) ==> |sent| == Reads(reader)
      ensures err == StreamError(reader, replies, maxConcurrentRequests)
      ensures AllStatus(replies, |sent|) ==>
                err == Normal(if |sent| == Reads(reader) then ReaderError(reader) else FirstError(replies, |sent|))
      ensures read == if err == Ok then |Stream(reader, |sent|)| else 0
      ensures offset == old(offset) + read
      ensures peak <= maxConcurrentRequests
    {
      hide Reads, AllOk, AllStatus, FirstError, StreamedSoFar, ReaderError, Plausible, Streaming, Sent, Stream,
           StreamPackets, StreamError;
      var firstErr, total;
      sent, total, firstErr, left, peak := SendStream(reader, replies);
      Streamed(reader, offset, sent, total);
      Over(reader, replies, maxConcurrentRequests, |sent|, firstErr);
      err := Normal(firstErr);
      read := if err == Ok then total else 0;
      offset := offset + read;
    }

    /** The loop of ReadFrom: `total` bytes have been read, `left` is what stays in flight. */
    method SendStream(reader: seq<ReadResult>, replies: Replies)
      returns (sent: seq<WritePacket>, total: nat, firstErr: Error, left: nat, ghost peak: nat)
      requires Valid() && Plausible(replies)
      ensures StreamedSoFar(reader, offset, sent, total) && firstErr != Ok && left == 0
      ensures exists d :: Streaming(reader, replies, maxConcurrentRequests, |sent|, |sent|, d, firstErr)
      ensures peak <= maxConcurrentRequests
    {
      var max := maxConcurrentRequests;
      assert StreamedSoFar(reader, offset, [], 0);
      hide Reads, StreamedSoFar, OnReply, Plausible, Streaming, ReadOn, Window;
      var inFlight: nat, desiredInFlight, turn: nat := 0, 1, 0;
      sent, total, firstErr, peak := [], 0, Ok, 0;
      AtFirst(reader, replies, max);
      while inFlight > 0 || firstErr == Ok
        invariant 1 <= desiredInFlight <= max && inFlight <= peak <= max
        invariant StreamedSoFar(reader, offset, sent, total) && turn + inFlight == |sent|
        invariant Streaming(reader, replies, max, turn, |sent|, desiredInFlight, firstErr)
        invariant |sent| <= Reads(reader) && (firstErr == Ok ==> |sent| < Reads(reader) && inFlight <= desiredInFlight)
        decreases Reads(reader) - turn
      {
        ghost var n, d, err0 := |sent|, desiredInFlight, firstErr;
        if firstErr == Ok {
          sent, total, inFlight, firstErr := ReadAhead(reader, offset, sent, total, inFlight, desiredInFlight);
          peak := Max(peak, inFlight);
        }
        if inFlight == 0 {
          break;
        }
        var res := replies(turn);
        ghost var d', next := StreamTurn(reader, replies, max, turn, n, d, err0, |sent|, inFlight, firstErr);
        desiredInFlight := Window(res, firstErr, desiredInFlight, max);
        inFlight, turn, firstErr := inFlight - 1, turn + 1, OnReply(firstErr, res);
      }
      assert Streaming(reader, replies, max, |sent|, |sent|, desiredInFlight, firstErr);
      left := inFlight;
    }

    /** Read and send until the window is full or the reader reports an error; that Read's data is sent too. */
    method ReadAhead(reader: seq<ReadResult>, off: nat, sent0: seq<WritePacket>, total0: nat, inFlight0: nat,
                     desiredInFlight: nat)
      returns (sent: seq<WritePacket>, total: nat, inFlight: nat, firstErr: Error)
      requires StreamedSoFar(reader, off, sent0, total0) && |sent0| < Reads(reader) && inFlight0 <= desiredInFlight
      ensures StreamedSoFar(reader, off, sent, total) && |sent0| <= |sent|
      ensures inFlight - inFlight0 == |sent| - |sent0| && inFlight <= desiredInFlight
      ensures ReadOn(reader, desiredInFlight, inFlight, |sent0|, |sent|, firstErr)
      ensures firstErr == Ok ==> |sent| < Reads(reader) && inFlight == desiredInFlight
    {
      hide Reads, StreamedSoFar, ReadAtTurn;
      sent, total, inFlight, firstErr := sent0, total0, inFlight0, Ok;
      while inFlight < desiredInFlight && firstErr == Ok
        invariant StreamedSoFar(reader, off, sent, total) && |sent0| <= |sent| <= Reads(reader)
        invariant inFlight - inFlight0 == |sent| - |sent0| && inFlight <= desiredInFlight
        invariant firstErr == Ok <==> |sent| < Reads(reader)
        invariant firstErr != Ok ==> firstErr == ReadAtTurn(reader, Reads(reader) - 1).err
        decreases Reads(reader) - |sent|
      {
        var res := ReadAtTurn(reader, |sent|);
        StreamsNext(reader, off, sent, total);
        if res.err != Ok {
          firstErr := res.err;
        }
        sent := sent + [WritePacket(off + total, res.data)];
        inFlight, total := inFlight + 1, total + |res.data|;
      }
    }
  }
}
