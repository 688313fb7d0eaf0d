/**
  File.WriteTo: read-ahead of full packets, replies in any order, early replies
  parked in `pendingWrites`, and a writer that must see the file in order.
 */
module ClientWriteTo {
  import opened Prelude
  import opened Results

  /** The packet-sized piece of the file at offset o, short only at the end of the file. */
  function Chunk(file: seq<byte>, o: nat, maxPacket: nat): seq<byte>
    requires o <= |file|
  {
    file[o..Min(o + maxPacket, |file|)]
  }

  /** The server's side: full packets except at the end of the file, EOF only at or past the end. */
  predicate Answers(file: seq<byte>, maxPacket: nat, reqs: map<nat, nat>, r: Reply) {
    match r
    case Data(id, data) => id in reqs ==> reqs[id] < |file| && data == Chunk(file, reqs[id], maxPacket)
    case Status(id, err) => err != Ok && (id in reqs && err == Eof ==> reqs[id] >= |file|)
    case Lost(err) => err != Ok
  }

  /**
    A server together with the network in between: what comes out of the result channel at each turn, given the
    requests in flight. Every schedule of replies is one such function.
   */
  type Server = (nat, map<nat, nat>) -> Reply

  /** Requests as a call that starts at `start` can have them in flight. */
  ghost predicate Outstanding(start: nat, reqs: map<nat, nat>) {
    reqs != map[] && forall k | k in reqs :: start <= reqs[k]
  }

  ghost predicate KeepsContract(server: Server, file: seq<byte>, start: nat, maxPacket: nat) {
    forall t, reqs | Outstanding(start, reqs) :: Answers(file, maxPacket, reqs, server(t, reqs))
  }

  /** Every result is data or EOF for a request in flight. */
  ghost predicate Reliable(server: Server) {
    forall t, reqs | reqs != map[] ::
      var x := server(t, reqs);
      !x.Lost? && x.id in reqs && (x.Status? ==> x.err == Eof)
  }

  /**
    A writer: how much it takes of the data given to it when the sink holds so much already, and the error it reports.
   */
  type Writer = (nat, seq<byte>) -> (nat, Error)

  ghost predicate TakesAll(writer: Writer) {
    forall at, data :: writer(at, data) == (|data|, Ok)
  }

  /** No io.EOF except the server's own. */
  ghost predicate NoFalseEof(server: Server, writer: Writer) {
    && (forall t, reqs :: server(t, reqs) != Lost(Eof))
    && (forall at, data :: writer(at, data).1 != Eof)
  }

  ghost function InOrderServer(file: seq<byte>, maxPacket: nat, reqs: map<nat, nat>): Reply {
    if reqs != map[] then
      var k :| k in reqs;
      if reqs[k] >= |file| then Status(k, Eof) else Data(k, Chunk(file, reqs[k], maxPacket))
    else Lost(Failed(0))
  }

  lemma ReliableServerExists(file: seq<byte>, start: nat, maxPacket: nat) returns (server: Server, writer: Writer)
    ensures KeepsContract(server, file, start, maxPacket) && Reliable(server)
    ensures TakesAll(writer) && NoFalseEof(server, writer)
  {
    server := (_, reqs) => InOrderServer(file, maxPacket, reqs);
    writer := (_, data) => (|data|, Ok);
    forall reqs ensures Answers(file, maxPacket, reqs, InOrderServer(file, maxPacket, reqs)) {
    }
  }

  // ---- the variables of the call ---------------------------------------------

  datatype Window = Window(inFlight: nat, offset: nat, writeOffset: nat, nextId: nat, reqs: map<nat, nat>,
                           pending: map<nat, seq<byte>>, firstErr: OffsetErr, sink: seq<byte>)

  /**
    Ghost record of a run: offsets `sent`, those still in flight, those refused, and those answered with data;
    `failed` once the writer refused data and `partial` what it took of it; `lossy` once a result belonged to no
    request; `foreignEof` once io.EOF came from the connection or from the writer instead of from the server.
   */
  datatype Record = Record(sent: set<nat>, asked: set<nat>, dropped: set<nat>, answered: set<nat>, failed: bool,
                           partial: seq<byte>,
                           lossy: bool, foreignEof: bool, clean: bool)

  /** The requests tile the file from `start` to `offset`. */
  ghost predicate Tiled(start: nat, maxPacket: nat, offset: nat, sent: set<nat>) {
    && (start in sent || offset == start)
    && (forall o | o in sent :: start <= o && o + maxPacket <= offset)
    && (forall o | o in sent :: o + maxPacket in sent || o + maxPacket == offset)
    && (forall o, o' | o in sent && o' in sent && o < o' :: o + maxPacket <= o')
  }

  /** The requests in flight: distinct offsets, none settled yet, none behind the write position. */
  ghost predicate Asked(reqs: map<nat, nat>, asked: set<nat>, nextId: nat, writeOffset: nat, sent: set<nat>,
                        answered: set<nat>, dropped: set<nat>) {
    && (forall k | k in reqs :: k < nextId && Fresh(reqs[k], writeOffset, sent, answered, dropped))
    && Apart(reqs)
    && asked == reqs.Values
  }

  ghost predicate Fresh(o: nat, writeOffset: nat, sent: set<nat>, answered: set<nat>, dropped: set<nat>) {
    o in sent && writeOffset <= o && o !in answered && o !in dropped
  }

  ghost predicate Apart(reqs: map<nat, nat>) {
    forall k, k' | k in reqs && k' in reqs && reqs[k] == reqs[k'] :: k == k'
  }

  /** The parked replies: the right data under the right offset, none behind the write position. */
  ghost predicate Parked(file: seq<byte>, maxPacket: nat, pending: map<nat, seq<byte>>, writeOffset: nat,
                         sent: set<nat>, answered: set<nat>) {
    && (forall o | o in pending :: o in sent && o in answered && writeOffset <= o)
    && (forall o | o in pending :: o < |file| && pending[o] == Chunk(file, o, maxPacket))
  }

  /**
    Nothing is forgotten: a request is behind the write position, in flight, parked or refused. With `hole`,
    the request at the write position is the one exception: its data is in the writer's hands. Writing never gets
    past a refused request.
   */
  ghost predicate Covered(sent: set<nat>, writeOffset: nat, asked: set<nat>, pending: map<nat, seq<byte>>,
                          dropped: set<nat>, hole: bool) {
    && (forall o | o in sent ::
          o < writeOffset || o in asked || o in pending || o in dropped || (hole && o == writeOffset))
    && (hole ==> writeOffset !in asked && writeOffset !in pending)
    && (forall o | o in dropped :: writeOffset <= o && o !in pending && (hole ==> o != writeOffset))
  }

  /** The write position is always the next tile, unless the end of the file has been written. */
  ghost predicate AtTile(file: seq<byte>, offset: nat, writeOffset: nat, sent: set<nat>) {
    && writeOffset <= offset
    && (writeOffset in sent || writeOffset == offset || writeOffset == |file|)
  }

  /** The writer has been given exactly the file from `start` to the write position, and then `partial`. */
  ghost predicate InOrder(file: seq<byte>, start: nat, writeOffset: nat, sink: seq<byte>, partial: seq<byte>) {
    && start <= writeOffset
    && (writeOffset > start ==> writeOffset <= |file|)
    && sink == From(file, start)[..writeOffset - start] + partial
    && sink <= From(file, start)
  }

  /** What the recorded error says: the lowest refused offset, unless a lost result or the writer overrode it. */
  ghost predicate ErrorKept(file: seq<byte>, firstErr: OffsetErr, dropped: set<nat>, failed: bool, lossy: bool,
                            foreignEof: bool, clean: bool)
  {
    && (lossy || failed ==> firstErr.err != Ok && (!foreignEof ==> firstErr.err.Failed? && firstErr.offset <= |file|))
    && (!lossy && !failed ==>
          && !foreignEof
          && (firstErr.err == Ok <==> dropped == {})
          && (firstErr.err != Ok ==> firstErr.offset in dropped && forall o | o in dropped :: firstErr.offset <= o)
          && (firstErr.err == Eof ==> firstErr.offset >= |file|)
          && (clean ==> !firstErr.err.Failed?))
    && (clean ==> !lossy)
  }

  ghost predicate Counted(inFlight: nat, reqs: map<nat, nat>, lossy: bool) {
    if lossy then inFlight <= |reqs| else inFlight == |reqs|
  }

  ghost predicate Holds(file: seq<byte>, start: nat, maxPacket: nat, w: Window, r: Record, hole: bool) {
    && Tiled(start, maxPacket, w.offset, r.sent)
    && Asked(w.reqs, r.asked, w.nextId, w.writeOffset, r.sent, r.answered, r.dropped)
    && Parked(file, maxPacket, w.pending, w.writeOffset, r.sent, r.answered)
    && Covered(r.sent, w.writeOffset, r.asked, w.pending, r.dropped, hole)
    && AtTile(file, w.offset, w.writeOffset, r.sent)
    && InOrder(file, start, w.writeOffset, w.sink, r.partial)
    && (!r.failed ==> r.partial == [])
    && r.dropped <= r.sent && r.answered <= r.sent
    && ErrorKept(file, w.firstErr, r.dropped, r.failed, r.lossy, r.foreignEof, r.clean)
    && Counted(w.inFlight, w.reqs, r.lossy)
  }

  /** The invariant between two turns of the loop. */
  ghost predicate Inv(file: seq<byte>, start: nat, maxPacket: nat, w: Window, r: Record) {
    Holds(file, start, maxPacket, w, r, r.failed)
  }

  /** The offsets inside the file not yet answered with data; the loop's variant. */
  ghost function Unanswered(file: seq<byte>, answered: set<nat>): set<int> {
    set o | o in Range(0, |file|) && o !in answered
  }

  // ---- the steps ---------------------------------------------------------------

  function Send(w: Window, maxPacket: nat): Window {
    w.(reqs := w.reqs[w.nextId := w.offset], nextId := w.nextId + 1, inFlight := w.inFlight + 1,
       offset := w.offset + maxPacket)
  }

  ghost function SendRecord(w: Window, r: Record): Record {
    r.(sent := r.sent + {w.offset}, asked := r.asked + {w.offset})
  }

  function OnLost(w: Window, e: Error): Window
    requires w.inFlight > 0
  {
    w.(inFlight := w.inFlight - 1, firstErr := OffsetErr(0, e))
  }

  ghost function LostRecord(r: Record, e: Error): Record {
    r.(lossy := true, clean := false, foreignEof := r.foreignEof || e == Eof)
  }

  function OnStatus(w: Window, id: nat, e: Error): Window
    requires w.inFlight > 0 && id in w.reqs
  {
    w.(inFlight := w.inFlight - 1, reqs := w.reqs - {id},
       firstErr := Lowest(w.firstErr, w.reqs[id], e))
  }

  ghost function StatusRecord(w: Window, r: Record, id: nat, e: Error): Record
    requires id in w.reqs
  {
    r.(asked := r.asked - {w.reqs[id]}, dropped := r.dropped + {w.reqs[id]},
       clean := if e == Eof then r.clean else false)
  }

  /** A data reply, before it is written or parked. */
  function Take(w: Window, id: nat): Window
    requires w.inFlight > 0 && id in w.reqs
  {
    w.(inFlight := w.inFlight - 1, reqs := w.reqs - {id})
  }

  ghost function TakeRecord(w: Window, r: Record, id: nat): Record
    requires id in w.reqs
  {
    r.(asked := r.asked - {w.reqs[id]}, answered := r.answered + {w.reqs[id]})
  }

  /** A data reply that arrived early is parked under its offset. */
  function Park(w: Window, id: nat, data: seq<byte>): Window
    requires w.inFlight > 0 && id in w.reqs
  {
    Take(w, id).(pending := w.pending[w.reqs[id] := data])
  }

  /** The writer took all of `data`. */
  function Wrote(w: Window, data: seq<byte>): Window {
    w.(sink := w.sink + data, writeOffset := w.writeOffset + |data|)
  }

  /** The writer took n bytes and reported e; a short write without an error becomes io.ErrShortWrite. */
  function Refused(w: Window, data: seq<byte>, n: nat, e: Error): Window
    requires n <= |data|
  {
    w.(sink := w.sink + data[..n],
       firstErr := OffsetErr(w.writeOffset + n, if e == Ok then Failed(SHORT_WRITE) else e))
  }

  ghost function RefusedRecord(r: Record, data: seq<byte>, n: nat, e: Error): Record
    requires n <= |data|
  {
    r.(failed := true, partial := data[..n], foreignEof := r.foreignEof || e == Eof)
  }

  const SHORT_WRITE: nat := 1

  // ---- each step keeps the invariant --------------------------------------------

  lemma TiledGrows(start: nat, maxPacket: nat, offset: nat, sent: set<nat>)
    requires Tiled(start, maxPacket, offset, sent) && maxPacket >= 1
    ensures Tiled(start, maxPacket, offset + maxPacket, sent + {offset}) && offset !in sent
  {
    assert offset !in sent;
    forall o | o in sent + {offset}
      ensures start <= o && o + maxPacket <= offset + maxPacket
      ensures o + maxPacket in sent + {offset} || o + maxPacket == offset + maxPacket
    {
    }
    if start !in sent {
      assert start in sent + {offset};
    }
  }

  lemma AskedGrows(reqs: map<nat, nat>, asked: set<nat>, nextId: nat, writeOffset: nat, sent: set<nat>,
                   answered: set<nat>, dropped: set<nat>, o: nat)
    requires Asked(reqs, asked, nextId, writeOffset, sent, answered, dropped) && answered <= sent && dropped <= sent
    requires o !in sent && writeOffset <= o
    ensures Asked(reqs[nextId := o], asked + {o}, nextId + 1, writeOffset, sent + {o}, answered, dropped)
    ensures |reqs[nextId := o]| == |reqs| + 1
  {
    ValuesGrow(reqs, nextId, o);
    ApartGrows(reqs, nextId, o);
    hide Apart;
  }

  lemma ApartGrows(reqs: map<nat, nat>, id: nat, o: nat)
    requires Apart(reqs) && forall k | k in reqs :: reqs[k] != o
    ensures Apart(reqs[id := o])
  {
  }

  lemma ValuesGrow(reqs: map<nat, nat>, id: nat, o: nat)
    requires id !in reqs
    ensures reqs[id := o].Values == reqs.Values + {o}
    ensures |reqs[id := o]| == |reqs| + 1
  {
    var reqs' := reqs[id := o];
    forall v | v in reqs.Values + {o} ensures v in reqs'.Values {
      if v == o {
        assert reqs'[id] == o;
      } else {
        var k :| k in reqs && reqs[k] == v;
        assert reqs'[k] == v;
      }
    }
  }

  lemma ValuesShrink(reqs: map<nat, nat>, id: nat)
    requires id in reqs && forall k | k in reqs && reqs[k] == reqs[id] :: k == id
    ensures (reqs - {id}).Values == reqs.Values - {reqs[id]}
    ensures |reqs - {id}| == |reqs| - 1
  {
    var reqs' := reqs - {id};
    assert |reqs'.Keys| == |reqs.Keys - {id}|;
    forall v | v in reqs.Values - {reqs[id]} ensures v in reqs'.Values {
      var k :| k in reqs && reqs[k] == v;
      assert reqs'[k] == v;
    }
  }

  /** Removing a request from flight removes its offset and no other. */
  lemma AskedShrinks(reqs: map<nat, nat>, asked: set<nat>, nextId: nat, writeOffset: nat, sent: set<nat>,
                     answered: set<nat>, dropped: set<nat>, id: nat)
    requires Asked(reqs, asked, nextId, writeOffset, sent, answered, dropped) && id in reqs
    ensures Asked(reqs - {id}, asked - {reqs[id]}, nextId, writeOffset, sent, answered + {reqs[id]}, dropped)
    ensures Asked(reqs - {id}, asked - {reqs[id]}, nextId, writeOffset, sent, answered, dropped + {reqs[id]})
    ensures |reqs - {id}| == |reqs| - 1
    ensures reqs[id] in asked && reqs[id] in sent && reqs[id] !in answered && reqs[id] !in dropped
    ensures writeOffset <= reqs[id]
  {
    ValuesShrink(reqs, id);
  }

  lemma CoveredGrows(sent: set<nat>, writeOffset: nat, asked: set<nat>, pending: map<nat, seq<byte>>,
                     dropped: set<nat>, o: nat)
    requires Covered(sent, writeOffset, asked, pending, dropped, false)
    ensures Covered(sent + {o}, writeOffset, asked + {o}, pending, dropped, false)
  {
  }

  lemma CoveredDrops(sent: set<nat>, writeOffset: nat, asked: set<nat>, pending: map<nat, seq<byte>>,
                     dropped: set<nat>, hole: bool, o: nat)
    requires Covered(sent, writeOffset, asked, pending, dropped, hole)
    requires o in asked && writeOffset <= o && o !in pending
    ensures Covered(sent, writeOffset, asked - {o}, pending, dropped + {o}, hole)
  {
  }

  lemma CoveredParks(sent: set<nat>, writeOffset: nat, asked: set<nat>, pending: map<nat, seq<byte>>,
                     dropped: set<nat>, hole: bool,
                     o: nat, data: seq<byte>)
    requires Covered(sent, writeOffset, asked, pending, dropped, hole) && o != writeOffset && o !in dropped
    ensures Covered(sent, writeOffset, asked - {o}, pending[o := data], dropped, hole)
  {
  }

  lemma CoveredTakes(sent: set<nat>, writeOffset: nat, asked: set<nat>, pending: map<nat, seq<byte>>,
                     dropped: set<nat>, hole: bool)
    requires Covered(sent, writeOffset, asked, pending, dropped, hole)
    requires writeOffset in asked && writeOffset !in pending && writeOffset !in dropped
    ensures !hole && Covered(sent, writeOffset, asked - {writeOffset}, pending, dropped, true)
  {
  }

  lemma ParkedGrows(file: seq<byte>, maxPacket: nat, pending: map<nat, seq<byte>>, writeOffset: nat, sent: set<nat>,
                    answered: set<nat>, o: nat)
    requires Parked(file, maxPacket, pending, writeOffset, sent, answered)
    ensures Parked(file, maxPacket, pending, writeOffset, sent + {o}, answered)
    ensures Parked(file, maxPacket, pending, writeOffset, sent, answered + {o})
    ensures o in sent && writeOffset <= o < |file| ==>
              Parked(file, maxPacket, pending[o := Chunk(file, o, maxPacket)], writeOffset, sent, answered + {o})
  {
  }

  lemma CountedMoves(inFlight: nat, reqs: map<nat, nat>, reqs': map<nat, nat>, lossy: bool)
    requires Counted(inFlight, reqs, lossy)
    ensures |reqs'| == |reqs| + 1 ==> Counted(inFlight + 1, reqs', lossy)
    ensures |reqs'| == |reqs| - 1 && inFlight > 0 ==> Counted(inFlight - 1, reqs', lossy)
  {
  }

  lemma SendStep(file: seq<byte>, start: nat, maxPacket: nat, w: Window, r: Record)
    requires Inv(file, start, maxPacket, w, r) && w.firstErr.err == Ok && maxPacket >= 1
    ensures Inv(file, start, maxPacket, Send(w, maxPacket), SendRecord(w, r))
  {
    hide Tiled, Asked, Parked, Covered, InOrder, Counted, AtTile;
    SendAtTile(file, w.offset, maxPacket, w.writeOffset, r.sent);
    TiledGrows(start, maxPacket, w.offset, r.sent);
    AskedGrows(w.reqs, r.asked, w.nextId, w.writeOffset, r.sent, r.answered, r.dropped, w.offset);
    CoveredGrows(r.sent, w.writeOffset, r.asked, w.pending, r.dropped, w.offset);
    ParkedGrows(file, maxPacket, w.pending, w.writeOffset, r.sent, r.answered, w.offset);
    CountedMoves(w.inFlight, w.reqs, Send(w, maxPacket).reqs, r.lossy);
  }

  lemma SendAtTile(file: seq<byte>, offset: nat, maxPacket: nat, writeOffset: nat, sent: set<nat>)
    requires AtTile(file, offset, writeOffset, sent)
    ensures writeOffset <= offset && AtTile(file, offset + maxPacket, writeOffset, sent + {offset})
  {
  }

  lemma LostStep(file: seq<byte>, start: nat, maxPacket: nat, w: Window, r: Record, e: Error)
    requires Inv(file, start, maxPacket, w, r) && w.inFlight > 0 && e != Ok
    ensures Inv(file, start, maxPacket, OnLost(w, e), LostRecord(r, e))
  {
    hide Tiled, Asked, Parked, Covered, InOrder, AtTile;
  }

  lemma StatusErrors(file: seq<byte>, w: Window, r: Record, id: nat, e: Error)
    requires ErrorKept(file, w.firstErr, r.dropped, r.failed, r.lossy, r.foreignEof, r.clean)
    requires w.inFlight > 0 && id in w.reqs && e != Ok
    requires e == Eof ==> w.reqs[id] >= |file|
    ensures
      var r' := StatusRecord(w, r, id, e);
      ErrorKept(file, OnStatus(w, id, e).firstErr, r'.dropped, r'.failed, r'.lossy, r'.foreignEof, r'.clean)
  {
  }

  lemma StatusMoves(w: Window, r: Record, id: nat)
    requires Asked(w.reqs, r.asked, w.nextId, w.writeOffset, r.sent, r.answered, r.dropped) && id in w.reqs
    requires Covered(r.sent, w.writeOffset, r.asked, w.pending, r.dropped, r.failed)
    requires Counted(w.inFlight, w.reqs, r.lossy) && w.inFlight > 0 && w.reqs[id] !in w.pending
    ensures Asked(w.reqs - {id}, r.asked - {w.reqs[id]}, w.nextId, w.writeOffset, r.sent, r.answered,
                  r.dropped + {w.reqs[id]})
    ensures Covered(r.sent, w.writeOffset, r.asked - {w.reqs[id]}, w.pending, r.dropped + {w.reqs[id]}, r.failed)
    ensures Counted(w.inFlight - 1, w.reqs - {id}, r.lossy)
    ensures w.reqs[id] in r.sent
  {
    hide Asked, Covered, Counted;
    AskedShrinks(w.reqs, r.asked, w.nextId, w.writeOffset, r.sent, r.answered, r.dropped, id);
    CountedMoves(w.inFlight, w.reqs, w.reqs - {id}, r.lossy);
    CoveredDrops(r.sent, w.writeOffset, r.asked, w.pending, r.dropped, r.failed, w.reqs[id]);
  }

  /** A request in flight has no reply parked. */
  lemma NotParked(file: seq<byte>, start: nat, maxPacket: nat, w: Window, r: Record, id: nat)
    requires Inv(file, start, maxPacket, w, r) && id in w.reqs
    ensures w.reqs[id] !in w.pending
  {
    hide Tiled, Covered, InOrder, AtTile, ErrorKept, Counted, Chunk;
  }

  lemma StatusFrame(file: seq<byte>, start: nat, maxPacket: nat, w: Window, r: Record, w': Window, r': Record)
    requires Inv(file, start, maxPacket, w, r)
    requires w' == w.(reqs := w'.reqs, inFlight := w'.inFlight, firstErr := w'.firstErr)
    requires r' == r.(asked := r'.asked, dropped := r'.dropped, clean := r'.clean) && r'.dropped <= r.sent
    requires Asked(w'.reqs, r'.asked, w.nextId, w.writeOffset, r.sent, r.answered, r'.dropped)
    requires Covered(r.sent, w.writeOffset, r'.asked, w.pending, r'.dropped, r.failed)
    requires Counted(w'.inFlight, w'.reqs, r.lossy)
    requires ErrorKept(file, w'.firstErr, r'.dropped, r.failed, r.lossy, r.foreignEof, r'.clean)
    ensures Inv(file, start, maxPacket, w', r')
  {
    hide Tiled, Asked, Parked, Covered, InOrder, AtTile, ErrorKept, Counted, Chunk;
  }

  lemma StatusStep(file: seq<byte>, start: nat, maxPacket: nat, w: Window, r: Record, id: nat, e: Error)
    requires Inv(file, start, maxPacket, w, r) && w.inFlight > 0 && id in w.reqs
    requires Answers(file, maxPacket, w.reqs, Status(id, e))
    ensures Inv(file, start, maxPacket, OnStatus(w, id, e), StatusRecord(w, r, id, e))
  {
    hide Tiled, Asked, Parked, Covered, InOrder, AtTile, ErrorKept, Counted, Chunk, Lowest;
    StatusErrors(file, w, r, id, e);
    NotParked(file, start, maxPacket, w, r, id);
    StatusMoves(w, r, id);
    assert r.dropped + {w.reqs[id]} <= r.sent;
    hide Holds;
    StatusFrame(file, start, maxPacket, w, r, OnStatus(w, id, e), StatusRecord(w, r, id, e));
  }

  /** The reply for the request at the write position: its data passes into the writer's hands. */
  lemma TakeStep(file: seq<byte>, start: nat, maxPacket: nat, w: Window, r: Record, id: nat)
    requires Inv(file, start, maxPacket, w, r) && w.inFlight > 0 && id in w.reqs && w.reqs[id] == w.writeOffset
    requires w.writeOffset !in w.pending
    ensures !r.failed && Holds(file, start, maxPacket, Take(w, id), TakeRecord(w, r, id), true)
    ensures w.writeOffset in r.sent && w.writeOffset !in r.answered
  {
    hide Tiled, Asked, Parked, Covered, InOrder, AtTile, ErrorKept;
    AskedShrinks(w.reqs, r.asked, w.nextId, w.writeOffset, r.sent, r.answered, r.dropped, id);
    ParkedGrows(file, maxPacket, w.pending, w.writeOffset, r.sent, r.answered, w.reqs[id]);
    CoveredTakes(r.sent, w.writeOffset, r.asked, w.pending, r.dropped, r.failed);
  }

  lemma ParkStep(file: seq<byte>, start: nat, maxPacket: nat, w: Window, r: Record, id: nat, data: seq<byte>)
    requires Inv(file, start, maxPacket, w, r) && w.inFlight > 0 && id in w.reqs && w.reqs[id] != w.writeOffset
    requires Answers(file, maxPacket, w.reqs, Data(id, data))
    ensures Inv(file, start, maxPacket, Park(w, id, data), TakeRecord(w, r, id))
    ensures w.reqs[id] in r.sent && w.reqs[id] !in r.answered
  {
    hide Tiled, Asked, Parked, Covered, InOrder, AtTile, ErrorKept;
    AskedShrinks(w.reqs, r.asked, w.nextId, w.writeOffset, r.sent, r.answered, r.dropped, id);
    ParkedGrows(file, maxPacket, w.pending, w.writeOffset, r.sent, r.answered, w.reqs[id]);
    CoveredParks(r.sent, w.writeOffset, r.asked, w.pending, r.dropped, r.failed, w.reqs[id], data);
  }

  /** A parked reply whose turn has come. */
  lemma UnparkStep(file: seq<byte>, start: nat, maxPacket: nat, w: Window, r: Record)
    requires Inv(file, start, maxPacket, w, r) && w.writeOffset in w.pending
    ensures !r.failed && Holds(file, start, maxPacket, w.(pending := w.pending - {w.writeOffset}), r, true)
    ensures w.writeOffset in r.sent && w.writeOffset < |file|
    ensures w.pending[w.writeOffset] == Chunk(file, w.writeOffset, maxPacket)
  {
    hide Tiled, InOrder, AtTile, ErrorKept;
    assert w.writeOffset !in r.asked by {
      assert forall o | o in r.asked :: o !in r.answered;
    }
  }

  /** After the tile at the write position, everything else that was asked for starts a packet later. */
  lemma NextTile(start: nat, maxPacket: nat, offset: nat, sent: set<nat>, o: nat)
    requires Tiled(start, maxPacket, offset, sent) && o in sent
    ensures o + maxPacket <= offset && (o + maxPacket in sent || o + maxPacket == offset)
    ensures forall o' | o' in sent && o' >= o :: o' == o || o' >= o + maxPacket
  {
  }

  lemma WroteInOrder(file: seq<byte>, start: nat, maxPacket: nat, writeOffset: nat, sink: seq<byte>)
    requires InOrder(file, start, writeOffset, sink, []) && writeOffset < |file|
    ensures
      var data := Chunk(file, writeOffset, maxPacket);
      InOrder(file, start, writeOffset + |data|, sink + data, [])
  {
    var data := Chunk(file, writeOffset, maxPacket);
    assert file[start..writeOffset] + data == file[start..writeOffset + |data|];
    assert From(file, start)[..writeOffset - start] == file[start..writeOffset];
    assert From(file, start)[..writeOffset + |data| - start] == file[start..writeOffset + |data|];
  }

  lemma TilesBehind(file: seq<byte>, maxPacket: nat, w: Window, r: Record, next: nat)
    requires Asked(w.reqs, r.asked, w.nextId, w.writeOffset, r.sent, r.answered, r.dropped)
    requires Parked(file, maxPacket, w.pending, w.writeOffset, r.sent, r.answered)
    requires Covered(r.sent, w.writeOffset, r.asked, w.pending, r.dropped, true)
    requires r.dropped <= r.sent
    requires w.writeOffset < next && forall o | o in r.sent && o >= w.writeOffset :: o == w.writeOffset || o >= next
    ensures Asked(w.reqs, r.asked, w.nextId, next, r.sent, r.answered, r.dropped)
    ensures Parked(file, maxPacket, w.pending, next, r.sent, r.answered)
    ensures Covered(r.sent, next, r.asked, w.pending, r.dropped, false)
  {
    forall k | k in w.reqs ensures next <= w.reqs[k] {
      assert w.reqs[k] in w.reqs.Values;
    }
  }

  lemma AdvanceStep(file: seq<byte>, start: nat, maxPacket: nat, w: Window, r: Record)
    requires Holds(file, start, maxPacket, w, r, true) && !r.failed && maxPacket >= 1
    requires w.writeOffset in r.sent && w.writeOffset < |file|
    ensures Inv(file, start, maxPacket, Wrote(w, Chunk(file, w.writeOffset, maxPacket)), r)
  {
    hide Tiled, Asked, Parked, Covered, InOrder, ErrorKept;
    WroteInOrder(file, start, maxPacket, w.writeOffset, w.sink);
    NextTile(start, maxPacket, w.offset, r.sent, w.writeOffset);
    TilesBehind(file, maxPacket, w, r, w.writeOffset + |Chunk(file, w.writeOffset, maxPacket)|);
  }

  lemma RefusedInOrder(file: seq<byte>, start: nat, maxPacket: nat, writeOffset: nat, sink: seq<byte>, n: nat)
    requires InOrder(file, start, writeOffset, sink, []) && writeOffset < |file|
    requires n <= |Chunk(file, writeOffset, maxPacket)|
    ensures
      var part := Chunk(file, writeOffset, maxPacket)[..n];
      InOrder(file, start, writeOffset, sink + part, part)
  {
    FromPrefix(file, start, writeOffset - start);
    FromPrefix(file, start, writeOffset - start + n);
    assert Chunk(file, writeOffset, maxPacket)[..n] == file[writeOffset..writeOffset + n];
    assert file[start..writeOffset] + file[writeOffset..writeOffset + n] == file[start..writeOffset + n];
  }

  lemma RefuseStep(file: seq<byte>, start: nat, maxPacket: nat, w: Window, r: Record, n: nat, e: Error)
    requires Holds(file, start, maxPacket, w, r, true) && !r.failed
    requires w.writeOffset < |file| && n <= |Chunk(file, w.writeOffset, maxPacket)|
    ensures
      var data := Chunk(file, w.writeOffset, maxPacket);
      Inv(file, start, maxPacket, Refused(w, data, n, e), RefusedRecord(r, data, n, e))
  {
    hide Tiled, Asked, Parked, Covered, AtTile, InOrder;
    RefusedInOrder(file, start, maxPacket, w.writeOffset, w.sink, n);
    hide Chunk;
  }

  /** A data reply answers an offset for the first time, so the variant shrinks. */
  lemma AnswerCounts(file: seq<byte>, w: Window, r: Record, id: nat)
    requires id in w.reqs && w.reqs[id] !in r.answered && w.reqs[id] < |file|
    ensures Unanswered(file, r.answered + {w.reqs[id]}) < Unanswered(file, r.answered)
  {
    assert w.reqs[id] in Unanswered(file, r.answered) && w.reqs[id] !in Unanswered(file, r.answered + {w.reqs[id]});
  }

  lemma SentBelow(start: nat, maxPacket: nat, offset: nat, sent: set<nat>, o: nat)
    requires Tiled(start, maxPacket, offset, sent) && o in sent
    ensures o + maxPacket <= offset
  {
  }

  /** While nothing has gone wrong, parked data means that an earlier request is still in flight. */
  lemma NeverInconsistent(file: seq<byte>, start: nat, maxPacket: nat, w: Window, r: Record)
    requires Inv(file, start, maxPacket, w, r) && w.firstErr.err == Ok && w.writeOffset !in w.pending
    requires w.inFlight == 0
    ensures w.pending == map[]
  {
    hide Tiled, InOrder;
    assert w.reqs == map[] && r.asked == {};
    assert w.writeOffset !in r.sent;
    forall o ensures o !in w.pending {
      if o in r.sent {
        SentBelow(start, maxPacket, w.offset, r.sent, o);
      }
    }
  }

  /** When the loop ends on the server's EOF, the whole tail has been written and nothing is parked. */
  lemma Finished(file: seq<byte>, start: nat, maxPacket: nat, w: Window, r: Record)
    requires Inv(file, start, maxPacket, w, r) && w.writeOffset !in w.pending
    requires w.inFlight == 0 && w.firstErr.err == Eof && !r.foreignEof
    ensures w.sink == From(file, start) && w.pending == map[]
  {
    hide Tiled;
    assert w.reqs == map[] && r.asked == {};
    SentBelow(start, maxPacket, w.offset, r.sent, w.firstErr.offset);
    assert w.writeOffset in r.sent ==> w.writeOffset >= |file|;
  }

  /** When nothing but refusals went wrong, exactly the bytes before the lowest refused offset have been written. */
  lemma WrittenUpTo(file: seq<byte>, start: nat, maxPacket: nat, w: Window, r: Record)
    requires Inv(file, start, maxPacket, w, r) && w.writeOffset !in w.pending
    requires w.inFlight == 0 && w.firstErr.err != Ok && !r.lossy && !r.failed
    ensures WroteUpTo(file, start, w.firstErr.offset, w.sink)
  {
    hide Asked, Parked;
    assert w.reqs == map[];
    NothingAsked(file, start, maxPacket, w, r);
    var o := w.firstErr.offset;
    assert o in r.dropped && o in r.sent;
    SentBelow(start, maxPacket, w.offset, r.sent, o);
    assert start <= o && w.writeOffset <= o;
    hide Tiled;
    assert w.writeOffset in r.sent ==> w.writeOffset in r.dropped;
    assert w.writeOffset - start == Min(o - start, |From(file, start)|);
  }

  lemma NothingAsked(file: seq<byte>, start: nat, maxPacket: nat, w: Window, r: Record)
    requires Inv(file, start, maxPacket, w, r) && w.reqs == map[]
    ensures r.asked == {}
  {
    hide Tiled, Parked, Covered, InOrder, AtTile, ErrorKept, Counted;
  }

  ghost predicate WroteUpTo(file: seq<byte>, start: nat, o: nat, sink: seq<byte>) {
    o >= start && sink == From(file, start)[..Min(o - start, |From(file, start)|)]
  }

  // ---- one turn as a function --------------------------------------------------------

  /** The read-ahead loop: the window and the desired number of requests in flight after it. */
  function Filled(w: Window, desired: nat, fileSize: nat, maxPacket: nat): (Window, nat)
    decreases desired - w.inFlight - |w.pending|
  {
    if w.inFlight + |w.pending| < desired then
      var w' := Send(w, maxPacket);
      Filled(w', if w'.offset > fileSize then 1 else desired, fileSize, maxPacket)
    else (w, desired)
  }

  /** w.Write(data): what a writer can take is bounded by what it is given. */
  function WriterWrite(writer: Writer, sink: seq<byte>, data: seq<byte>): (r: (nat, Error))
    ensures r.0 <= |data|
    ensures TakesAll(writer) ==> r == (|data|, Ok)
  {
    var (n, e) := writer(|sink|, data);
    (if n > |data| then |data| else n, e)
  }

  /** The flush loop. */
  function Flushed(w: Window, writer: Writer): Window
    decreases w.pending.Keys
  {
    if w.writeOffset !in w.pending then w
    else
      var data, w' := w.pending[w.writeOffset], w.(pending := w.pending - {w.writeOffset});
      var (n, e) := WriterWrite(writer, w'.sink, data);
      if e != Ok || n < |data| then Refused(w', data, n, e) else Flushed(Wrote(w', data), writer)
  }

  /** A turn's outcome: the window, the bytes added to the count, and whether the window may grow. */
  datatype Turn = Turn(w: Window, n: nat, wrote: bool)

  function Written(w: Window, data: seq<byte>, writer: Writer): Turn {
    var (n, e) := WriterWrite(writer, w.sink, data);
    if e != Ok || n < |data| then Turn(Refused(w, data, n, e), n, false)
    else Turn(Flushed(Wrote(w, data), writer), n, true)
  }

  function Received(w: Window, res: Reply, writer: Writer): Turn
    requires w.inFlight > 0
  {
    if res.Lost? then Turn(OnLost(w, res.err), 0, false)
    else if res.id !in w.reqs then Turn(OnLost(w, Failed(0)), 0, false)
    else if res.Status? then Turn(OnStatus(w, res.id, res.err), 0, false)
    else if w.reqs[res.id] != w.writeOffset then Turn(Park(w, res.id, res.data), 0, false)
    else Written(Take(w, res.id), res.data, writer)
  }

  /** desiredInFlight after a turn. */
  function Grown(t: Turn, desired: nat, fileSize: nat, maxConcurrentRequests: nat): nat {
    if !t.wrote then desired
    else if t.w.offset > fileSize then 1
    else if desired < maxConcurrentRequests then desired + 1
    else desired
  }

  function Opening(start: nat): Window {
    Window(0, start, start, 1, map[], map[], OffsetErr(0, Ok), [])
  }

  // ---- what goes wrong in a turn ----------------------------------------------------------

  /** What the writer has against a piece of data: its error, or io.ErrShortWrite when it took less and gave none. */
  function Complaint(writer: Writer, sink: seq<byte>, data: seq<byte>): Option<Error> {
    var (n, e) := writer(|sink|, data);
    if e != Ok then Some(e) else if n < |data| then Some(Failed(SHORT_WRITE)) else None
  }

  /** The writer's first complaint while the parked replies are written. */
  function FlushComplaint(w: Window, writer: Writer): Option<Error>
    decreases w.pending.Keys
  {
    if w.writeOffset !in w.pending then None
    else
      var data := w.pending[w.writeOffset];
      var no := Complaint(writer, w.sink, data);
      if no.Some? then no
      else FlushComplaint(Wrote(w.(pending := w.pending - {w.writeOffset}), data), writer)
  }

  /** What a result tells the call, if it is bad news: a lost result, a refusal, or a write that failed. */
  function NoteOf(w: Window, res: Reply, writer: Writer): Option<Note>
    requires w.inFlight > 0
  {
    match res
    case Lost(err) => Some(Stop(err))
    case Status(id, err) => Some(if id in w.reqs then Denied(w.reqs[id], err) else Stop(Failed(0)))
    case Data(id, data) =>
      if id !in w.reqs then Some(Stop(Failed(0)))
      else if w.reqs[id] != w.writeOffset then None
      else
        var no := Complaint(writer, w.sink, data);
        var failed := if no.Some? then no else FlushComplaint(Wrote(Take(w, id), data), writer);
        if failed.Some? then Some(Stop(failed.value)) else None
  }

  /** No request still in flight lies below the recorded error. */
  ghost predicate PastError(w: Window) {
    forall k | k in w.reqs :: w.firstErr.offset <= w.reqs[k]
  }

  ghost predicate Fewer(reqs: map<nat, nat>, reqs': map<nat, nat>) {
    forall k | k in reqs' :: k in reqs && reqs'[k] == reqs[k]
  }

  /** What a turn makes of its news. */
  ghost predicate Recorded(w: Window, res: Reply, writer: Writer, w': Window) {
    && Fewer(w.reqs, w'.reqs)
    && w.inFlight > 0
    && match NoteOf(w, res, writer)
       case None => w'.firstErr == w.firstErr
       case Some(Stop(e)) => w'.firstErr.err == e && e != Ok && PastError(w')
       case Some(Denied(o, e)) =>
         w'.firstErr == Lowest(w.firstErr, o, e) && e != Ok && exists k :: k in w.reqs && w.reqs[k] == o
  }

  /** The record of a run notes a lost result or a failed write only in a turn that stops the call. */
  ghost predicate Undisturbed(note: Option<Note>, r: Record, r': Record) {
    (note.Some? && note.value.Stop?) || (r'.lossy == r.lossy && r'.failed == r.failed)
  }

  /** The bytes a turn adds to the count: what the writer takes of a reply that comes at the write position. */
  function Direct(w: Window, res: Reply, writer: Writer): nat {
    if res.Data? && res.id in w.reqs && w.reqs[res.id] == w.writeOffset then
      Min(writer(|w.sink|, res.data).0, |res.data|)
    else 0
  }

  lemma DirectCounts(w: Window, res: Reply, writer: Writer)
    requires w.inFlight > 0
    ensures Received(w, res, writer).n == Direct(w, res, writer)
  {
    hide Flushed;
  }

  /** The same of the flush loop. */
  ghost predicate FlushRecorded(w: Window, writer: Writer, w': Window) {
    && w'.reqs == w.reqs
    && match FlushComplaint(w, writer)
       case None => w'.firstErr == w.firstErr
       case Some(e) => w'.firstErr.err == e && e != Ok && PastError(w')
  }

  lemma ComplaintOf(writer: Writer, sink: seq<byte>, data: seq<byte>)
    ensures
      var (n, e) := WriterWrite(writer, sink, data);
      Complaint(writer, sink, data) ==
        if e == Ok && n >= |data| then None else Some(if e == Ok then Failed(SHORT_WRITE) else e)
  {
  }

  /** Where the writer failed, the requests still in flight lie further on. */
  lemma RefusedPast(file: seq<byte>, start: nat, maxPacket: nat, w: Window, r: Record, n: nat, e: Error)
    requires Holds(file, start, maxPacket, w, r, true) && maxPacket >= 1
    requires w.writeOffset < |file| && n <= |Chunk(file, w.writeOffset, maxPacket)|
    ensures PastError(Refused(w, Chunk(file, w.writeOffset, maxPacket), n, e))
  {
    hide Parked, InOrder, ErrorKept, Counted;
    forall k | k in w.reqs ensures w.writeOffset + n <= w.reqs[k] {
      assert w.reqs[k] in r.asked;
      assert w.writeOffset < w.reqs[k] && w.reqs[k] in r.sent;
    }
  }

  // ---- when the returned count is the number of bytes written ---------------------------

  /**
    The window can come to hold two requests of which the later one brings data: there may be two, the size hint
    lets the second one out, and it lies inside the file.
   */
  predicate CanPark(file: seq<byte>, start: nat, fileSize: nat, maxPacket: nat, maxConcurrentRequests: nat) {
    maxConcurrentRequests >= 2 && start + 2 * maxPacket <= fileSize && start + 2 * maxPacket < |file|
  }

  /** Nothing is parked, and only the request at the write position can bring data. */
  ghost predicate Narrow(file: seq<byte>, start: nat, fileSize: nat, maxPacket: nat, maxConcurrentRequests: nat,
                         w: Window, desired: nat)
  {
    && w.pending == map[]
    && (forall k | k in w.reqs :: w.reqs[k] == w.writeOffset || w.reqs[k] >= |file|)
    && (desired >= 2 ==> w.offset <= fileSize && maxConcurrentRequests >= 2 && start + maxPacket <= w.offset)
    && (w.inFlight >= 1 ==> start + maxPacket <= w.offset)
    && (w.inFlight >= 2 || (w.inFlight >= 1 && desired >= 2) ==> start + 2 * maxPacket <= w.offset)
  }

  /** With nothing in flight and nothing parked the next request is at the write position, or past the end. */
  lemma NextAtWrite(file: seq<byte>, start: nat, maxPacket: nat, w: Window, r: Record)
    requires Inv(file, start, maxPacket, w, r) && w.firstErr.err == Ok && w.inFlight == 0 && w.pending == map[]
    ensures w.reqs == map[] && start <= w.offset && (w.offset == w.writeOffset || w.offset >= |file|)
  {
    hide InOrder;
    assert w.reqs == map[] && r.asked == {};
    assert w.writeOffset !in r.sent;
  }

  lemma NothingToFlush(w: Window, writer: Writer)
    requires w.pending == map[]
    ensures Flushed(w, writer) == w
  {
  }

  /** One request less in flight, whatever else changes but the requests, the write position and the parked data. */
  lemma NarrowFewer(file: seq<byte>, start: nat, fileSize: nat, maxPacket: nat, max: nat, w: Window, w': Window,
                    desired: nat)
    requires Narrow(file, start, fileSize, maxPacket, max, w, desired) && w.inFlight > 0
    requires w'.inFlight == w.inFlight - 1 && w'.offset == w.offset && w'.pending == w.pending
    requires w'.writeOffset == w.writeOffset && forall k | k in w'.reqs :: k in w.reqs && w'.reqs[k] == w.reqs[k]
    ensures Narrow(file, start, fileSize, maxPacket, max, w', desired)
  {
  }

  /** The tile at the write position has been written: the other requests lie past the end of the file. */
  lemma NarrowWrite(file: seq<byte>, start: nat, fileSize: nat, maxPacket: nat, max: nat, w: Window, id: nat,
                    data: seq<byte>, desired: nat)
    requires Narrow(file, start, fileSize, maxPacket, max, w, desired) && w.inFlight > 0 && Apart(w.reqs)
    requires id in w.reqs && w.reqs[id] == w.writeOffset
    ensures
      var t := Turn(Wrote(Take(w, id), data), |data|, true);
      Narrow(file, start, fileSize, maxPacket, max, t.w, Grown(t, desired, fileSize, max))
  {
  }

  lemma NarrowReceive(file: seq<byte>, start: nat, fileSize: nat, maxPacket: nat, maxConcurrentRequests: nat, w: Window,
                      r: Record, desired: nat, res: Reply, writer: Writer)
    requires Inv(file, start, maxPacket, w, r) && w.inFlight > 0 && Answers(file, maxPacket, w.reqs, res)
    requires Narrow(file, start, fileSize, maxPacket, maxConcurrentRequests, w, desired)
    ensures
      var t := Received(w, res, writer);
      && Narrow(file, start, fileSize, maxPacket, maxConcurrentRequests, t.w,
                Grown(t, desired, fileSize, maxConcurrentRequests))
      && |t.w.sink| == |w.sink| + t.n
  {
    assert Apart(w.reqs);
    var t := Received(w, res, writer);
    if res.Data? && res.id in w.reqs {
      assert w.reqs[res.id] == w.writeOffset && w.pending == map[];
      hide Inv, Flushed, Chunk, Apart, Narrow, Lowest;
      NothingToFlush(Wrote(Take(w, res.id), res.data), writer);
      if t.wrote {
        NarrowWrite(file, start, fileSize, maxPacket, maxConcurrentRequests, w, res.id, res.data, desired);
      } else {
        NarrowFewer(file, start, fileSize, maxPacket, maxConcurrentRequests, w, t.w, desired);
      }
    } else {
      hide Inv, Flushed, Chunk, Apart, Narrow, Lowest;
      NarrowFewer(file, start, fileSize, maxPacket, maxConcurrentRequests, w, t.w, desired);
    }
  }

  // ---- a schedule under which it is not -------------------------------------------------

  predicate IsNewest(reqs: map<nat, nat>, k: nat) {
    k in reqs && forall k' | k' in reqs :: k' <= k
  }

  function HonestAnswer(file: seq<byte>, maxPacket: nat, reqs: map<nat, nat>, k: nat): Reply
    requires k in reqs
  {
    if reqs[k] >= |file| then Status(k, Eof) else Data(k, Chunk(file, reqs[k], maxPacket))
  }

  /** A server that answers the newest request first. */
  ghost predicate NewestFirst(server: Server, file: seq<byte>, maxPacket: nat) {
    forall t, reqs, k | IsNewest(reqs, k) :: server(t, reqs) == HonestAnswer(file, maxPacket, reqs, k)
  }

  lemma {:induction false} NewestOf(ids: set<nat>) returns (k: nat)
    requires ids != {}
    ensures k in ids && forall k' | k' in ids :: k' <= k
  {
    var x :| x in ids;
    k := x;
    var rest := ids - {x};
    assert ids == rest + {x};
    if rest != {} {
      var y := NewestOf(rest);
      k := if x > y then x else y;
    }
  }

  ghost function NewestServer(file: seq<byte>, maxPacket: nat, reqs: map<nat, nat>): Reply {
    if k: nat :| IsNewest(reqs, k) then HonestAnswer(file, maxPacket, reqs, k) else Lost(Failed(0))
  }

  lemma NewestFirstExists(file: seq<byte>, start: nat, maxPacket: nat) returns (server: Server)
    ensures KeepsContract(server, file, start, maxPacket) && Reliable(server) && NewestFirst(server, file, maxPacket)
  {
    server := (_, reqs) => NewestServer(file, maxPacket, reqs);
    forall t, reqs: map<nat, nat> | reqs != map[]
      ensures var x := server(t, reqs); !x.Lost? && x.id in reqs && (x.Status? ==> x.err == Eof)
    {
      assert reqs.Keys != {};
      var k := NewestOf(reqs.Keys);
      assert IsNewest(reqs, k);
    }
  }

  lemma FillNone(w: Window, desired: nat, fileSize: nat, maxPacket: nat)
    requires w.inFlight + |w.pending| >= desired
    ensures Filled(w, desired, fileSize, maxPacket) == (w, desired)
  {
  }

  /** The window after the first turn: the first tile has been written. */
  function AfterFirst(file: seq<byte>, start: nat, maxPacket: nat): Window
    requires start <= |file|
  {
    var a := start + maxPacket;
    Window(0, a, a, 2, map[], map[], OffsetErr(0, Ok), Chunk(file, start, maxPacket))
  }

  /** The window that holds the second and the third request. */
  function Both(a: nat, writeOffset: nat, maxPacket: nat, sink: seq<byte>): Window {
    Window(2, a + 2 * maxPacket, writeOffset, 4, map[2 := a, 3 := a + maxPacket], map[], OffsetErr(0, Ok), sink)
  }

  /** The window after the second turn: the third tile is parked. */
  function AfterSecond(a: nat, maxPacket: nat, sink: seq<byte>, data: seq<byte>): Window {
    Window(1, a + 2 * maxPacket, a, 4, map[2 := a], map[a + maxPacket := data], OffsetErr(0, Ok), sink)
  }

  lemma FillOne(w: Window, fileSize: nat, maxPacket: nat)
    requires w.inFlight == 0 && w.pending == map[]
    ensures Filled(w, 1, fileSize, maxPacket) == (Send(w, maxPacket), 1)
  {
  }

  /** The first turn: one request, its data written, and the window opened to two. */
  lemma EarlyFirst(file: seq<byte>, start: nat, maxPacket: nat, server: Server, writer: Writer)
    requires maxPacket >= 1 && start + maxPacket <= |file|
    requires NewestFirst(server, file, maxPacket) && TakesAll(writer)
    ensures
      var w := Send(Opening(start), maxPacket);
      Received(w, server(0, w.reqs), writer) == Turn(AfterFirst(file, start, maxPacket), maxPacket, true)
  {
    var w := Send(Opening(start), maxPacket);
    assert w.reqs == map[1 := start] && IsNewest(w.reqs, 1);
    var data := Chunk(file, start, maxPacket);
    assert w.reqs - {1} == map[] && [] + data == data && |data| == maxPacket;
    NothingToFlush(Wrote(Take(w, 1), data), writer);
  }

  lemma FillTwo(a: nat, writeOffset: nat, fileSize: nat, maxPacket: nat, sink: seq<byte>)
    requires a + maxPacket <= fileSize
    ensures Filled(Window(0, a, writeOffset, 2, map[], map[], OffsetErr(0, Ok), sink), 2, fileSize, maxPacket).0
         == Both(a, writeOffset, maxPacket, sink)
    ensures Filled(Window(0, a, writeOffset, 2, map[], map[], OffsetErr(0, Ok), sink), 2, fileSize, maxPacket).1 <= 2
  {
    var w := Window(0, a, writeOffset, 2, map[], map[], OffsetErr(0, Ok), sink);
    var w1 := Send(w, maxPacket);
    assert w1.reqs == map[2 := a];
    assert Filled(w, 2, fileSize, maxPacket) == Filled(w1, 2, fileSize, maxPacket);
    var w2 := Send(w1, maxPacket);
    assert w2.reqs == map[2 := a, 3 := a + maxPacket];
    assert w2 == Both(a, writeOffset, maxPacket, sink);
    var d := if w2.offset > fileSize then 1 else 2;
    assert Filled(w2, d, fileSize, maxPacket) == (w2, d);
  }

  /** The second turn: of two requests the later one is answered, and parked. */
  lemma EarlySecond(file: seq<byte>, a: nat, maxPacket: nat, sink: seq<byte>, server: Server, writer: Writer)
    requires maxPacket >= 1 && a + maxPacket < |file| && NewestFirst(server, file, maxPacket)
    ensures
      var w := Both(a, a, maxPacket, sink);
      Received(w, server(1, w.reqs), writer)
      == Turn(AfterSecond(a, maxPacket, sink, Chunk(file, a + maxPacket, maxPacket)), 0, false)
  {
    var w, data := Both(a, a, maxPacket, sink), Chunk(file, a + maxPacket, maxPacket);
    assert IsNewest(w.reqs, 3);
    assert server(1, w.reqs) == Data(3, data);
    assert w.reqs - {3} == map[2 := a] && w.pending[a + maxPacket := data] == map[a + maxPacket := data];
  }

  /** The third turn: the earlier one is written, and the parked one flushed behind it without being counted. */
  lemma EarlyThird(file: seq<byte>, a: nat, maxPacket: nat, sink: seq<byte>, data: seq<byte>, server: Server,
                   writer: Writer)
    requires maxPacket >= 1 && a + maxPacket <= |file| && NewestFirst(server, file, maxPacket) && TakesAll(writer)
    ensures
      var w := AfterSecond(a, maxPacket, sink, data);
      var t := Received(w, server(2, w.reqs), writer);
      t.n == maxPacket && |t.w.sink| == |sink| + maxPacket + |data|
  {
    var w, x := AfterSecond(a, maxPacket, sink, data), Chunk(file, a, maxPacket);
    assert |x| == maxPacket && IsNewest(w.reqs, 2);
    assert server(2, w.reqs) == Data(2, x);
    hide NewestFirst, IsNewest;
    var w1 := Wrote(Take(w, 2), x);
    var w2 := Wrote(w1.(pending := w1.pending - {w1.writeOffset}), data);
    assert w2.pending == map[];
    NothingToFlush(w2, writer);
    assert Flushed(w1, writer) == w2;
  }

  /** The first turns of a call in which data is flushed: where the window stands, and from then on a count too low. */
  ghost predicate Early(file: seq<byte>, start: nat, maxPacket: nat, turn: nat, w: Window, desired: nat, copied: nat)
    requires start + 2 * maxPacket < |file|
  {
    var a := start + maxPacket;
    var first, third := Chunk(file, start, maxPacket), Chunk(file, a + maxPacket, maxPacket);
    if turn == 0 then w == Opening(start) && desired == 1 && copied == 0
    else if turn == 1 then w == AfterFirst(file, start, maxPacket) && desired == 2 && copied == maxPacket
    else if turn == 2 then w == AfterSecond(a, maxPacket, first, third) && desired <= 2 && copied == maxPacket
    else copied < |w.sink|
  }

  /** One turn of the loop moves on to the next of these stages. */
  lemma EarlyTurn(file: seq<byte>, start: nat, fileSize: nat, maxPacket: nat, max: nat, server: Server, writer: Writer,
                  turn: nat, w0: Window, desired: nat, copied: nat)
    requires maxPacket >= 1 && CanPark(file, start, fileSize, maxPacket, max)
    requires NewestFirst(server, file, maxPacket) && TakesAll(writer) && turn <= 2
    requires Early(file, start, maxPacket, turn, w0, desired, copied)
    ensures
      var (w, d) := Filled(w0, desired, fileSize, maxPacket);
      w.inFlight > 0 &&
      var t := Received(w, server(turn, w.reqs), writer);
      Early(file, start, maxPacket, turn + 1, t.w, Grown(t, d, fileSize, max), copied + t.n)
  {
    hide Received, NewestFirst, Chunk, Filled, TakesAll;
    var a := start + maxPacket;
    var first, third := Chunk(file, start, maxPacket), Chunk(file, a + maxPacket, maxPacket);
    ChunkSizes(file, start, maxPacket);
    if turn == 0 {
      FillOne(Opening(start), fileSize, maxPacket);
      EarlyFirst(file, start, maxPacket, server, writer);
    } else if turn == 1 {
      FillTwo(a, a, fileSize, maxPacket, first);
      EarlySecond(file, a, maxPacket, first, server, writer);
    } else {
      FillNone(w0, desired, fileSize, maxPacket);
      EarlyThird(file, a, maxPacket, first, third, server, writer);
    }
  }

  lemma ChunkSizes(file: seq<byte>, start: nat, maxPacket: nat)
    requires maxPacket >= 1 && start + 2 * maxPacket < |file|
    ensures |Chunk(file, start, maxPacket)| == maxPacket && |Chunk(file, start + 2 * maxPacket, maxPacket)| > 0
  {
  }

  // ---- the call --------------------------------------------------------------------

  /** Write out the parked replies that have become contiguous, until one is missing or the writer fails. */
  method Flush(file: seq<byte>, start: nat, maxPacket: nat, w0: Window, ghost r0: Record, writer: Writer)
    returns (w: Window, ghost r: Record, ghost flushed: nat)
    requires Inv(file, start, maxPacket, w0, r0) && maxPacket >= 1 && !r0.failed
    ensures Inv(file, start, maxPacket, w, r) && w.writeOffset !in w.pending
    ensures w.inFlight == w0.inFlight && r.answered == r0.answered && r.clean == r0.clean
    ensures w0.firstErr.err != Ok ==> w.firstErr.err != Ok
    ensures |w.sink| == |w0.sink| + flushed && w == Flushed(w0, writer)
    ensures TakesAll(writer) ==> !r.failed
    ensures (forall at, data :: writer(at, data).1 != Eof) ==> r.foreignEof == r0.foreignEof
    ensures FlushRecorded(w0, writer, w) && r.lossy == r0.lossy && (FlushComplaint(w0, writer) == None ==> !r.failed)
  {
    hide Holds, Chunk, Complaint;
    w, r, flushed := w0, r0, 0;
    while w.writeOffset in w.pending
      invariant Inv(file, start, maxPacket, w, r) && r == r0
      invariant w.inFlight == w0.inFlight && w.firstErr == w0.firstErr
      invariant |w.sink| == |w0.sink| + flushed && Flushed(w, writer) == Flushed(w0, writer)
      invariant w.reqs == w0.reqs && FlushComplaint(w, writer) == FlushComplaint(w0, writer)
      decreases w.pending.Keys
    {
      UnparkStep(file, start, maxPacket, w, r);
      var data := w.pending[w.writeOffset];
      ComplaintOf(writer, w.sink, data);
      w := w.(pending := w.pending - {w.writeOffset});
      var (n, e) := WriterWrite(writer, w.sink, data);
      flushed := flushed + n;
      if e != Ok || n < |data| {
        RefuseStep(file, start, maxPacket, w, r, n, e);
        RefusedPast(file, start, maxPacket, w, r, n, e);
        w, r := Refused(w, data, n, e), RefusedRecord(r, data, n, e);
        break;
      }
      AdvanceStep(file, start, maxPacket, w, r);
      w := Wrote(w, data);
    }
    NothingParkedHere(file, start, maxPacket, w, r);
  }

  lemma NothingParkedHere(file: seq<byte>, start: nat, maxPacket: nat, w: Window, r: Record)
    requires Inv(file, start, maxPacket, w, r)
    ensures r.failed ==> w.writeOffset !in w.pending
  {
    hide Tiled, Asked, Parked, InOrder, AtTile, ErrorKept;
  }

  lemma Initially(file: seq<byte>, start: nat, maxPacket: nat)
    ensures Inv(file, start, maxPacket, Window(0, start, start, 1, map[], map[], OffsetErr(0, Ok), []),
                Record({}, {}, {}, {}, false, [], false, false, true))
  {
  }

  lemma Ended(file: seq<byte>, start: nat, maxPacket: nat, w: Window, r: Record)
    requires Inv(file, start, maxPacket, w, r)
    ensures w.sink <= From(file, start)
    ensures (r.lossy || r.failed) && !r.foreignEof ==> w.firstErr.err.Failed?
    ensures r.clean && !r.failed ==> !r.foreignEof && !w.firstErr.err.Failed?
  {
    hide Tiled, Asked, Parked, Covered, AtTile;
  }

  /** A data reply: parked when it is early; otherwise written, with everything parked that follows it. */
  method OnData(file: seq<byte>, start: nat, maxPacket: nat, w0: Window, ghost r0: Record, id: nat, data: seq<byte>,
                writer: Writer)
    returns (w: Window, ghost r: Record, n: nat, ghost flushed: nat, wrote: bool)
    requires Inv(file, start, maxPacket, w0, r0) && w0.writeOffset !in w0.pending && maxPacket >= 1
    requires w0.inFlight > 0 && id in w0.reqs && Answers(file, maxPacket, w0.reqs, Data(id, data))
    ensures Inv(file, start, maxPacket, w, r) && w.writeOffset !in w.pending && w.inFlight == w0.inFlight - 1
    ensures |w.sink| == |w0.sink| + n + flushed && Turn(w, n, wrote) == Received(w0, Data(id, data), writer)
    ensures w.firstErr.err == Ok ==> w0.firstErr.err == Ok
    ensures Unanswered(file, r.answered) < Unanswered(file, r0.answered)
    ensures r.clean == r0.clean
    ensures TakesAll(writer) && !r0.failed ==> !r.failed
    ensures (forall at, data :: writer(at, data).1 != Eof) ==> r.foreignEof == r0.foreignEof
    ensures Recorded(w0, Data(id, data), writer, w) && Undisturbed(NoteOf(w0, Data(id, data), writer), r0, r)
  {
    hide Inv, Holds, Chunk, Unanswered, Complaint, FlushComplaint, PastError;
    w, r, n, flushed, wrote := w0, r0, 0, 0, false;
    if w.reqs[id] != w.writeOffset {
      ParkStep(file, start, maxPacket, w, r, id, data);
      AnswerCounts(file, w, r, id);
      w, r := Park(w, id, data), TakeRecord(w, r, id);
    } else {
      TakeStep(file, start, maxPacket, w, r, id);
      AnswerCounts(file, w, r, id);
      w, r := Take(w, id), TakeRecord(w, r, id);
      ComplaintOf(writer, w.sink, data);
      var (took, e) := WriterWrite(writer, w.sink, data);
      n := took;
      if e != Ok || n < |data| {
        RefuseStep(file, start, maxPacket, w, r, n, e);
        RefusedPast(file, start, maxPacket, w, r, n, e);
        w, r := Refused(w, data, n, e), RefusedRecord(r, data, n, e);
      } else {
        wrote := true;
        AdvanceStep(file, start, maxPacket, w, r);
        w := Wrote(w, data);
        w, r, flushed := Flush(file, start, maxPacket, w, r, writer);
      }
    }
  }

  /** One result from the channel, of whatever kind, is taken in. */
  method Receive(file: seq<byte>, start: nat, maxPacket: nat, w0: Window, ghost r0: Record, res: Reply, writer: Writer)
    returns (w: Window, ghost r: Record, n: nat, ghost flushed: nat, wrote: bool)
    requires Inv(file, start, maxPacket, w0, r0) && w0.writeOffset !in w0.pending && maxPacket >= 1
    requires w0.inFlight > 0 && Answers(file, maxPacket, w0.reqs, res)
    ensures Inv(file, start, maxPacket, w, r) && w.writeOffset !in w.pending && w.inFlight == w0.inFlight - 1
    ensures |w.sink| == |w0.sink| + n + flushed && Turn(w, n, wrote) == Received(w0, res, writer)
    ensures w.firstErr.err == Ok ==> w0.firstErr.err == Ok
    ensures
      || Unanswered(file, r.answered) < Unanswered(file, r0.answered)
      || (r.answered == r0.answered && w.firstErr.err != Ok)
    ensures r0.clean && !res.Lost? && res.id in w0.reqs && (res.Status? ==> res.err == Eof) ==> r.clean
    ensures TakesAll(writer) && !r0.failed ==> !r.failed
    ensures !r0.foreignEof && res != Lost(Eof) && (forall at, data :: writer(at, data).1 != Eof) ==> !r.foreignEof
    ensures Recorded(w0, res, writer, w) && Undisturbed(NoteOf(w0, res, writer), r0, r)
  {
    hide Inv, Holds, Chunk, Unanswered, Complaint, FlushComplaint;
    w, r, n, flushed, wrote := w0, r0, 0, 0, false;
    if res.Lost? || res.id !in w.reqs {
      var e := if res.Lost? then res.err else Failed(0);
      LostStep(file, start, maxPacket, w, r, e);
      w, r := OnLost(w, e), LostRecord(r, e);
    } else if res.Status? {
      StatusStep(file, start, maxPacket, w, r, res.id, res.err);
      w, r := OnStatus(w, res.id, res.err), StatusRecord(w, r, res.id, res.err);
    } else {
      w, r, n, flushed, wrote := OnData(file, start, maxPacket, w, r, res.id, res.data, writer);
    }
  }

  // ---- an io.EOF that is not the server's ----------------------------------------------

  /** The call is over: an io.EOF is recorded, nothing is in flight and nothing has been written. */
  predicate CutOff(w: Window) {
    w.inFlight == 0 && w.firstErr.err == Eof && w.sink == []
  }

  /** The first result is an io.EOF of the connection's own. */
  predicate DropsFirst(server: Server, start: nat) {
    server(0, map[1 := start]) == Lost(Eof)
  }

  /** The writer answers the first tile with io.EOF, having taken nothing. */
  predicate RefusesFirst(writer: Writer, file: seq<byte>, start: nat, maxPacket: nat) {
    start < |file| && writer(0, Chunk(file, start, maxPacket)) == (0, Eof)
  }

  lemma CutOffAtOnce(file: seq<byte>, start: nat, maxPacket: nat, server: Server, writer: Writer)
    requires KeepsContract(server, file, start, maxPacket)
    requires DropsFirst(server, start) || (Reliable(server) && RefusesFirst(writer, file, start, maxPacket))
    ensures var w := Send(Opening(start), maxPacket); CutOff(Received(w, server(0, w.reqs), writer).w)
  {
    var w := Send(Opening(start), maxPacket);
    assert w.reqs == map[1 := start] && 1 in w.reqs;
    assert Outstanding(start, w.reqs);
    var res := server(0, w.reqs);
    assert Answers(file, maxPacket, w.reqs, res);
    hide Flushed;
    if !DropsFirst(server, start) {
      var data := Chunk(file, start, maxPacket);
      assert !res.Lost? && res.id == 1;
      assert res == Data(1, data);
      assert WriterWrite(writer, w.sink, data) == (0, Eof);
      assert [] + data[..0] == [];
    }
  }

  /** A connection that reports io.EOF at once keeps to the server's contract: any call can be cut off. */
  lemma DroppingServerExists(file: seq<byte>, start: nat, maxPacket: nat) returns (server: Server)
    ensures KeepsContract(server, file, start, maxPacket) && DropsFirst(server, start)
  {
    server := (_, _) => Lost(Eof);
  }

  /** Past the end of the file there is nothing to cut off. */
  lemma PastEnd(file: seq<byte>, start: nat, maxPacket: nat, w: Window, r: Record)
    requires Inv(file, start, maxPacket, w, r) && start >= |file|
    ensures w.sink == From(file, start) && w.pending == map[]
  {
    hide Asked, Covered, AtTile, ErrorKept, Counted, Chunk;
    assert From(file, start) == [];
    assert forall o :: o !in w.pending;
  }

  // ---- what the loop keeps beside its invariant ------------------------------------------

  /** Everything a call depends on. */
  datatype Call = Call(file: seq<byte>, start: nat, fileSize: nat, maxPacket: nat, max: nat, server: Server,
                       writer: Writer)

  ghost predicate Parks(c: Call) {
    CanPark(c.file, c.start, c.fileSize, c.maxPacket, c.max)
  }

  /** An io.EOF of the connection or the writer comes first. */
  ghost predicate CutsOff(c: Call) {
    DropsFirst(c.server, c.start) || (Reliable(c.server) && RefusesFirst(c.writer, c.file, c.start, c.maxPacket))
  }

  ghost predicate Undercounts(c: Call) {
    Parks(c) && NewestFirst(c.server, c.file, c.maxPacket) && TakesAll(c.writer)
  }

  ghost predicate NarrowIn(c: Call, w: Window, desired: nat) {
    Narrow(c.file, c.start, c.fileSize, c.maxPacket, c.max, w, desired)
  }

  lemma NarrowSend(c: Call, w: Window, r: Record, desired: nat)
    requires Inv(c.file, c.start, c.maxPacket, w, r) && w.firstErr.err == Ok && w.inFlight + |w.pending| < desired
    requires !Parks(c) && NarrowIn(c, w, desired)
    ensures var w' := Send(w, c.maxPacket); NarrowIn(c, w', if w'.offset > c.fileSize then 1 else desired)
  {
    hide Holds;
    if w.inFlight == 0 {
      NextAtWrite(c.file, c.start, c.maxPacket, w, r);
    }
  }

  ghost predicate Outcome(c: Call, turn: nat, w: Window, desired: nat, copied: nat) {
    && (turn == 0 ==> w == Opening(c.start) && desired == 1 && copied == 0)
    && (CutsOff(c) && turn > 0 ==> CutOff(w))
    && (!Parks(c) ==> NarrowIn(c, w, desired) && copied == |w.sink|)
    && (Undercounts(c) ==> Early(c.file, c.start, c.maxPacket, turn, w, desired, copied))
    && (w, desired) == Turns(c, turn)
  }

  /** The first part of a turn: read ahead unless an error has been recorded. */
  function Ready(c: Call, w0: Window, d0: nat): (Window, nat) {
    if w0.firstErr.err == Ok then Filled(w0, d0, c.fileSize, c.maxPacket) else (w0, d0)
  }

  /** The window and the desired number of requests in flight after n turns of the loop, or when it has ended before. */
  function Turns(c: Call, n: nat): (Window, nat) {
    if n == 0 then (Opening(c.start), 1)
    else
      var (w0, d0) := Turns(c, n - 1);
      var (w, d) := Ready(c, w0, d0);
      if w.inFlight == 0 then (w0, d0)
      else
        var t := Received(w, c.server(n - 1, w.reqs), c.writer);
        (t.w, Grown(t, d, c.fileSize, c.max))
  }

  /** What went wrong in the first n turns. */
  function Notes(c: Call, n: nat): seq<Note> {
    if n == 0 then []
    else
      var (w0, d0) := Turns(c, n - 1);
      var (w, d) := Ready(c, w0, d0);
      if w.inFlight == 0 then Notes(c, n - 1)
      else Added(Notes(c, n - 1), NoteOf(w, c.server(n - 1, w.reqs), c.writer))
  }

  /** The bytes counted in the first n turns. */
  function Copied(c: Call, n: nat): nat {
    if n == 0 then 0
    else
      var (w0, d0) := Turns(c, n - 1);
      var (w, d) := Ready(c, w0, d0);
      if w.inFlight == 0 then Copied(c, n - 1)
      else Copied(c, n - 1) + Direct(w, c.server(n - 1, w.reqs), c.writer)
  }

  ghost predicate Told(c: Call, turn: nat, w: Window, r: Record, copied: nat) {
    && Noted(Notes(c, turn), w.firstErr)
    && (if LastStop(Notes(c, turn)).Some? then PastError(w) else !r.lossy && !r.failed)
    && copied == Copied(c, turn)
  }

  /** Every turn keeps the recorded error the one to blame. */
  lemma ToldTurn(c: Call, turn: nat, w0: Window, d0: nat, copied: nat, w: Window, r: Record, d: nat, w': Window,
                 r': Record)
    requires (w0, d0) == Turns(c, turn) && Told(c, turn, w0, r, copied) && Fills(c, w0, d0, w, d)
    requires w.firstErr == w0.firstErr && Recorded(w, c.server(turn, w.reqs), c.writer, w')
    requires Undisturbed(NoteOf(w, c.server(turn, w.reqs), c.writer), r, r')
    ensures Told(c, turn + 1, w', r', copied + Direct(w, c.server(turn, w.reqs), c.writer))
  {
    var note := NoteOf(w, c.server(turn, w.reqs), c.writer);
    var notes := Notes(c, turn);
    NextNotes(c, turn, w0, d0, w, d);
    hide Notes, Copied, Filled, NarrowIn, Parks, NoteOf, Turns, Direct;
    assert LastStop(notes).Some? ==> w == w0;
    NotedStep(notes, w.firstErr, note, w'.firstErr);
  }

  lemma NextNotes(c: Call, turn: nat, w0: Window, d0: nat, w: Window, d: nat)
    requires (w0, d0) == Turns(c, turn) && Fills(c, w0, d0, w, d) && w.inFlight > 0
    ensures Notes(c, turn + 1) == Added(Notes(c, turn), NoteOf(w, c.server(turn, w.reqs), c.writer))
    ensures Copied(c, turn + 1) == Copied(c, turn) + Direct(w, c.server(turn, w.reqs), c.writer)
  {
    hide Filled, NarrowIn, Parks, NoteOf, Turns, Direct;
  }

  /**
    The call has come to its end after n turns, and this is what it then returns. If nothing but refusals went wrong,
    exactly the bytes before the lowest refused offset have been written.
   */
  ghost predicate Returns(c: Call, n: nat, copied: nat, sink: seq<byte>, err: Error) {
    var w, notes := Turns(c, n).0, Notes(c, n);
    && w.firstErr.err != Ok && w.inFlight == 0 && w.sink == sink && copied == Copied(c, n)
    && (exists e :: e != Ok && Blames(notes, e) && err == if e == Eof then Ok else e)
    && (LastStop(notes) == None ==> forall o, e | LowestDenial(notes, o, e) :: WroteUpTo(c.file, c.start, o, sink))
  }

  /** Every result answers a request in flight. */
  ghost predicate Prompt(server: Server) {
    forall t, reqs | reqs != map[] :: !server(t, reqs).Lost? && server(t, reqs).id in reqs
  }

  /** No more requests are counted as in flight than are known by their ids. */
  ghost predicate Known(w: Window) {
    w.inFlight <= |w.reqs| && forall k | k in w.reqs :: k < w.nextId
  }

  lemma KnownSend(w: Window, maxPacket: nat)
    requires Known(w)
    ensures Known(Send(w, maxPacket)) && Send(w, maxPacket).inFlight == w.inFlight + 1
    ensures Send(w, maxPacket).pending == w.pending
  {
    assert Send(w, maxPacket).reqs.Keys == w.reqs.Keys + {w.nextId};
  }

  lemma {:induction false} KnownFilled(w: Window, desired: nat, fileSize: nat, maxPacket: nat)
    requires Known(w)
    ensures Known(Filled(w, desired, fileSize, maxPacket).0)
    decreases desired - w.inFlight - |w.pending|
  {
    if w.inFlight + |w.pending| < desired {
      var w' := Send(w, maxPacket);
      KnownSend(w, maxPacket);
      hide Known, Send;
      KnownFilled(w', if w'.offset > fileSize then 1 else desired, fileSize, maxPacket);
    }
  }

  /** A writer that takes everything has no complaints and leaves the requests as they were. */
  lemma {:induction false} FlushTakesAll(w: Window, writer: Writer)
    requires TakesAll(writer)
    ensures FlushComplaint(w, writer) == None
    ensures
      var w' := Flushed(w, writer);
      w'.inFlight == w.inFlight && w'.reqs == w.reqs && w'.nextId == w.nextId
    decreases w.pending.Keys
  {
    if w.writeOffset in w.pending {
      var data := w.pending[w.writeOffset];
      FlushTakesAll(Wrote(w.(pending := w.pending - {w.writeOffset}), data), writer);
    }
  }

  lemma KnownTurn(w: Window, res: Reply, writer: Writer)
    requires Known(w) && w.inFlight > 0 && !res.Lost? && res.id in w.reqs && TakesAll(writer)
    ensures Known(Received(w, res, writer).w)
    ensures NoteOf(w, res, writer).Some? ==> NoteOf(w, res, writer).value.Denied?
  {
    hide Flushed, FlushComplaint;
    assert (w.reqs - {res.id}).Keys == w.reqs.Keys - {res.id};
    if res.Data? {
      FlushTakesAll(Wrote(Take(w, res.id), res.data), writer);
    }
  }

  ghost predicate AllDenied(notes: seq<Note>) {
    forall x | x in notes :: x.Denied?
  }

  lemma DeniedAdded(notes: seq<Note>, note: Option<Note>)
    requires AllDenied(notes) && (note.Some? ==> note.value.Denied?)
    ensures AllDenied(Added(notes, note))
  {
  }

  lemma KnownReady(c: Call, w: Window, d: nat)
    requires Known(w)
    ensures Known(Ready(c, w, d).0)
  {
    hide Known;
    KnownFilled(w, d, c.fileSize, c.maxPacket);
  }

  /** With a server that answers what was asked and a writer that takes what it is given, only refusals go wrong. */
  lemma {:induction false} OnlyDenials(c: Call, n: nat)
    requires Prompt(c.server) && TakesAll(c.writer)
    ensures Known(Turns(c, n).0) && AllDenied(Notes(c, n))
  {
    hide Known, Ready, Received, NoteOf, AllDenied, Added, TakesAll;
    if n == 0 {
      NothingWrong(c);
    } else {
      OnlyDenials(c, n - 1);
      var (w0, d0) := Turns(c, n - 1);
      KnownReady(c, w0, d0);
      var (w, d) := Ready(c, w0, d0);
      if w.inFlight > 0 {
        KnownAsked(w);
        var res := c.server(n - 1, w.reqs);
        KnownTurn(w, res, c.writer);
        DeniedAdded(Notes(c, n - 1), NoteOf(w, res, c.writer));
      }
    }
  }

  lemma NothingWrong(c: Call)
    ensures Known(Turns(c, 0).0) && AllDenied(Notes(c, 0))
  {
  }

  lemma KnownAsked(w: Window)
    requires Known(w) && w.inFlight > 0
    ensures w.reqs != map[]
  {
  }

  /**
    The call then returns the error of the refused request with the lowest offset, or nil when that is io.EOF, and has
    written exactly what lies before that offset.
   */
  lemma LowestDenialReturned(c: Call, n: nat, copied: nat, sink: seq<byte>, err: Error)
    requires Prompt(c.server) && TakesAll(c.writer) && Returns(c, n, copied, sink, err)
    ensures exists o, e ::
              && LowestDenial(Notes(c, n), o, e) && WroteUpTo(c.file, c.start, o, sink)
              && err == if e == Eof then Ok else e
  {
    hide Turns, Notes, Prompt, TakesAll, Known;
    OnlyDenials(c, n);
    NoStop(Notes(c, n));
    var e :| e != Ok && Blames(Notes(c, n), e) && err == if e == Eof then Ok else e;
    var o :| LowestDenial(Notes(c, n), o, e);
  }

  lemma ToldAtFirst(c: Call)
    ensures Told(c, 0, Opening(c.start), Record({}, {}, {}, {}, false, [], false, false, true), 0)
  {
  }

  lemma OutcomeAtFirst(c: Call)
    ensures Outcome(c, 0, Opening(c.start), 1, 0)
  {
  }

  lemma OutcomeTurns(c: Call, turn: nat, w: Window, desired: nat, copied: nat)
    requires Outcome(c, turn, w, desired, copied)
    ensures (w, desired) == Turns(c, turn)
  {
  }

  lemma Reports(c: Call, turn: nat, w: Window, r: Record, desired: nat, copied: nat)
    requires (w, desired) == Turns(c, turn) && Told(c, turn, w, r, copied) && w.firstErr.err != Ok && w.inFlight == 0
    requires Inv(c.file, c.start, c.maxPacket, w, r) && w.writeOffset !in w.pending
    ensures Returns(c, turn, copied, w.sink, if w.firstErr.err == Eof then Ok else w.firstErr.err)
  {
    hide Turns, Notes, Copied, Blames, Inv, WroteUpTo;
    var notes := Notes(c, turn);
    NotedBlames(notes, w.firstErr);
    if LastStop(notes) == None {
      WrittenUpTo(c.file, c.start, c.maxPacket, w, r);
      forall o, e | LowestDenial(notes, o, e) ensures WroteUpTo(c.file, c.start, o, w.sink) {
        assert Denied(o, e) in notes && Denied(w.firstErr.offset, w.firstErr.err) in notes;
      }
    }
  }

  /** The first part of a turn. */
  ghost predicate Fills(c: Call, w0: Window, d0: nat, w: Window, d: nat) {
    if w0.firstErr.err == Ok then
      (w, d) == Filled(w0, d0, c.fileSize, c.maxPacket) && (!Parks(c) && NarrowIn(c, w0, d0) ==> NarrowIn(c, w, d))
    else w == w0 && d == d0
  }

  lemma {:induction false} FlushedSink(w: Window, writer: Writer)
    ensures |Flushed(w, writer).sink| >= |w.sink|
    decreases w.pending.Keys
  {
    if w.writeOffset in w.pending {
      var data, w' := w.pending[w.writeOffset], w.(pending := w.pending - {w.writeOffset});
      FlushedSink(Wrote(w', data), writer);
    }
  }

  lemma ReceivedSink(w: Window, res: Reply, writer: Writer)
    requires w.inFlight > 0
    ensures var t := Received(w, res, writer); |t.w.sink| >= |w.sink| + t.n
  {
    hide Flushed;
    if res.Data? && res.id in w.reqs {
      FlushedSink(Wrote(Take(w, res.id), res.data), writer);
    }
  }

  lemma {:induction false} FilledSink(w: Window, desired: nat, fileSize: nat, maxPacket: nat)
    ensures Filled(w, desired, fileSize, maxPacket).0.sink == w.sink
    decreases desired - w.inFlight - |w.pending|
  {
    if w.inFlight + |w.pending| < desired {
      var w' := Send(w, maxPacket);
      FilledSink(w', if w'.offset > fileSize then 1 else desired, fileSize, maxPacket);
    }
  }

  lemma CutsOffTurn(c: Call, turn: nat, w0: Window, d0: nat, copied: nat, w: Window, d: nat)
    requires KeepsContract(c.server, c.file, c.start, c.maxPacket)
    requires Outcome(c, turn, w0, d0, copied) && Fills(c, w0, d0, w, d) && w.inFlight > 0
    ensures CutsOff(c) ==> CutOff(Received(w, c.server(turn, w.reqs), c.writer).w)
  {
    hide NarrowIn, CutsOff, Undercounts, Parks, KeepsContract;
    if turn == 0 {
      FillOne(Opening(c.start), c.fileSize, c.maxPacket);
      hide Filled;
      CutsOffMeans(c);
      if CutsOff(c) {
        CutOffAtOnce(c.file, c.start, c.maxPacket, c.server, c.writer);
      }
    }
  }

  lemma CutsOffMeans(c: Call)
    ensures CutsOff(c) ==>
              DropsFirst(c.server, c.start) ||
              (Reliable(c.server) && RefusesFirst(c.writer, c.file, c.start, c.maxPacket))
  {
  }

  lemma UndercountsTurn(c: Call, turn: nat, w0: Window, d0: nat, copied: nat, w: Window, d: nat)
    requires c.maxPacket >= 1 && Undercounts(c)
    requires Outcome(c, turn, w0, d0, copied) && Fills(c, w0, d0, w, d)
    ensures w.sink == w0.sink && (turn <= 2 ==> w.inFlight > 0)
    ensures
      w.inFlight > 0 ==>
        var t := Received(w, c.server(turn, w.reqs), c.writer);
        Early(c.file, c.start, c.maxPacket, turn + 1, t.w, Grown(t, d, c.fileSize, c.max), copied + t.n)
  {
    FilledSink(w0, d0, c.fileSize, c.maxPacket);
    hide NarrowIn, CutsOff, CutOff, Received, Filled, Grown, NewestFirst, TakesAll;
    if turn <= 2 {
      EarlyTurn(c.file, c.start, c.fileSize, c.maxPacket, c.max, c.server, c.writer, turn, w0, d0, copied);
    } else if w.inFlight > 0 {
      ReceivedSink(w, c.server(turn, w.reqs), c.writer);
    }
  }

  lemma AllOutstanding(file: seq<byte>, start: nat, maxPacket: nat, w: Window, r: Record)
    requires Inv(file, start, maxPacket, w, r) && w.inFlight > 0
    ensures Outstanding(start, w.reqs)
  {
    hide Parked, Covered, AtTile, InOrder, ErrorKept;
  }

  lemma TurnsNext(c: Call, turn: nat, w0: Window, d0: nat, w: Window, d: nat)
    requires (w0, d0) == Turns(c, turn) && Fills(c, w0, d0, w, d) && w.inFlight > 0
    ensures
      var t := Received(w, c.server(turn, w.reqs), c.writer);
      Turns(c, turn + 1) == (t.w, Grown(t, d, c.fileSize, c.max))
  {
    hide Filled, Received, NarrowIn, Parks;
  }

  lemma OutcomeTurn(c: Call, turn: nat, w0: Window, d0: nat, copied: nat, w: Window, r: Record, d: nat)
    requires c.maxPacket >= 1 && KeepsContract(c.server, c.file, c.start, c.maxPacket)
    requires Outcome(c, turn, w0, d0, copied) && Fills(c, w0, d0, w, d)
    requires w.inFlight > 0 && Inv(c.file, c.start, c.maxPacket, w, r)
    ensures
      var t := Received(w, c.server(turn, w.reqs), c.writer);
      Outcome(c, turn + 1, t.w, Grown(t, d, c.fileSize, c.max), copied + t.n)
  {
    hide Turns, Inv, Holds;
    CutsOffTurn(c, turn, w0, d0, copied, w, d);
    FilledSink(w0, d0, c.fileSize, c.maxPacket);
    var res := c.server(turn, w.reqs);
    AllOutstanding(c.file, c.start, c.maxPacket, w, r);
    assert Answers(c.file, c.maxPacket, w.reqs, res);
    TurnsNext(c, turn, w0, d0, w, d);
    hide CutsOff, CutOff, Parks, Narrow, Received, Grown, Filled, Inv, Early, KeepsContract, Answers, Turns;
    if Undercounts(c) {
      UndercountsTurn(c, turn, w0, d0, copied, w, d);
    }
    hide Undercounts;
    if !Parks(c) {
      NarrowReceive(c.file, c.start, c.fileSize, c.maxPacket, c.max, w, r, d, res, c.writer);
    }
  }

  ghost predicate Ends(c: Call, w: Window, copied: nat) {
    && (CutsOff(c) ==> w.firstErr.err == Eof && w.sink == [])
    && (!Parks(c) ==> copied == |w.sink|)
    && (Undercounts(c) ==> copied < |w.sink|)
  }

  lemma EndsMeans(c: Call, w: Window, copied: nat)
    requires Ends(c, w, copied)
    ensures DropsFirst(c.server, c.start) ==> w.firstErr.err == Eof && w.sink == []
    ensures Reliable(c.server) && RefusesFirst(c.writer, c.file, c.start, c.maxPacket) ==>
              w.firstErr.err == Eof && w.sink == []
    ensures !CanPark(c.file, c.start, c.fileSize, c.maxPacket, c.max) ==> copied == |w.sink|
    ensures
      (&& CanPark(c.file, c.start, c.fileSize, c.maxPacket, c.max)
       && NewestFirst(c.server, c.file, c.maxPacket) && TakesAll(c.writer)) ==> copied < |w.sink|
  {
  }

  lemma FillsNothing(c: Call, w: Window, d: nat)
    requires w.firstErr.err != Ok
    ensures Fills(c, w, d, w, d)
  {
  }

  /** What all this says once the loop has ended. */
  lemma OutcomeAtEnd(c: Call, turn: nat, w0: Window, d0: nat, copied: nat, w: Window, d: nat)
    requires c.maxPacket >= 1 && Outcome(c, turn, w0, d0, copied) && Fills(c, w0, d0, w, d) && w.inFlight == 0
    ensures Ends(c, w, copied)
  {
    FilledSink(w0, d0, c.fileSize, c.maxPacket);
    if turn == 0 {
      FillOne(Opening(c.start), c.fileSize, c.maxPacket);
    }
    hide Narrow, Filled, NewestFirst, CutsOff;
    if Undercounts(c) {
      UndercountsTurn(c, turn, w0, d0, copied, w, d);
    }
  }

  // ---- a reply that is too short ------------------------------------------------------------

  /** The write position lies behind everything still to be asked for, and nothing asked for or parked is there. */
  ghost predicate Stranded(w: Window) {
    && w.writeOffset < w.offset && w.writeOffset !in w.pending
    && (forall k | k in w.reqs :: w.reqs[k] != w.writeOffset)
  }

  lemma {:induction false} StrandedFill(w: Window, desired: nat, fileSize: nat, maxPacket: nat)
    requires Stranded(w)
    ensures
      var w' := Filled(w, desired, fileSize, maxPacket).0;
      Stranded(w') && w'.sink == w.sink
    decreases desired - w.inFlight - |w.pending|
  {
    if w.inFlight + |w.pending| < desired {
      var w' := Send(w, maxPacket);
      StrandedFill(w', if w'.offset > fileSize then 1 else desired, fileSize, maxPacket);
    }
  }

  lemma StrandedReceive(w: Window, res: Reply, writer: Writer)
    requires Stranded(w) && w.inFlight > 0
    ensures
      var w' := Received(w, res, writer).w;
      Stranded(w') && w'.sink == w.sink && w'.writeOffset == w.writeOffset
  {
  }

  /** Once the write position is stranded nothing more is written, whatever the server answers. */
  lemma {:induction false} StrandedForever(c: Call, n: nat, m: nat)
    requires n <= m && Stranded(Turns(c, n).0)
    ensures Stranded(Turns(c, m).0) && Turns(c, m).0.sink == Turns(c, n).0.sink
  {
    hide Stranded, Filled, Received, Grown;
    if n < m {
      StrandedForever(c, n, m - 1);
      var (w0, d0) := Turns(c, m - 1);
      StrandedFill(w0, d0, c.fileSize, c.maxPacket);
      var w := Ready(c, w0, d0).0;
      if w.inFlight > 0 {
        StrandedReceive(w, c.server(m - 1, w.reqs), c.writer);
      }
    }
  }

  /** A server that sends at least one byte and no more than was asked for, whatever it sends. */
  ghost predicate SendsPieces(server: Server, maxPacket: nat) {
    forall t, reqs :: server(t, reqs).Data? ==> 0 < |server(t, reqs).data| <= maxPacket
  }

  /**
    What every call keeps against such a server: what is asked for or parked are distinct tiles at or behind the write
    position, which is where the sink ends.
   */
  ghost predicate Shape(start: nat, maxPacket: nat, w: Window, sent: set<nat>) {
    && Tiled(start, maxPacket, w.offset, sent)
    && start <= w.writeOffset <= w.offset && |w.sink| == w.writeOffset - start
    && (forall k | k in w.reqs :: k < w.nextId && w.reqs[k] in sent && w.reqs[k] >= w.writeOffset)
    && Apart(w.reqs)
    && (forall o | o in w.pending :: o in sent && o >= w.writeOffset && 0 < |w.pending[o]| <= maxPacket)
    && (forall k | k in w.reqs :: w.reqs[k] !in w.pending)
  }

  lemma ShapeSend(start: nat, maxPacket: nat, w: Window, sent: set<nat>)
    requires Shape(start, maxPacket, w, sent) && maxPacket >= 1
    ensures Shape(start, maxPacket, Send(w, maxPacket), sent + {w.offset})
  {
    TiledGrows(start, maxPacket, w.offset, sent);
    ApartGrows(w.reqs, w.nextId, w.offset);
    hide Tiled, Apart;
  }

  lemma {:induction false} ShapeFill(start: nat, maxPacket: nat, w: Window, sent: set<nat>, desired: nat, fileSize: nat)
    returns (sent': set<nat>)
    requires Shape(start, maxPacket, w, sent) && maxPacket >= 1
    ensures
      var w' := Filled(w, desired, fileSize, maxPacket).0;
      && Shape(start, maxPacket, w', sent') && sent <= sent'
      && w'.writeOffset == w.writeOffset && w'.pending == w.pending && w'.sink == w.sink
    decreases desired - w.inFlight - |w.pending|
  {
    hide Shape;
    sent' := sent;
    if w.inFlight + |w.pending| < desired {
      var w' := Send(w, maxPacket);
      ShapeSend(start, maxPacket, w, sent);
      sent' := ShapeFill(start, maxPacket, w', sent + {w.offset}, if w'.offset > fileSize then 1 else desired,
                         fileSize);
    }
  }

  /** The tile at the write position, no longer asked for or parked, is written. */
  lemma ShapeWrote(start: nat, maxPacket: nat, w: Window, sent: set<nat>, data: seq<byte>)
    requires Shape(start, maxPacket, w, sent) && w.writeOffset in sent && 0 < |data| <= maxPacket
    requires w.writeOffset !in w.pending && forall k | k in w.reqs :: w.reqs[k] != w.writeOffset
    ensures Shape(start, maxPacket, Wrote(w, data), sent)
    ensures |data| < maxPacket ==> Wrote(w, data).writeOffset !in sent
  {
    NextTile(start, maxPacket, w.offset, sent, w.writeOffset);
    hide Tiled, Apart;
  }

  /** A short reply for tile o has been written, or is parked and not yet passed. */
  ghost predicate Blocked(maxPacket: nat, w: Window, sent: set<nat>, o: nat, len: nat) {
    && o in sent && 0 < len < maxPacket
    && (|| w.writeOffset == o + len
        || (w.writeOffset <= o && o in w.pending && |w.pending[o]| == len))
  }

  lemma {:induction false} FlushBlocked(start: nat, maxPacket: nat, w: Window, sent: set<nat>, o: nat, len: nat,
                                        writer: Writer)
    requires Shape(start, maxPacket, w, sent) && TakesAll(writer)
    ensures Shape(start, maxPacket, Flushed(w, writer), sent)
    ensures Blocked(maxPacket, w, sent, o, len) ==> Blocked(maxPacket, Flushed(w, writer), sent, o, len)
    decreases w.pending.Keys
  {
    if w.writeOffset in w.pending {
      var at, data := w.writeOffset, w.pending[w.writeOffset];
      var w' := w.(pending := w.pending - {at});
      assert Shape(start, maxPacket, w', sent) by {
        hide Tiled, Apart;
      }
      ShapeWrote(start, maxPacket, w', sent, data);
      if Blocked(maxPacket, w, sent, o, len) {
        NextTile(start, maxPacket, w.offset, sent, at);
        BlockedMoves(start, maxPacket, w, sent, o, len);
      }
      hide Tiled, Apart, Shape;
      FlushBlocked(start, maxPacket, Wrote(w', data), sent, o, len, writer);
    }
  }

  /** Writing the parked tile at the write position: either it is the short one, or the short one comes later. */
  lemma BlockedMoves(start: nat, maxPacket: nat, w: Window, sent: set<nat>, o: nat, len: nat)
    requires Shape(start, maxPacket, w, sent) && Blocked(maxPacket, w, sent, o, len)
    requires w.writeOffset in w.pending
    ensures Blocked(maxPacket, Wrote(w.(pending := w.pending - {w.writeOffset}), w.pending[w.writeOffset]), sent, o,
                    len)
  {
    var at := w.writeOffset;
    NextTile(start, maxPacket, w.offset, sent, at);
    NextTile(start, maxPacket, w.offset, sent, o);
    hide Tiled, Apart;
  }

  lemma TakeShape(start: nat, maxPacket: nat, w: Window, sent: set<nat>, id: nat)
    requires Shape(start, maxPacket, w, sent) && w.inFlight > 0 && id in w.reqs
    ensures Shape(start, maxPacket, Take(w, id), sent)
    ensures forall k | k in Take(w, id).reqs :: Take(w, id).reqs[k] != w.reqs[id]
  {
    hide Tiled;
  }

  lemma ParkShape(start: nat, maxPacket: nat, w: Window, sent: set<nat>, id: nat, data: seq<byte>)
    requires Shape(start, maxPacket, w, sent) && w.inFlight > 0 && id in w.reqs && 0 < |data| <= maxPacket
    ensures Shape(start, maxPacket, Park(w, id, data), sent)
  {
    TakeShape(start, maxPacket, w, sent, id);
    hide Tiled, Apart;
  }

  lemma LostShape(start: nat, maxPacket: nat, w: Window, sent: set<nat>, e: Error, id: nat)
    requires Shape(start, maxPacket, w, sent) && w.inFlight > 0
    ensures Shape(start, maxPacket, OnLost(w, e), sent)
    ensures id in w.reqs ==> Shape(start, maxPacket, OnStatus(w, id, e), sent)
  {
    hide Tiled;
  }

  lemma WriteShape(start: nat, maxPacket: nat, w: Window, sent: set<nat>, id: nat, data: seq<byte>, writer: Writer,
                   o: nat,
                   len: nat)
    requires Shape(start, maxPacket, w, sent) && w.inFlight > 0 && id in w.reqs && w.reqs[id] == w.writeOffset
    requires 0 < |data| <= maxPacket && TakesAll(writer)
    ensures
      var w' := Received(w, Data(id, data), writer).w;
      && Shape(start, maxPacket, w', sent)
      && (Blocked(maxPacket, w, sent, o, len) || (o == w.writeOffset && len == |data| < maxPacket) ==>
            Blocked(maxPacket, w', sent, o, len))
  {
    var w1, w2 := Take(w, id), Wrote(Take(w, id), data);
    TakeShape(start, maxPacket, w, sent, id);
    ShapeWrote(start, maxPacket, w1, sent, data);
    assert Received(w, Data(id, data), writer).w == Flushed(w2, writer);
    if Blocked(maxPacket, w, sent, o, len) {
      NextTile(start, maxPacket, w.offset, sent, w.writeOffset);
      NextTile(start, maxPacket, w.offset, sent, o);
      assert Blocked(maxPacket, w2, sent, o, len) by {
        hide Tiled, Apart;
      }
    }
    hide Tiled, Apart, Received, Flushed;
    FlushBlocked(start, maxPacket, w2, sent, o, len, writer);
  }

  /** One result keeps the shape, and a short reply once accepted blocks what follows it. */
  lemma ShapeReceive(start: nat, maxPacket: nat, w: Window, sent: set<nat>, res: Reply, writer: Writer, o: nat,
                     len: nat)
    requires Shape(start, maxPacket, w, sent) && w.inFlight > 0 && TakesAll(writer)
    requires res.Data? ==> 0 < |res.data| <= maxPacket
    ensures
      var w' := Received(w, res, writer).w;
      && Shape(start, maxPacket, w', sent)
      && (Blocked(maxPacket, w, sent, o, len) ==> Blocked(maxPacket, w', sent, o, len))
      && (res.Data? && res.id in w.reqs && w.reqs[res.id] == o && |res.data| == len < maxPacket ==>
            Blocked(maxPacket, w', sent, o, len))
  {
    if res.Data? && res.id in w.reqs {
      if w.reqs[res.id] == w.writeOffset {
        hide Shape, Received;
        WriteShape(start, maxPacket, w, sent, res.id, res.data, writer, o, len);
      } else {
        ParkShape(start, maxPacket, w, sent, res.id, res.data);
        hide Tiled, Apart;
      }
    } else {
      LostShape(start, maxPacket, w, sent, if res.Data? then Failed(0) else res.err, if res.Lost? then 0 else res.id);
      LostShape(start, maxPacket, w, sent, Failed(0), 0);
      hide Shape;
    }
  }

  /** A turn of a call against such a server. */
  lemma ShapeTurn(c: Call, n: nat, sent: set<nat>, o: nat, len: nat) returns (sent': set<nat>)
    requires c.maxPacket >= 1 && SendsPieces(c.server, c.maxPacket) && TakesAll(c.writer)
    requires Shape(c.start, c.maxPacket, Turns(c, n).0, sent)
    ensures
      var w := Ready(c, Turns(c, n).0, Turns(c, n).1).0;
      && Shape(c.start, c.maxPacket, w, sent') && Shape(c.start, c.maxPacket, Turns(c, n + 1).0, sent')
      && (Blocked(c.maxPacket, Turns(c, n).0, sent, o, len) ==> Blocked(c.maxPacket, Turns(c, n + 1).0, sent', o, len))
      && (w.inFlight > 0 ==>
            var res := c.server(n, w.reqs);
            res.Data? && res.id in w.reqs && w.reqs[res.id] == o && |res.data| == len < c.maxPacket ==>
              Blocked(c.maxPacket, Turns(c, n + 1).0, sent', o, len))
  {
    hide Shape, Filled, Received, TakesAll, Grown;
    var (w0, d0) := Turns(c, n);
    var w := Ready(c, w0, d0).0;
    sent' := sent;
    if w0.firstErr.err == Ok {
      sent' := ShapeFill(c.start, c.maxPacket, w0, sent, d0, c.fileSize);
    }
    if w.inFlight > 0 {
      ShapeReceive(c.start, c.maxPacket, w, sent', c.server(n, w.reqs), c.writer, o, len);
    } else {
      FilledSome(w0, d0, c.fileSize, c.maxPacket);
      sent' := sent;
    }
  }

  /** Read-ahead after which nothing is in flight has sent nothing. */
  lemma {:induction false} FilledSome(w: Window, desired: nat, fileSize: nat, maxPacket: nat)
    ensures
      var w' := Filled(w, desired, fileSize, maxPacket).0;
      w'.inFlight >= w.inFlight && (w'.inFlight == w.inFlight ==> w' == w)
    decreases desired - w.inFlight - |w.pending|
  {
    if w.inFlight + |w.pending| < desired {
      var w' := Send(w, maxPacket);
      FilledSome(w', if w'.offset > fileSize then 1 else desired, fileSize, maxPacket);
    }
  }

  lemma {:induction false} ShapeTurns(c: Call, n: nat) returns (sent: set<nat>)
    requires c.maxPacket >= 1 && SendsPieces(c.server, c.maxPacket) && TakesAll(c.writer)
    ensures Shape(c.start, c.maxPacket, Turns(c, n).0, sent)
  {
    if n == 0 {
      sent := {};
    } else {
      hide Shape, Turns;
      sent := ShapeTurns(c, n - 1);
      sent := ShapeTurn(c, n - 1, sent, 0, 0);
    }
  }

  lemma {:induction false} BlockedTurns(c: Call, n: nat, sent: set<nat>, m: nat, o: nat,
                                        len: nat) returns (sent': set<nat>)
    requires c.maxPacket >= 1 && SendsPieces(c.server, c.maxPacket) && TakesAll(c.writer) && n <= m
    requires Shape(c.start, c.maxPacket, Turns(c, n).0, sent) && Blocked(c.maxPacket, Turns(c, n).0, sent, o, len)
    ensures Shape(c.start, c.maxPacket, Turns(c, m).0, sent') && Blocked(c.maxPacket, Turns(c, m).0, sent', o, len)
    decreases m - n
  {
    hide Shape, Turns, Blocked;
    sent' := sent;
    if n < m {
      sent' := ShapeTurn(c, n, sent, o, len);
      sent' := BlockedTurns(c, n + 1, sent', m, o, len);
    }
  }

  /**
    A short reply stops the call there: whenever the server answers the request for offset o with fewer bytes than a
    packet, be it at the write position or early, then, whatever it answers before and after, the call never writes
    past the end of that reply.
   */
  lemma ShortReplyStops(c: Call, n: nat, m: nat)
    requires c.maxPacket >= 1 && SendsPieces(c.server, c.maxPacket) && TakesAll(c.writer) && n < m
    ensures
      var w := Ready(c, Turns(c, n).0, Turns(c, n).1).0;
      var res := c.server(n, w.reqs);
      w.inFlight > 0 && res.Data? && res.id in w.reqs && |res.data| < c.maxPacket ==>
        |Turns(c, m).0.sink| <= w.reqs[res.id] + |res.data| - c.start
  {
    hide Turns, Ready, Shape, Blocked;
    var sent := ShapeTurns(c, n);
    var w := Ready(c, Turns(c, n).0, Turns(c, n).1).0;
    var res := c.server(n, w.reqs);
    if w.inFlight > 0 && res.Data? && res.id in w.reqs && |res.data| < c.maxPacket {
      var o, len := w.reqs[res.id], |res.data|;
      sent := ShapeTurn(c, n, sent, o, len);
      sent := BlockedTurns(c, n + 1, sent, m, o, len);
      BlockedSink(c.start, c.maxPacket, Turns(c, m).0, sent, o, len);
    }
  }

  lemma BlockedSink(start: nat, maxPacket: nat, w: Window, sent: set<nat>, o: nat, len: nat)
    requires Shape(start, maxPacket, w, sent) && Blocked(maxPacket, w, sent, o, len)
    ensures |w.sink| <= o + len - start
  {
  }

  // ---- a server that clamps its replies -------------------------------------------------------

  /** A server that never sends more than `limit` bytes, but otherwise answers every request honestly. */
  ghost predicate Clamps(server: Server, file: seq<byte>, maxPacket: nat, limit: nat) {
    forall t, reqs | reqs != map[] ::
      var x := server(t, reqs);
      !x.Lost? && x.id in reqs && x == HonestAnswer(file, Min(maxPacket, limit), reqs, x.id)
  }

  lemma ClampingServerExists(file: seq<byte>, maxPacket: nat, limit: nat) returns (server: Server)
    ensures Clamps(server, file, maxPacket, limit)
  {
    server := (_, reqs) => InOrderServer(file, Min(maxPacket, limit), reqs);
  }

  /** Packets within the limit, or a tail that fits into one. */
  predicate Fits(file: seq<byte>, start: nat, maxPacket: nat, limit: nat) {
    maxPacket <= limit || |file| - start <= limit
  }

  lemma FirstClamped(server: Server, file: seq<byte>, start: nat, maxPacket: nat, limit: nat)
    requires Clamps(server, file, maxPacket, limit) && start < |file|
    ensures server(0, map[1 := start]) == Data(1, Chunk(file, start, Min(maxPacket, limit)))
  {
    var reqs := map[1 := start];
    assert 1 in reqs;
    assert server(0, reqs).id in reqs;
  }

  /** Such a server keeps the contract that WriteTo relies on exactly when the packets or the tail are small enough. */
  lemma ClampedContractExactly(server: Server, file: seq<byte>, start: nat, maxPacket: nat, limit: nat)
    requires Clamps(server, file, maxPacket, limit)
    ensures KeepsContract(server, file, start, maxPacket) <==> Fits(file, start, maxPacket, limit)
  {
    if Fits(file, start, maxPacket, limit) {
      forall t, reqs | Outstanding(start, reqs) ensures Answers(file, maxPacket, reqs, server(t, reqs)) {
      }
    } else {
      FirstClamped(server, file, start, maxPacket, limit);
      assert 1 in map[1 := start] && Outstanding(start, map[1 := start]);
      assert |Chunk(file, start, limit)| == limit < |Chunk(file, start, maxPacket)|;
      assert !Answers(file, maxPacket, map[1 := start], server(0, map[1 := start]));
    }
  }

  /** The window after the first, clamped reply has been written. */
  function AfterClamped(c: Call, limit: nat): Window
    requires c.start <= |c.file|
  {
    Window(0, c.start + c.maxPacket, c.start + limit, 2, map[], map[], OffsetErr(0, Ok), Chunk(c.file, c.start, limit))
  }

  /** A call whose packets and tail exceed the limit of the server. */
  ghost predicate Clamped(c: Call, limit: nat) {
    && Clamps(c.server, c.file, c.maxPacket, limit) && TakesAll(c.writer) && limit >= 1
    && !Fits(c.file, c.start, c.maxPacket, limit)
  }

  lemma ClampedFirst(c: Call, limit: nat)
    requires Clamped(c, limit)
    ensures Turns(c, 1).0 == AfterClamped(c, limit) && Stranded(AfterClamped(c, limit))
    ensures Turns(c, 1).1 == if c.start + c.maxPacket <= c.fileSize && c.max >= 2 then 2 else 1
  {
    var w, data := Send(Opening(c.start), c.maxPacket), Chunk(c.file, c.start, limit);
    assert |data| == limit;
    FillOne(Opening(c.start), c.fileSize, c.maxPacket);
    assert w.reqs == map[1 := c.start];
    FirstClamped(c.server, c.file, c.start, c.maxPacket, limit);
    assert [] + data == data && w.reqs - {1} == map[];
    NothingToFlush(Wrote(Take(w, 1), data), c.writer);
    assert Turns(c, 0) == (Opening(c.start), 1);
  }

  /** Then nothing else is written, however long the call goes on. */
  lemma ClampedCutsOff(c: Call, limit: nat, n: nat)
    requires Clamped(c, limit) && n >= 1
    ensures Turns(c, n).0.sink == Chunk(c.file, c.start, limit) != From(c.file, c.start)
  {
    assert |Chunk(c.file, c.start, limit)| == limit < |From(c.file, c.start)|;
    ClampedFirst(c, limit);
    hide Turns, Clamped, Stranded;
    StrandedForever(c, 1, n);
  }

  /** The call has ended after n turns with a nil error: the recorded error is EOF and nothing is in flight. */
  predicate ReturnsNil(c: Call, n: nat) {
    Turns(c, n).0.firstErr.err == Eof && Turns(c, n).0.inFlight == 0
  }

  /** The call has ended after n turns with ErrInternalInconsistency. */
  predicate ReturnsInconsistent(c: Call, n: nat) {
    && Turns(c, n).0.firstErr.err == Ok
    && var w := Ready(c, Turns(c, n).0, Turns(c, n).1).0; w.inFlight == 0 && w.pending != map[]
  }

  /** After the first reply the window opens to two requests. */
  predicate TwoAtOnce(c: Call) {
    c.max >= 2 && c.start + 2 * c.maxPacket <= c.fileSize
  }

  /** One of the requests that follow the first reply lies at or past the end of the file. */
  predicate SeesEnd(c: Call) {
    c.start + c.maxPacket >= |c.file| || (TwoAtOnce(c) && c.start + 2 * c.maxPacket >= |c.file|)
  }

  /** An honest reply to a stranded window: EOF past the end of the file, and otherwise data that is parked. */
  lemma HonestTurn(file: seq<byte>, packet: nat, w: Window, k: nat, writer: Writer)
    requires Stranded(w) && w.inFlight > 0 && k in w.reqs && !w.firstErr.err.Failed?
    ensures
      var t := Received(w, HonestAnswer(file, packet, w.reqs, k), writer);
      && !t.wrote && Stranded(t.w) && t.w.reqs == w.reqs - {k}
      && t.w.inFlight == w.inFlight - 1 && !t.w.firstErr.err.Failed?
      && (w.reqs[k] >= |file| ==> t.w.firstErr.err == Eof && t.w.pending == w.pending)
      && (w.reqs[k] < |file| ==> t.w.firstErr == w.firstErr && t.w.pending.Keys == w.pending.Keys + {w.reqs[k]})
  {
  }

  lemma ClampedTurn(c: Call, limit: nat, n: nat)
    requires Clamped(c, limit) && Stranded(Ready(c, Turns(c, n).0, Turns(c, n).1).0)
    requires
      var w := Ready(c, Turns(c, n).0, Turns(c, n).1).0;
      w.inFlight > 0 && w.reqs != map[] && !w.firstErr.err.Failed?
    ensures
      var (w, d) := Ready(c, Turns(c, n).0, Turns(c, n).1);
      var (w', d') := Turns(c, n + 1);
      exists k :: k in w.reqs && d' == d && ClampedStep(c.file, w, k, w')
  {
    var (w, d) := Ready(c, Turns(c, n).0, Turns(c, n).1);
    var x := c.server(n, w.reqs);
    assert !x.Lost? && x.id in w.reqs && x == HonestAnswer(c.file, Min(c.maxPacket, limit), w.reqs, x.id);
    HonestTurn(c.file, Min(c.maxPacket, limit), w, x.id, c.writer);
    hide Received, Ready, HonestAnswer, Stranded;
    assert ClampedStep(c.file, w, x.id, Turns(c, n + 1).0);
  }

  /** Request k has been answered honestly while the window is stranded. */
  ghost predicate ClampedStep(file: seq<byte>, w: Window, k: nat, w': Window)
    requires k in w.reqs
  {
    && Stranded(w') && w'.reqs == w.reqs - {k} && w'.inFlight == w.inFlight - 1 && !w'.firstErr.err.Failed?
    && (w.reqs[k] >= |file| ==> w'.firstErr.err == Eof && w'.pending == w.pending)
    && (w.reqs[k] < |file| ==> w'.firstErr == w.firstErr && w'.pending.Keys == w.pending.Keys + {w.reqs[k]})
  }

  lemma FillShrinks(w: Window, fileSize: nat, maxPacket: nat)
    requires w.inFlight == 0 && w.pending == map[] && w.offset + maxPacket > fileSize
    ensures Filled(w, 2, fileSize, maxPacket) == (Send(w, maxPacket), 1)
  {
    var w1 := Send(w, maxPacket);
    assert Filled(w, 2, fileSize, maxPacket) == Filled(w1, 1, fileSize, maxPacket);
    assert Filled(w1, 1, fileSize, maxPacket) == (w1, 1);
  }

  /** The window after the first reply, filled again. */
  ghost predicate Refilled(c: Call, w: Window, d: nat) {
    var a := c.start + c.maxPacket;
    && Stranded(w) && w.pending == map[] && w.firstErr.err == Ok && d <= 2
    && if TwoAtOnce(c) then w.inFlight == 2 && w.reqs == map[2 := a, 3 := a + c.maxPacket]
       else w.inFlight == 1 && w.reqs == map[2 := a] && d == 1
  }

  lemma RefilledTwo(c: Call, writeOffset: nat, sink: seq<byte>, d: nat)
    requires TwoAtOnce(c) && writeOffset < c.start + c.maxPacket && d <= 2
    ensures Refilled(c, Both(c.start + c.maxPacket, writeOffset, c.maxPacket, sink), d)
  {
    StrandedBoth(c.start + c.maxPacket, writeOffset, c.maxPacket, sink);
    hide Stranded;
  }

  lemma RefilledOne(c: Call, w: Window)
    requires !TwoAtOnce(c) && w.inFlight == 0 && w.offset == c.start + c.maxPacket && w.nextId == 2
    requires w.reqs == map[] && w.pending == map[] && w.firstErr.err == Ok && w.writeOffset < w.offset
    ensures Refilled(c, Send(w, c.maxPacket), 1)
  {
    assert Send(w, c.maxPacket).reqs == map[2 := w.offset];
  }

  /** What the read-ahead makes of a window with nothing in flight, for both sizes. */
  lemma RefilledFrom(c: Call, w: Window, d: nat)
    requires w == Window(0, c.start + c.maxPacket, w.writeOffset, 2, map[], map[], OffsetErr(0, Ok), w.sink)
    requires w.writeOffset < w.offset && d == if w.offset <= c.fileSize && c.max >= 2 then 2 else 1
    ensures var (w', d') := Filled(w, d, c.fileSize, c.maxPacket); Refilled(c, w', d')
  {
    hide Filled, Refilled, Both, Send;
    if TwoAtOnce(c) {
      FillTwo(w.offset, w.writeOffset, c.fileSize, c.maxPacket, w.sink);
      RefilledTwo(c, w.writeOffset, w.sink, Filled(w, 2, c.fileSize, c.maxPacket).1);
    } else {
      RefilledOne(c, w);
      if d == 2 {
        FillShrinks(w, c.fileSize, c.maxPacket);
      } else {
        FillOne(w, c.fileSize, c.maxPacket);
      }
    }
  }

  lemma ClampedFill(c: Call, limit: nat)
    requires Clamped(c, limit)
    ensures var (w, d) := Ready(c, Turns(c, 1).0, Turns(c, 1).1); Refilled(c, w, d)
  {
    ClampedFirst(c, limit);
    assert 0 < limit < c.maxPacket;
    hide Turns, Clamped, Chunk, Filled, Refilled, Stranded;
    RefilledFrom(c, Turns(c, 1).0, Turns(c, 1).1);
  }

  lemma StrandedBoth(a: nat, writeOffset: nat, maxPacket: nat, sink: seq<byte>)
    requires writeOffset < a
    ensures Stranded(Both(a, writeOffset, maxPacket, sink))
  {
  }

  lemma ClampedOne(c: Call, limit: nat)
    requires Clamped(c, limit) && !TwoAtOnce(c)
    ensures if SeesEnd(c) then ReturnsNil(c, 2) else ReturnsInconsistent(c, 2)
  {
    ClampedFill(c, limit);
    var (w, d) := Ready(c, Turns(c, 1).0, Turns(c, 1).1);
    hide Clamped, Turns;
    assert 2 in w.reqs;
    ClampedTurn(c, limit, 1);
    var w', d' := Turns(c, 2).0, Turns(c, 2).1;
    var k :| k in w.reqs && d' == d && ClampedStep(c.file, w, k, w');
    assert k == 2;
    if w.reqs[k] < |c.file| {
      assert w.reqs[k] in w'.pending;
      FillNone(w', d', c.fileSize, c.maxPacket);
    }
  }

  /** Of the two requests one has been answered, and nothing is sent before the other one is. */
  ghost predicate HalfWay(c: Call, k: nat, w: Window, d: nat) {
    var a := c.start + c.maxPacket;
    var o, o' := if k == 2 then a else a + c.maxPacket, if k == 2 then a + c.maxPacket else a;
    && (k == 2 || k == 3) && Stranded(w) && w.inFlight == 1 && w.reqs == map[5 - k := o'] && d <= 2
    && (if o < |c.file| then w.firstErr.err == Ok && w.pending.Keys == {o}
        else w.firstErr.err == Eof && w.pending == map[])
  }

  lemma HalfWayAfter(c: Call, w: Window, d: nat, k: nat, w': Window)
    requires Refilled(c, w, d) && TwoAtOnce(c) && k in w.reqs && ClampedStep(c.file, w, k, w')
    ensures HalfWay(c, k, w', d)
  {
    assert k == 2 || k == 3;
    assert w.reqs - {k} == map[5 - k := w.reqs[5 - k]];
    hide Stranded, TwoAtOnce;
  }

  lemma ClampedTwoFirst(c: Call, limit: nat) returns (k: nat)
    requires Clamped(c, limit) && TwoAtOnce(c)
    ensures HalfWay(c, k, Turns(c, 2).0, Turns(c, 2).1)
  {
    ClampedFill(c, limit);
    var (w, d) := Ready(c, Turns(c, 1).0, Turns(c, 1).1);
    assert 2 in w.reqs;
    hide Clamped, Turns, Ready, Stranded, HalfWay;
    ClampedTurn(c, limit, 1);
    hide ClampedStep, Refilled;
    var w', d' := Turns(c, 2).0, Turns(c, 2).1;
    k :| k in w.reqs && d' == d && ClampedStep(c.file, w, k, w');
    HalfWayAfter(c, w, d, k, w');
  }

  lemma HalfWayWaits(c: Call, k: nat, w: Window, d: nat)
    requires HalfWay(c, k, w, d)
    ensures Ready(c, w, d) == (w, d)
  {
    hide Stranded;
    if w.firstErr.err == Ok {
      KeysCount(w.pending, w.pending.Keys);
      FillNone(w, d, c.fileSize, c.maxPacket);
    }
  }

  lemma ClampedTwo(c: Call, limit: nat)
    requires Clamped(c, limit) && TwoAtOnce(c)
    ensures if SeesEnd(c) then ReturnsNil(c, 3) else ReturnsInconsistent(c, 3)
  {
    assert c.maxPacket >= 1;
    var k := ClampedTwoFirst(c, limit);
    var w, d := Turns(c, 2).0, Turns(c, 2).1;
    assert 5 - k in w.reqs && w.inFlight > 0 && Stranded(w) && !w.firstErr.err.Failed?;
    hide Clamped, Turns, Ready, Stranded, HalfWay;
    HalfWayWaits(c, k, w, d);
    ClampedTurn(c, limit, 2);
    hide ClampedStep, SeesEnd;
    var w', d' := Turns(c, 3).0, Turns(c, 3).1;
    var i :| i in w.reqs && d' == d && ClampedStep(c.file, w, i, w');
    BothAnswered(c, k, w, d, i, w');
    if !SeesEnd(c) {
      BothParked(c, w', d');
    }
  }

  lemma BothAnswered(c: Call, k: nat, w: Window, d: nat, i: nat, w': Window)
    requires HalfWay(c, k, w, d) && TwoAtOnce(c) && c.maxPacket >= 1 && i in w.reqs && ClampedStep(c.file, w, i, w')
    ensures w'.inFlight == 0
    ensures if SeesEnd(c) then w'.firstErr.err == Eof else w'.firstErr.err == Ok && |w'.pending| == 2
    ensures d <= 2
  {
    hide Stranded;
    assert i == 5 - k;
    var a := c.start + c.maxPacket;
    if !SeesEnd(c) {
      assert w'.pending.Keys == {a, a + c.maxPacket};
      KeysCount(w'.pending, {a, a + c.maxPacket});
    }
  }

  lemma BothParked(c: Call, w: Window, d: nat)
    requires w.firstErr.err == Ok && w.inFlight == 0 && |w.pending| == 2 >= d
    ensures Ready(c, w, d).0 == w && w.pending != map[]
  {
    FillNone(w, d, c.fileSize, c.maxPacket);
  }

  lemma KeysCount(m: map<nat, seq<byte>>, keys: set<nat>)
    requires m.Keys == keys
    ensures |m| == |keys|
  {
  }

  /**
    What the call that was cut off returns: nil when one of the requests after the first reply sees the end of the
    file, and ErrInternalInconsistency otherwise.
   */
  lemma ClampedReturns(c: Call, limit: nat) returns (n: nat)
    requires Clamped(c, limit)
    ensures n >= 1 && if SeesEnd(c) then ReturnsNil(c, n) else ReturnsInconsistent(c, n)
  {
    if TwoAtOnce(c) {
      ClampedTwo(c, limit);
      n := 3;
    } else {
      ClampedOne(c, limit);
      n := 2;
    }
  }

  /** A call that has ended stays as it is. */
  lemma {:induction false} EndedStays(c: Call, n: nat, m: nat)
    requires n <= m && Ready(c, Turns(c, n).0, Turns(c, n).1).0.inFlight == 0
    ensures Turns(c, m) == Turns(c, n)
  {
    hide Ready;
    if n < m {
      EndedStays(c, n, m - 1);
    }
  }

  /** So it returns nil, with a short file, exactly when the requests after the first reply see the end of the file. */
  lemma ClampedNilExactly(c: Call, limit: nat)
    requires Clamped(c, limit)
    ensures (exists n :: ReturnsNil(c, n)) <==> SeesEnd(c)
    ensures (exists n :: ReturnsInconsistent(c, n)) <==> !SeesEnd(c)
  {
    var n := ClampedReturns(c, limit);
    hide Clamped, SeesEnd, Turns;
    forall m
      ensures !(ReturnsNil(c, m) && ReturnsInconsistent(c, n)) && !(ReturnsNil(c, n) && ReturnsInconsistent(c, m))
    {
      if ReturnsNil(c, m) || ReturnsInconsistent(c, m) {
        EndedStays(c, if m < n then m else n, if m < n then n else m);
      }
    }
  }

  /** Without the server's contract the internal-inconsistency exit is reachable, for every such call. */
  lemma InconsistencyReachable(file: seq<byte>, start: nat, fileSize: nat, maxPacket: nat, max: nat, limit: nat)
    returns (c: Call, n: nat)
    requires limit >= 1 && !Fits(file, start, maxPacket, limit)
    requires start + (if max >= 2 && start + 2 * maxPacket <= fileSize then 2 else 1) * maxPacket < |file|
    ensures c.file == file && c.start == start && c.fileSize == fileSize && c.maxPacket == maxPacket && c.max == max
    ensures Clamped(c, limit) && ReturnsInconsistent(c, n)
  {
    var server := ClampingServerExists(file, maxPacket, limit);
    c := Call(file, start, fileSize, maxPacket, max, server, (_, data) => (|data|, Ok));
    assert Clamped(c, limit) && !SeesEnd(c);
    hide Clamped, SeesEnd, ReturnsInconsistent, ReturnsNil;
    n := ClampedReturns(c, limit);
  }

  /** Without a lost result, the requests in flight are those in the map. */
  lemma SomethingAsked(file: seq<byte>, start: nat, maxPacket: nat, w: Window, r: Record)
    requires Inv(file, start, maxPacket, w, r) && w.inFlight > 0 && r.clean
    ensures w.reqs != map[]
  {
    hide Tiled, Asked, Parked, Covered, AtTile, InOrder;
  }

  /** What a good server and a good writer cannot cause. */
  ghost predicate Tidy(c: Call, r: Record) {
    && (Reliable(c.server) ==> r.clean)
    && (TakesAll(c.writer) ==> !r.failed)
    && (NoFalseEof(c.server, c.writer) ==> !r.foreignEof)
  }

  /** Ask for more while the window has room; past the expected end of the file it shrinks to one request. */
  method FillWindow(c: Call, w0: Window, ghost r0: Record, desired: nat)
    returns (w: Window, ghost r: Record, desiredInFlight: nat)
    requires c.maxPacket >= 1 && desired >= 1
    requires Inv(c.file, c.start, c.maxPacket, w0, r0) && w0.writeOffset !in w0.pending && w0.firstErr.err == Ok
    ensures Inv(c.file, c.start, c.maxPacket, w, r) && w.writeOffset == w0.writeOffset && w.pending == w0.pending
    ensures w.firstErr == w0.firstErr && w.sink == w0.sink && r == r0.(sent := r.sent, asked := r.asked)
    ensures 1 <= desiredInFlight <= desired && w.inFlight + |w.pending| >= desiredInFlight
    ensures w.inFlight <= Max(w0.inFlight, desired)
    ensures Fills(c, w0, desired, w, desiredInFlight)
  {
    hide Inv, NarrowIn, Parks;
    w, r, desiredInFlight := w0, r0, desired;
    while w.inFlight + |w.pending| < desiredInFlight
      invariant Inv(c.file, c.start, c.maxPacket, w, r) && w.writeOffset == w0.writeOffset && w.pending == w0.pending
      invariant w.firstErr == w0.firstErr && w.sink == w0.sink && r == r0.(sent := r.sent, asked := r.asked)
      invariant 1 <= desiredInFlight <= desired && w.inFlight <= Max(w0.inFlight, desired)
      invariant Filled(w, desiredInFlight, c.fileSize, c.maxPacket) == Filled(w0, desired, c.fileSize, c.maxPacket)
      invariant !Parks(c) && NarrowIn(c, w0, desired) ==> NarrowIn(c, w, desiredInFlight)
      decreases desiredInFlight - w.inFlight
    {
      SendStep(c.file, c.start, c.maxPacket, w, r);
      if !Parks(c) && NarrowIn(c, w, desiredInFlight) {
        NarrowSend(c, w, r, desiredInFlight);
      }
      w, r := Send(w, c.maxPacket), SendRecord(w, r);
      if w.offset > c.fileSize {
        desiredInFlight := 1;
      }
    }
  }

  lemma TidyFilled(c: Call, r0: Record, r: Record)
    requires Tidy(c, r0) && r == r0.(sent := r.sent, asked := r.asked)
    ensures Tidy(c, r)
  {
  }

  lemma ToldFilled(c: Call, turn: nat, w: Window, r0: Record, r: Record, copied: nat)
    requires Told(c, turn, w, r0, copied) && r == r0.(sent := r.sent, asked := r.asked)
    ensures Told(c, turn, w, r, copied)
  {
  }

  /** One turn of the loop after the window has been filled. */
  method TakeTurn(c: Call, turn: nat, w0: Window, ghost r0: Record)
    returns (w: Window, ghost r: Record, n: nat, ghost flushed: nat, wrote: bool)
    requires c.maxPacket >= 1 && KeepsContract(c.server, c.file, c.start, c.maxPacket) && Tidy(c, r0)
    requires Inv(c.file, c.start, c.maxPacket, w0, r0) && w0.writeOffset !in w0.pending && w0.inFlight > 0
    ensures Inv(c.file, c.start, c.maxPacket, w, r) && w.writeOffset !in w.pending && w.inFlight == w0.inFlight - 1
    ensures |w.sink| == |w0.sink| + n + flushed
    ensures Turn(w, n, wrote) == Received(w0, c.server(turn, w0.reqs), c.writer)
    ensures w.firstErr.err == Ok ==> w0.firstErr.err == Ok
    ensures
      || Unanswered(c.file, r.answered) < Unanswered(c.file, r0.answered)
      || (r.answered == r0.answered && w.firstErr.err != Ok)
    ensures Tidy(c, r) && Recorded(w0, c.server(turn, w0.reqs), c.writer, w)
    ensures Undisturbed(NoteOf(w0, c.server(turn, w0.reqs), c.writer), r0, r)
    ensures n == Direct(w0, c.server(turn, w0.reqs), c.writer)
  {
    hide Inv, Holds, Chunk, Unanswered, Received, Recorded, NoteOf, Undisturbed, Direct;
    var res := c.server(turn, w0.reqs);
    AllOutstanding(c.file, c.start, c.maxPacket, w0, r0);
    assert Answers(c.file, c.maxPacket, w0.reqs, res);
    if r0.clean {
      SomethingAsked(c.file, c.start, c.maxPacket, w0, r0);
    }
    DirectCounts(w0, res, c.writer);
    w, r, n, flushed, wrote := Receive(c.file, c.start, c.maxPacket, w0, r0, res, c.writer);
  }

  /** What the caller sees, by what was recorded. */
  lemma EndsWell(c: Call, w: Window, r: Record)
    requires Inv(c.file, c.start, c.maxPacket, w, r) && w.writeOffset !in w.pending && w.inFlight == 0
    requires w.firstErr.err != Ok
    requires Tidy(c, r)
    ensures w.sink <= From(c.file, c.start)
    ensures !w.firstErr.err.Failed? && (NoFalseEof(c.server, c.writer) || c.start >= |c.file|) ==>
              w.sink == From(c.file, c.start) && w.pending == map[]
    ensures Reliable(c.server) && TakesAll(c.writer) ==>
              !w.firstErr.err.Failed? && w.sink == From(c.file, c.start) && w.pending == map[]
  {
    hide Inv, From, NoFalseEof, Reliable, TakesAll;
    Ended(c.file, c.start, c.maxPacket, w, r);
    if w.firstErr.err == Eof && !r.foreignEof {
      Finished(c.file, c.start, c.maxPacket, w, r);
    }
    if c.start >= |c.file| {
      PastEnd(c.file, c.start, c.maxPacket, w, r);
    }
  }

  /**
    The call. `fileSize` is whatever size the server reported, `maxPacket` and `maxConcurrentRequests` are the
    client's settings. `sink` is what the writer took, `flushed` how much of it came from parked replies, `peak`
    the largest number of requests in flight at once; `inconsistent` stands for ErrInternalInconsistency.
   */
  method WriteTo(file: seq<byte>, start: nat, fileSize: nat, maxPacket: nat, maxConcurrentRequests: nat, server: Server,
                 writer: Writer)
    returns (copied: nat, err: Error, sink: seq<byte>, inconsistent: bool, parked: nat, ghost flushed: nat,
             ghost peak: nat)
    requires maxPacket >= 1 && maxConcurrentRequests >= 1 && KeepsContract(server, file, start, maxPacket)
    ensures sink <= From(file, start)
    ensures !inconsistent
    ensures err == Ok && (NoFalseEof(server, writer) || start >= |file|) ==> sink == From(file, start) && parked == 0
    ensures DropsFirst(server, start) ==> err == Ok && sink == []
    ensures Reliable(server) && RefusesFirst(writer, file, start, maxPacket) ==> err == Ok && sink == []
    ensures Reliable(server) && TakesAll(writer) ==> err == Ok && sink == From(file, start) && parked == 0
    ensures copied + flushed == |sink|
    ensures
      var c := Call(file, start, fileSize, maxPacket, maxConcurrentRequests, server, writer);
      exists n :: Returns(c, n, copied, sink, err)
    ensures !CanPark(file, start, fileSize, maxPacket, maxConcurrentRequests) ==> copied == |sink|
    ensures
      (&& CanPark(file, start, fileSize, maxPacket, maxConcurrentRequests)
       && NewestFirst(server, file, maxPacket) && TakesAll(writer)) ==> copied < |sink|
    ensures peak <= maxConcurrentRequests
  {
    hide Inv, Holds, Chunk, Unanswered, From, Received, Outcome, Fills, Turns, Told, Recorded, Returns, Undisturbed,
         NoteOf, Direct;
    var c := Call(file, start, fileSize, maxPacket, maxConcurrentRequests, server, writer);
    var w := Opening(start);
    ghost var r := Record({}, {}, {}, {}, false, [], false, false, true);
    var desiredInFlight, turn := 1, 0;
    copied, inconsistent, flushed, peak := 0, false, 0, 0;
    Initially(file, start, maxPacket);
    OutcomeAtFirst(c);
    ToldAtFirst(c);
    assert Tidy(c, r);
    hide Tidy, KeepsContract, Ends;
    while w.firstErr.err == Ok || w.inFlight > 0
      invariant Inv(file, start, maxPacket, w, r) && w.writeOffset !in w.pending
      invariant 1 <= desiredInFlight <= maxConcurrentRequests && w.inFlight <= peak <= maxConcurrentRequests
      invariant copied + flushed == |w.sink| && Tidy(c, r)
      invariant Outcome(c, turn, w, desiredInFlight, copied) && Told(c, turn, w, r, copied)
      decreases w.firstErr.err == Ok, Unanswered(file, r.answered), w.inFlight
    {
      ghost var w0, r0, d0 := w, r, desiredInFlight;
      if w.firstErr.err == Ok {
        w, r, desiredInFlight := FillWindow(c, w, r, desiredInFlight);
        peak := Max(peak, w.inFlight);
        TidyFilled(c, r0, r);
        ToldFilled(c, turn, w0, r0, r, copied);
      } else {
        FillsNothing(c, w, desiredInFlight);
      }
      if w.inFlight == 0 {
        NeverInconsistent(file, start, maxPacket, w, r);
        if w.firstErr.err == Ok && |w.pending| > 0 {
          inconsistent := true;
        }
        break;
      }
      OutcomeTurn(c, turn, w0, d0, copied, w, r, desiredInFlight);
      OutcomeTurns(c, turn, w0, d0, copied);
      ghost var filled, known := w, r;
      var n, wrote;
      ghost var more;
      w, r, n, more, wrote := TakeTurn(c, turn, w, r);
      ToldTurn(c, turn, w0, d0, copied, filled, known, desiredInFlight, w, r);
      turn, copied, flushed := turn + 1, copied + n, flushed + more;
      desiredInFlight := Grown(Turn(w, n, wrote), desiredInFlight, fileSize, maxConcurrentRequests);
    }
    FillsNothing(c, w, desiredInFlight);
    OutcomeAtEnd(c, turn, w, desiredInFlight, copied, w, desiredInFlight);
    EndsWell(c, w, r);
    EndsMeans(c, w, copied);
    OutcomeTurns(c, turn, w, desiredInFlight, copied);
    Reports(c, turn, w, r, desiredInFlight, copied);
    err, sink, parked := if w.firstErr.err == Eof then Ok else w.firstErr.err, w.sink, |w.pending|;
  }
}
