/**
  File.ReadAt: one read cut into packets, kept in flight in a growing window,
  and reassembled from replies that arrive in any order and any size.
 */
module ClientReadAt {
  import opened Prelude
  import opened Results

  /** One entry of the `reqs` map: the part b[lo..hi] of the caller's buffer and the file offset asked for. */
  datatype InflightRead = InflightRead(lo: nat, hi: nat, offset: nat)

  /**
    The server's side of the protocol: data is a non-empty, possibly short, piece of the file; EOF only at or past the
    end.
   */
  predicate Answers(file: seq<byte>, reqs: map<nat, InflightRead>, r: Reply) {
    match r
    case Data(id, data) =>
      id in reqs ==>
        var q := reqs[id];
        0 < |data| && q.lo + |data| <= q.hi && q.offset + |data| <= |file| && data == file[q.offset..q.offset + |data|]
    case Status(id, err) => err != Ok && (id in reqs && err == Eof ==> reqs[id].offset >= |file|)
    case Lost(err) => err != Ok
  }

  /**
    A server together with the network in between: what comes out of the result channel at each turn, given the
    requests in flight. Every schedule of replies is one such function.
   */
  type Server = (nat, map<nat, InflightRead>) -> Reply

  ghost predicate KeepsContract(server: Server, file: seq<byte>) {
    forall t, reqs :: Answers(file, reqs, server(t, reqs))
  }

  /** No connection error that looks like the end of the file. */
  ghost predicate NoFalseEof(server: Server) {
    forall t, reqs :: server(t, reqs) != Lost(Eof)
  }

  /** Some request is in flight, and every request is for at least one byte. */
  ghost predicate Waiting(reqs: map<nat, InflightRead>) {
    reqs != map[] && forall k | k in reqs :: reqs[k].lo < reqs[k].hi
  }

  /** Every result is data or EOF for a request in flight. */
  ghost predicate Reliable(server: Server) {
    forall t, reqs | Waiting(reqs) ::
      var x := server(t, reqs);
      !x.Lost? && x.id in reqs && (x.Status? ==> x.err == Eof)
  }

  /** One such server: it answers some request with a single byte, or with EOF. */
  ghost function OneByte(file: seq<byte>, reqs: map<nat, InflightRead>): Reply {
    if Waiting(reqs) then
      var k :| k in reqs;
      if reqs[k].offset >= |file| then Status(k, Eof) else Data(k, [file[reqs[k].offset]])
    else Lost(Failed(0))
  }

  lemma ReliableServerExists(file: seq<byte>) returns (server: Server)
    ensures KeepsContract(server, file) && NoFalseEof(server) && Reliable(server)
  {
    server := (_, reqs) => OneByte(file, reqs);
    forall reqs ensures Answers(file, reqs, OneByte(file, reqs)) {
    }
  }

  // ---- where every byte of the buffer stands --------------------------------

  datatype Fate = Unsent | Asked(id: nat) | Got | Dropped

  ghost function Mark(fate: seq<Fate>, lo: nat, hi: nat, f: Fate): (r: seq<Fate>)
    ensures |r| == |fate|
    ensures forall p | 0 <= p < |fate| :: r[p] == if lo <= p < hi then f else fate[p]
  {
    seq(|fate|, p requires 0 <= p < |fate| => if lo <= p < hi then f else fate[p])
  }

  ghost function Having(fate: seq<Fate>, f: Fate): set<int> {
    set p | 0 <= p < |fate| && fate[p] == f
  }

  /** Positions still waiting for an answer; the loop's variant. */
  ghost function Open(fate: seq<Fate>): set<int> {
    set p | 0 <= p < |fate| && (fate[p].Unsent? || fate[p].Asked?)
  }

  lemma MarkedSize(fate: seq<Fate>, lo: nat, hi: nat)
    requires lo <= hi <= |fate|
    requires forall p | lo <= p < hi :: fate[p] != Got
    ensures |Having(Mark(fate, lo, hi, Got), Got)| == |Having(fate, Got)| + (hi - lo)
  {
    assert Having(Mark(fate, lo, hi, Got), Got) == Having(fate, Got) + Range(lo, hi);
  }

  ghost predicate Tracks(off: nat, sent: nat, reqs: map<nat, InflightRead>, fate: seq<Fate>) {
    && sent <= |fate|
    && (forall k | k in reqs :: reqs[k].lo < reqs[k].hi <= sent && reqs[k].offset == off + reqs[k].lo)
    && (forall p | 0 <= p < |fate| :: fate[p].Unsent? <==> p >= sent)
    && (forall p | 0 <= p < |fate| && fate[p].Asked? ::
          fate[p].id in reqs && reqs[fate[p].id].lo <= p < reqs[fate[p].id].hi)
    && (forall k, p | k in reqs && reqs[k].lo <= p < reqs[k].hi :: fate[p] == Asked(k))
  }

  /** Every byte recorded as received is the file's byte, and no other byte of the buffer was touched. */
  ghost predicate Filled(file: seq<byte>, off: nat, was: seq<byte>, now: seq<byte>, fate: seq<Fate>) {
    && |was| == |now| == |fate|
    && (forall p | 0 <= p < |fate| && fate[p].Got? :: off + p < |file| && now[p] == file[off + p])
    && (forall p | 0 <= p < |fate| && !fate[p].Got? :: now[p] == was[p])
  }

  /**
    What the recorded error says about the unanswered bytes, as long as no result
    was lost: the lowest refused offset is remembered, and EOF means it lies past the end.
   */
  ghost predicate ErrorSummary(file: seq<byte>, off: nat, sent: nat, fate: seq<Fate>, firstErr: OffsetErr) {
    && (firstErr.err == Ok ==> forall p | 0 <= p < |fate| :: !fate[p].Dropped?)
    && (firstErr.err != Ok ==>
          && off <= firstErr.offset < off + sent <= off + |fate|
          && fate[firstErr.offset - off].Dropped?
          && (forall p | 0 <= p < |fate| && fate[p].Dropped? :: off + p >= firstErr.offset))
    && (firstErr.err == Eof ==> firstErr.offset >= |file|)
  }

  lemma SendKeeps(off: nat, sent: nat, reqs: map<nat, InflightRead>, fate: seq<Fate>, id: nat, l: nat)
    requires Tracks(off, sent, reqs, fate) && id !in reqs && 0 < l && sent + l <= |fate|
    ensures Tracks(off, sent + l, reqs[id := InflightRead(sent, sent + l, off + sent)],
                   Mark(fate, sent, sent + l, Asked(id)))
  {
  }

  lemma OthersApart(off: nat, sent: nat, reqs: map<nat, InflightRead>, fate: seq<Fate>, id: nat)
    requires Tracks(off, sent, reqs, fate) && id in reqs
    ensures forall k | k in reqs && k != id :: reqs[k].hi <= reqs[id].lo || reqs[id].hi <= reqs[k].lo
  {
    forall k | k in reqs && k != id
      ensures reqs[k].hi <= reqs[id].lo || reqs[id].hi <= reqs[k].lo
    {
      var p := Max(reqs[k].lo, reqs[id].lo);
      assert p < reqs[k].hi ==> fate[p] == Asked(k);
      assert p < reqs[id].hi ==> fate[p] == Asked(id);
    }
  }

  lemma AnswerKeeps(off: nat, sent: nat, reqs: map<nat, InflightRead>, fate: seq<Fate>, id: nat, l: nat, f: Fate)
    requires Tracks(off, sent, reqs, fate) && id in reqs && reqs[id].lo + l == reqs[id].hi && (f.Got? || f.Dropped?)
    ensures Tracks(off, sent, reqs - {id}, Mark(fate, reqs[id].lo, reqs[id].hi, f))
  {
    OthersApart(off, sent, reqs, fate, id);
  }

  lemma ResendKeeps(off: nat, sent: nat, reqs: map<nat, InflightRead>, fate: seq<Fate>, id: nat, l: nat, id': nat)
    requires Tracks(off, sent, reqs, fate) && id in reqs && reqs[id].lo + l < reqs[id].hi && id' !in reqs
    ensures
      var q := reqs[id];
      Tracks(off, sent, (reqs - {id})[id' := InflightRead(q.lo + l, q.hi, q.offset + l)],
             Mark(Mark(fate, q.lo, q.lo + l, Got), q.lo + l, q.hi, Asked(id')))
  {
    OthersApart(off, sent, reqs, fate, id);
  }

  /** When everything in flight has been answered, the received bytes are exactly a prefix of the buffer. */
  lemma SettledPrefix(file: seq<byte>, off: nat, sent: nat, reqs: map<nat, InflightRead>, fate: seq<Fate>,
                      firstErr: OffsetErr, was: seq<byte>, now: seq<byte>)
    requires Tracks(off, sent, reqs, fate) && reqs == map[] && Filled(file, off, was, now, fate)
    requires ErrorSummary(file, off, sent, fate, firstErr)
    requires firstErr.err == Ok ==> sent == |fate|
    requires firstErr.err == Ok || firstErr.err == Eof
    ensures Having(fate, Got) == Range(0, Min(|fate|, |From(file, off)|))
    ensures firstErr.err == Eof ==> 0 < |fate| && off + |fate| > |file|
    ensures firstErr.err == Ok ==> |fate| == 0 || off + |fate| <= |file|
  {
    if firstErr.err == Ok {
      assert forall p | 0 <= p < |fate| :: fate[p].Got?;
      if 0 < |fate| {
        assert fate[|fate| - 1].Got?;
      }
    } else {
      forall p | 0 <= p < |fate| && off + p < |file|
        ensures fate[p].Got?
      {
        assert off + p < firstErr.offset;
      }
    }
  }

  // ---- the variables of the call and what each result does to them ------------

  datatype Window = Window(inFlight: nat, sent: nat, nextId: nat, reqs: map<nat, InflightRead>, firstErr: OffsetErr,
                           read: nat)

  /**
    Ghost record of a run: `lossy` once a result belonged to no request of this call, `clean` while only data and EOF
    came back.
   */
  datatype Record = Record(fate: seq<Fate>, lossy: bool, lostEof: bool, clean: bool)

  ghost predicate Inv(file: seq<byte>, off: nat, was: seq<byte>, now: seq<byte>, w: Window, r: Record) {
    && Tracks(off, w.sent, w.reqs, r.fate)
    && Filled(file, off, was, now, r.fate)
    && Counted(w, r)
    && ErrorKept(file, off, w, r)
  }

  ghost predicate Counted(w: Window, r: Record) {
    && (forall k | k in w.reqs :: k < w.nextId)
    && w.read == |Having(r.fate, Got)|
    && (if r.lossy then w.inFlight <= |w.reqs| else w.inFlight == |w.reqs|)
  }

  ghost predicate ErrorKept(file: seq<byte>, off: nat, w: Window, r: Record) {
    && (r.lossy ==> w.firstErr.err != Ok && (!r.lostEof ==> w.firstErr.offset == 0 && w.firstErr.err.Failed?))
    && (!r.lossy ==> !r.lostEof && ErrorSummary(file, off, w.sent, r.fate, w.firstErr))
    && (r.clean ==> !r.lossy && !w.firstErr.err.Failed?)
  }

  /** sendReq for the next l bytes of the buffer. */
  function Send(w: Window, off: nat, l: nat): Window {
    w.(reqs := w.reqs[w.nextId := InflightRead(w.sent, w.sent + l, off + w.sent)],
       nextId := w.nextId + 1, inFlight := w.inFlight + 1, sent := w.sent + l)
  }

  ghost function SendRecord(w: Window, r: Record, l: nat): Record {
    r.(fate := Mark(r.fate, w.sent, w.sent + l, Asked(w.nextId)))
  }

  /** A result that carries an error of its own, or names no request of this call. */
  function OnLost(w: Window, e: Error): Window
    requires w.inFlight > 0
  {
    w.(inFlight := w.inFlight - 1, firstErr := OffsetErr(0, e))
  }

  ghost function LostRecord(r: Record, e: Error): Record {
    r.(lossy := true, clean := false, lostEof := r.lostEof || e == Eof)
  }

  /** A STATUS reply: the lowest refused offset wins. */
  function OnStatus(w: Window, id: nat, e: Error): Window
    requires w.inFlight > 0 && id in w.reqs
  {
    var req := w.reqs[id];
    w.(inFlight := w.inFlight - 1, reqs := w.reqs - {id},
       firstErr := Lowest(w.firstErr, req.offset, e))
  }

  ghost function StatusRecord(w: Window, r: Record, id: nat, e: Error): Record
    requires id in w.reqs
  {
    r.(fate := Mark(r.fate, w.reqs[id].lo, w.reqs[id].hi, Dropped), clean := r.clean && e == Eof)
  }

  /** A DATA reply of l bytes: count them, and ask again for what a short reply left out. */
  function OnData(w: Window, id: nat, l: nat): Window
    requires w.inFlight > 0 && id in w.reqs
  {
    var req := w.reqs[id];
    if req.lo + l < req.hi then
      w.(read := w.read + l, nextId := w.nextId + 1,
         reqs := (w.reqs - {id})[w.nextId := InflightRead(req.lo + l, req.hi, req.offset + l)])
    else
      w.(read := w.read + l, inFlight := w.inFlight - 1, reqs := w.reqs - {id})
  }

  ghost function DataRecord(w: Window, r: Record, id: nat, l: nat): Record
    requires id in w.reqs
  {
    var req := w.reqs[id];
    var fate := Mark(r.fate, req.lo, req.lo + l, Got);
    r.(fate := if req.lo + l < req.hi then Mark(fate, req.lo + l, req.hi, Asked(w.nextId)) else fate)
  }

  // ---- the call turn by turn ------------------------------------------------------

  /** Everything a call's requests and its error depend on: `length` is that of the buffer. */
  datatype Call = Call(off: nat, length: nat, maxPacket: nat, max: nat, server: Server)

  /** The sending loop. */
  function Sending(c: Call, w: Window, desired: nat): Window
    requires c.maxPacket >= 1
    decreases c.length - w.sent
  {
    if w.inFlight < desired && w.sent < c.length && w.firstErr.err == Ok then
      Sending(c, Send(w, c.off, Min(c.length - w.sent, c.maxPacket)), desired)
    else w
  }

  function Received(w: Window, res: Reply): Window
    requires w.inFlight > 0
  {
    if res.Lost? then OnLost(w, res.err)
    else if res.id !in w.reqs then OnLost(w, Failed(0))
    else if res.Status? then OnStatus(w, res.id, res.err)
    else OnData(w, res.id, |res.data|)
  }

  /** The window and the desired number of requests in flight after n turns of the loop, or when it has ended before. */
  function Turns(c: Call, n: nat): (Window, nat)
    requires c.maxPacket >= 1
  {
    if n == 0 then (OPENING, 1)
    else
      var (w0, d) := Turns(c, n - 1);
      var w := Sending(c, w0, d);
      if w.inFlight == 0 then (w0, d)
      else
        var res := c.server(n - 1, w.reqs);
        (Received(w, res), if res.Data? && res.id in w.reqs && d < c.max then d + 1 else d)
  }

  /** What a result tells the call, if it is bad news. */
  function NoteOf(reqs: map<nat, InflightRead>, res: Reply): Option<Note> {
    match res
    case Lost(err) => Some(Stop(err))
    case Status(id, err) => Some(if id in reqs then Denied(reqs[id].offset, err) else Stop(Failed(0)))
    case Data(id, _) => if id in reqs then None else Some(Stop(Failed(0)))
  }

  /** What went wrong in the first n turns. */
  function Notes(c: Call, n: nat): seq<Note>
    requires c.maxPacket >= 1
  {
    if n == 0 then []
    else
      var (w0, d) := Turns(c, n - 1);
      var w := Sending(c, w0, d);
      if w.inFlight == 0 then Notes(c, n - 1)
      else Added(Notes(c, n - 1), NoteOf(w.reqs, c.server(n - 1, w.reqs)))
  }

  /** The window and the recorded error after so many turns. */
  ghost predicate Told(c: Call, turn: nat, w: Window, desired: nat)
    requires c.maxPacket >= 1
  {
    && (w, desired) == Turns(c, turn)
    && Noted(Notes(c, turn), w.firstErr)
    && (LastStop(Notes(c, turn)).Some? ==> w.firstErr.offset == 0)
  }

  lemma ToldAtFirst(c: Call)
    requires c.maxPacket >= 1
    ensures Told(c, 0, OPENING, 1)
  {
  }

  lemma {:induction false} SendingKeeps(c: Call, w: Window, desired: nat)
    requires c.maxPacket >= 1
    ensures Sending(c, w, desired).firstErr == w.firstErr
    decreases c.length - w.sent
  {
    if w.inFlight < desired && w.sent < c.length && w.firstErr.err == Ok {
      SendingKeeps(c, Send(w, c.off, Min(c.length - w.sent, c.maxPacket)), desired);
    }
  }

  lemma SendingOne(c: Call, w: Window, desired: nat)
    requires c.maxPacket >= 1 && w.inFlight < desired && w.sent < c.length && w.firstErr.err == Ok
    ensures Sending(c, Send(w, c.off, Min(c.length - w.sent, c.maxPacket)), desired) == Sending(c, w, desired)
  {
  }

  lemma SentAll(c: Call, w: Window, desired: nat)
    requires c.maxPacket >= 1 && !(w.inFlight < desired && w.sent < c.length && w.firstErr.err == Ok)
    ensures Sending(c, w, desired) == w
  {
  }

  /** Every turn keeps the recorded error the one to blame. */
  lemma ToldTurn(c: Call, turn: nat, w0: Window, desired: nat, w: Window, file: seq<byte>)
    requires c.maxPacket >= 1 && Told(c, turn, w0, desired) && w == Sending(c, w0, desired) && w.inFlight > 0
    requires Answers(file, w.reqs, c.server(turn, w.reqs))
    ensures
      var res := c.server(turn, w.reqs);
      var grows := res.Data? && res.id in w.reqs && desired < c.max;
      Told(c, turn + 1, Received(w, res), if grows then desired + 1 else desired)
  {
    SendingKeeps(c, w0, desired);
    hide Sending;
    var res := c.server(turn, w.reqs);
    NotedStep(Notes(c, turn), w.firstErr, NoteOf(w.reqs, res), Received(w, res).firstErr);
  }

  /** The call has come to its end after n turns, and this is what it then returns. */
  ghost predicate Returns(c: Call, n: nat, read: nat, err: Error)
    requires c.maxPacket >= 1
  {
    var w := Turns(c, n).0;
    && w.inFlight == 0 && (w.sent >= c.length || w.firstErr.err != Ok)
    && Blames(Notes(c, n), err)
    && read == if err.Failed? then 0 else w.read
  }

  lemma Reports(c: Call, turn: nat, w: Window, desired: nat)
    requires c.maxPacket >= 1 && Told(c, turn, w, desired) && w.inFlight == 0
    requires w.sent >= c.length || w.firstErr.err != Ok
    ensures Returns(c, turn, if w.firstErr.err.Failed? then 0 else w.read, w.firstErr.err)
  {
    hide Turns, Notes, Blames, Noted;
    NotedBlames(Notes(c, turn), w.firstErr);
  }

  // ---- every step keeps the invariant and moves the variant --------------------

  /** Marking bytes that were not received, with anything but `Got`, leaves the received ones alone. */
  lemma RemarkKeeps(file: seq<byte>, off: nat, was: seq<byte>, now: seq<byte>, fate: seq<Fate>, lo: nat, hi: nat,
                    f: Fate)
    requires Filled(file, off, was, now, fate) && lo <= hi <= |fate| && f != Got
    requires forall p | lo <= p < hi :: fate[p] != Got
    ensures Filled(file, off, was, now, Mark(fate, lo, hi, f))
    ensures Having(Mark(fate, lo, hi, f), Got) == Having(fate, Got)
  {
  }

  lemma CopyFills(file: seq<byte>, off: nat, was: seq<byte>, now: seq<byte>, now': seq<byte>, fate: seq<Fate>,
                  lo: nat, data: seq<byte>)
    requires Filled(file, off, was, now, fate) && lo + |data| <= |fate|
    requires off + lo + |data| <= |file| && data == file[off + lo..off + lo + |data|]
    requires |now'| == |now|
    requires forall p | 0 <= p < |now| :: now'[p] == if lo <= p < lo + |data| then data[p - lo] else now[p]
    ensures Filled(file, off, was, now', Mark(fate, lo, lo + |data|, Got))
  {
  }

  lemma SummaryKept(file: seq<byte>, off: nat, sent: nat, sent': nat, fate: seq<Fate>, firstErr: OffsetErr, lo: nat,
                    hi: nat, f: Fate)
    requires ErrorSummary(file, off, sent, fate, firstErr) && lo <= hi <= |fate| && f != Dropped
    requires forall p | lo <= p < hi :: fate[p] != Dropped
    requires sent <= sent' <= |fate|
    ensures ErrorSummary(file, off, sent', Mark(fate, lo, hi, f), firstErr)
  {
  }

  /** The error summary follows the lowest refused request. */
  lemma SummaryStatus(file: seq<byte>, off: nat, w: Window, r: Record, id: nat, e: Error)
    requires Tracks(off, w.sent, w.reqs, r.fate) && w.inFlight > 0 && id in w.reqs
    requires ErrorSummary(file, off, w.sent, r.fate, w.firstErr) && Answers(file, w.reqs, Status(id, e))
    ensures ErrorSummary(file, off, w.sent, StatusRecord(w, r, id, e).fate, OnStatus(w, id, e).firstErr)
  {
    var req, fate' := w.reqs[id], StatusRecord(w, r, id, e).fate;
    assert fate'[req.lo].Dropped?;
  }

  /** A request's own bytes are all marked as asked for by it. */
  lemma OwnBytes(off: nat, sent: nat, reqs: map<nat, InflightRead>, fate: seq<Fate>, id: nat)
    requires Tracks(off, sent, reqs, fate) && id in reqs
    ensures reqs[id].lo < reqs[id].hi <= sent <= |fate| && reqs[id].offset == off + reqs[id].lo
    ensures forall p | reqs[id].lo <= p < reqs[id].hi :: fate[p] == Asked(id)
    ensures reqs[id].lo in Open(fate)
  {
  }

  /** The next bytes to send are unsent, and asking for them keeps them open. */
  lemma NextBytes(off: nat, sent: nat, reqs: map<nat, InflightRead>, fate: seq<Fate>, l: nat, id: nat)
    requires Tracks(off, sent, reqs, fate) && sent + l <= |fate|
    ensures forall p | sent <= p < sent + l :: fate[p].Unsent?
    ensures Open(Mark(fate, sent, sent + l, Asked(id))) == Open(fate)
  {
  }

  /** Settling asked-for bytes shrinks the open set. */
  lemma OpenShrinks(fate: seq<Fate>, lo: nat, mid: nat, hi: nat, f: Fate, id: nat)
    requires lo < mid <= hi <= |fate| && (f.Got? || f.Dropped?)
    requires forall p | lo <= p < hi :: fate[p].Asked?
    ensures Open(Mark(fate, lo, mid, f)) < Open(fate)
    ensures Open(Mark(Mark(fate, lo, mid, f), mid, hi, Asked(id))) < Open(fate)
  {
    assert lo in Open(fate);
    assert lo !in Open(Mark(fate, lo, mid, f));
    assert lo !in Open(Mark(Mark(fate, lo, mid, f), mid, hi, Asked(id)));
  }

  lemma SendStep(file: seq<byte>, off: nat, was: seq<byte>, now: seq<byte>, w: Window, r: Record, l: nat)
    requires Inv(file, off, was, now, w, r) && w.firstErr.err == Ok && 0 < l && w.sent + l <= |r.fate|
    ensures Inv(file, off, was, now, Send(w, off, l), SendRecord(w, r, l))
    ensures Open(SendRecord(w, r, l).fate) == Open(r.fate)
  {
    hide Tracks, Filled, ErrorSummary, Open, Having;
    SendKeeps(off, w.sent, w.reqs, r.fate, w.nextId, l);
    NextBytes(off, w.sent, w.reqs, r.fate, l, w.nextId);
    RemarkKeeps(file, off, was, now, r.fate, w.sent, w.sent + l, Asked(w.nextId));
    SummaryKept(file, off, w.sent, w.sent + l, r.fate, w.firstErr, w.sent, w.sent + l, Asked(w.nextId));
    assert |w.reqs[w.nextId := InflightRead(w.sent, w.sent + l, off + w.sent)]| == |w.reqs| + 1;
  }

  lemma LostStep(file: seq<byte>, off: nat, was: seq<byte>, now: seq<byte>, w: Window, r: Record, e: Error)
    requires Inv(file, off, was, now, w, r) && w.inFlight > 0 && e != Ok
    ensures Inv(file, off, was, now, OnLost(w, e), LostRecord(r, e))
  {
    hide Tracks, Filled, ErrorSummary;
  }

  lemma StatusErrors(file: seq<byte>, off: nat, w: Window, r: Record, id: nat, e: Error)
    requires Tracks(off, w.sent, w.reqs, r.fate) && w.inFlight > 0 && id in w.reqs
    requires ErrorKept(file, off, w, r) && Answers(file, w.reqs, Status(id, e))
    ensures ErrorKept(file, off, OnStatus(w, id, e), StatusRecord(w, r, id, e))
  {
    hide Tracks, ErrorSummary, Mark;
    if !r.lossy {
      SummaryStatus(file, off, w, r, id, e);
    }
  }

  lemma StatusStep(file: seq<byte>, off: nat, was: seq<byte>, now: seq<byte>, w: Window, r: Record, id: nat, e: Error)
    requires Inv(file, off, was, now, w, r) && w.inFlight > 0 && id in w.reqs && Answers(file, w.reqs, Status(id, e))
    ensures Inv(file, off, was, now, OnStatus(w, id, e), StatusRecord(w, r, id, e))
    ensures Open(StatusRecord(w, r, id, e).fate) < Open(r.fate)
  {
    var req := w.reqs[id];
    hide Tracks, Filled, ErrorSummary, Open, Having, ErrorKept, Answers, Mark;
    StatusErrors(file, off, w, r, id, e);
    OwnBytes(off, w.sent, w.reqs, r.fate, id);
    AnswerKeeps(off, w.sent, w.reqs, r.fate, id, req.hi - req.lo, Dropped);
    RemarkKeeps(file, off, was, now, r.fate, req.lo, req.hi, Dropped);
    OpenShrinks(r.fate, req.lo, req.hi, req.hi, Dropped, 0);
    assert |w.reqs - {id}| == |w.reqs| - 1;
  }

  lemma DataErrors(file: seq<byte>, off: nat, w: Window, r: Record, id: nat, l: nat)
    requires Tracks(off, w.sent, w.reqs, r.fate) && w.inFlight > 0 && id in w.reqs
    requires ErrorKept(file, off, w, r) && w.reqs[id].lo + l <= w.reqs[id].hi
    ensures ErrorKept(file, off, OnData(w, id, l), DataRecord(w, r, id, l))
  {
    hide Tracks, ErrorSummary;
    OwnBytes(off, w.sent, w.reqs, r.fate, id);
    var req := w.reqs[id];
    if !r.lossy {
      SummaryKept(file, off, w.sent, w.sent, r.fate, w.firstErr, req.lo, req.lo + l, Got);
      if req.lo + l < req.hi {
        SummaryKept(file, off, w.sent, w.sent, Mark(r.fate, req.lo, req.lo + l, Got), w.firstErr, req.lo + l, req.hi,
                    Asked(w.nextId));
      }
    }
  }

  lemma RemarkCounts(fate: seq<Fate>, lo: nat, hi: nat, f: Fate)
    requires lo <= hi <= |fate| && f != Got && forall p | lo <= p < hi :: fate[p] != Got
    ensures Having(Mark(fate, lo, hi, f), Got) == Having(fate, Got)
  {
  }

  lemma DataCounted(file: seq<byte>, off: nat, was: seq<byte>, now: seq<byte>, w: Window, r: Record, id: nat, l: nat)
    requires Inv(file, off, was, now, w, r) && w.inFlight > 0 && id in w.reqs && w.reqs[id].lo + l <= w.reqs[id].hi
    ensures Counted(OnData(w, id, l), DataRecord(w, r, id, l)) && w.nextId !in w.reqs
  {
    hide Tracks, Filled, ErrorKept, Having;
    var req := w.reqs[id];
    OwnBytes(off, w.sent, w.reqs, r.fate, id);
    MarkedSize(r.fate, req.lo, req.lo + l);
    if req.lo + l < req.hi {
      RemarkCounts(Mark(r.fate, req.lo, req.lo + l, Got), req.lo + l, req.hi, Asked(w.nextId));
      assert |OnData(w, id, l).reqs| == |w.reqs - {id}| + 1 == |w.reqs|;
    } else {
      assert |w.reqs - {id}| == |w.reqs| - 1;
    }
  }

  lemma DataFilled(file: seq<byte>, off: nat, was: seq<byte>, now: seq<byte>, now': seq<byte>, w: Window, r: Record,
                   id: nat, data: seq<byte>)
    requires Tracks(off, w.sent, w.reqs, r.fate) && Filled(file, off, was, now, r.fate)
    requires id in w.reqs && Answers(file, w.reqs, Data(id, data)) && |now'| == |now|
    requires forall p | 0 <= p < |now| ::
               now'[p] == if w.reqs[id].lo <= p < w.reqs[id].lo + |data| then data[p - w.reqs[id].lo] else now[p]
    ensures Filled(file, off, was, now', DataRecord(w, r, id, |data|).fate)
  {
    hide Tracks, Filled, Having;
    var req, l := w.reqs[id], |data|;
    OwnBytes(off, w.sent, w.reqs, r.fate, id);
    CopyFills(file, off, was, now, now', r.fate, req.lo, data);
    if req.lo + l < req.hi {
      RemarkKeeps(file, off, was, now', Mark(r.fate, req.lo, req.lo + l, Got), req.lo + l, req.hi, Asked(w.nextId));
    }
  }

  lemma DataTracked(off: nat, w: Window, r: Record, id: nat, l: nat)
    requires Tracks(off, w.sent, w.reqs, r.fate) && w.inFlight > 0 && id in w.reqs && w.nextId !in w.reqs
    requires 0 < l && w.reqs[id].lo + l <= w.reqs[id].hi
    ensures Tracks(off, w.sent, OnData(w, id, l).reqs, DataRecord(w, r, id, l).fate)
    ensures Open(DataRecord(w, r, id, l).fate) < Open(r.fate)
  {
    hide Tracks, Open, Mark;
    var req := w.reqs[id];
    OwnBytes(off, w.sent, w.reqs, r.fate, id);
    OpenShrinks(r.fate, req.lo, req.lo + l, req.hi, Got, w.nextId);
    if req.lo + l < req.hi {
      ResendKeeps(off, w.sent, w.reqs, r.fate, id, l, w.nextId);
    } else {
      AnswerKeeps(off, w.sent, w.reqs, r.fate, id, l, Got);
    }
  }

  lemma DataStep(file: seq<byte>, off: nat, was: seq<byte>, now: seq<byte>, now': seq<byte>, w: Window, r: Record,
                 id: nat, data: seq<byte>)
    requires Inv(file, off, was, now, w, r) && w.inFlight > 0 && id in w.reqs && Answers(file, w.reqs, Data(id, data))
    requires |now'| == |now|
    requires forall p | 0 <= p < |now| ::
               now'[p] == if w.reqs[id].lo <= p < w.reqs[id].lo + |data| then data[p - w.reqs[id].lo] else now[p]
    ensures Inv(file, off, was, now', OnData(w, id, |data|), DataRecord(w, r, id, |data|))
    ensures Open(DataRecord(w, r, id, |data|).fate) < Open(r.fate)
  {
    assert 0 < |data| && w.reqs[id].lo + |data| <= w.reqs[id].hi;
    hide Tracks, Filled, Open, ErrorKept, Counted, Answers, DataRecord;
    DataErrors(file, off, w, r, id, |data|);
    DataCounted(file, off, was, now, w, r, id, |data|);
    DataFilled(file, off, was, now, now', w, r, id, data);
    DataTracked(off, w, r, id, |data|);
  }

  lemma InitialInv(file: seq<byte>, off: nat, b: seq<byte>)
    ensures Inv(file, off, b, b, Window(0, 0, 1, map[], OffsetErr(0, Ok), 0),
                Record(seq(|b|, _ => Unsent), false, false, true))
  {
    assert Having(seq(|b|, _ => Unsent), Got) == {};
  }

  /** The loop ends with nothing in flight and nothing left to send, or with an error: what the caller then sees. */
  lemma Finished(file: seq<byte>, off: nat, was: seq<byte>, now: seq<byte>, w: Window, r: Record)
    requires Inv(file, off, was, now, w, r) && w.inFlight == 0
    requires w.sent >= |r.fate| || w.firstErr.err != Ok
    requires !r.lostEof && !w.firstErr.err.Failed?
    ensures w.read == Min(|was|, |From(file, off)|)
    ensures |was| == |now| && now[..w.read] == From(file, off)[..w.read] && now[w.read..] == was[w.read..]
    ensures w.firstErr.err == Eof <==> 0 < |was| && off + |was| > |file|
  {
    hide Tracks, Filled, ErrorSummary, Having;
    assert w.reqs == map[];
    FilledLengths(file, off, was, now, r.fate);
    SentBound(off, w.sent, w.reqs, r.fate);
    SettledPrefix(file, off, w.sent, w.reqs, r.fate, w.firstErr, was, now);
    FilledPrefix(file, off, was, now, r.fate, w.read);
  }

  lemma FilledLengths(file: seq<byte>, off: nat, was: seq<byte>, now: seq<byte>, fate: seq<Fate>)
    requires Filled(file, off, was, now, fate)
    ensures |was| == |now| == |fate|
  {
  }

  lemma SentBound(off: nat, sent: nat, reqs: map<nat, InflightRead>, fate: seq<Fate>)
    requires Tracks(off, sent, reqs, fate)
    ensures sent <= |fate|
  {
  }

  lemma GotPrefix(fate: seq<Fate>, k: nat)
    requires Having(fate, Got) == Range(0, k)
    ensures forall p | 0 <= p < |fate| :: fate[p].Got? <==> p < k
  {
    assert forall p | 0 <= p < |fate| :: p in Having(fate, Got) <==> fate[p].Got?;
  }

  lemma FilledPrefix(file: seq<byte>, off: nat, was: seq<byte>, now: seq<byte>, fate: seq<Fate>, k: nat)
    requires Filled(file, off, was, now, fate) && k <= |fate| && Having(fate, Got) == Range(0, k)
    ensures k <= |From(file, off)|
    ensures now[..k] == From(file, off)[..k] && now[k..] == was[k..]
  {
    hide Having, Range, From;
    GotPrefix(fate, k);
    assert k > 0 ==> fate[k - 1].Got?;
    SameSlice(now, was, k, |now|, 0);
    if k > 0 {
      SameSlice(now, file, 0, k, off);
      FromPrefix(file, off, k);
    }
  }

  /** One result from the channel, of whatever kind, is taken in. */
  method Receive(file: seq<byte>, b: array<byte>, off: nat, ghost was: seq<byte>, w0: Window, ghost r0: Record,
                 res: Reply)
    returns (w: Window, ghost r: Record)
    requires Inv(file, off, was, b[..], w0, r0) && w0.inFlight > 0 && Answers(file, w0.reqs, res)
    modifies b
    ensures Inv(file, off, was, b[..], w, r) && |r.fate| == |r0.fate| && w.sent == w0.sent && w.inFlight <= w0.inFlight
    ensures w0.firstErr.err != Ok ==> w.firstErr.err != Ok
    ensures
      || Open(r.fate) < Open(r0.fate)
      || (Open(r.fate) == Open(r0.fate) && w.inFlight < w0.inFlight && w.firstErr.err != Ok)
    ensures r0.clean && !res.Lost? && res.id in w0.reqs && (res.Status? ==> res.err == Eof) ==> r.clean
    ensures !r0.lostEof && res != Lost(Eof) ==> !r.lostEof
    ensures w == Received(w0, res)
    ensures res.Lost? ==> w == OnLost(w0, res.err) && b[..] == old(b[..])
  {
    hide Tracks, Filled, Counted, Open, Having, Mark, ErrorSummary, ErrorKept;
    if res.Lost? || res.id !in w0.reqs {
      var e := if res.Lost? then res.err else Failed(0);
      LostStep(file, off, was, b[..], w0, r0, e);
      w, r := OnLost(w0, e), LostRecord(r0, e);
    } else if res.Status? {
      StatusStep(file, off, was, b[..], w0, r0, res.id, res.err);
      w, r := OnStatus(w0, res.id, res.err), StatusRecord(w0, r0, res.id, res.err);
    } else {
      ghost var now := b[..];
      var lo, data := w0.reqs[res.id].lo, res.data;
      OwnBytes(off, w0.sent, w0.reqs, r0.fate, res.id);
      FilledLengths(file, off, was, now, r0.fate);
      forall i | lo <= i < lo + |data| {
        b[i] := data[i - lo];
      }
      DataStep(file, off, was, now, b[..], w0, r0, res.id, data);
      w, r := OnData(w0, res.id, |data|), DataRecord(w0, r0, res.id, |data|);
    }
  }

  /** Without a lost result, something is in flight under the ids in the map. */
  lemma SomethingAsked(file: seq<byte>, off: nat, was: seq<byte>, now: seq<byte>, w: Window, r: Record)
    requires Inv(file, off, was, now, w, r) && w.inFlight > 0 && r.clean
    ensures Waiting(w.reqs)
  {
    hide Filled, Having, ErrorSummary;
  }

  // ---- an io.EOF that is not the server's -----------------------------------------

  const OPENING := Window(0, 0, 1, map[], OffsetErr(0, Ok), 0)

  /** The first result is an io.EOF of the connection's own. */
  predicate DropsFirst(server: Server, off: nat, l: nat) {
    server(0, map[1 := InflightRead(0, l, off)]) == Lost(Eof)
  }

  /** A connection that reports io.EOF at once keeps to the server's contract: any call can be cut off. */
  lemma DroppingServerExists(file: seq<byte>, off: nat, l: nat) returns (server: Server)
    ensures KeepsContract(server, file) && DropsFirst(server, off, l)
  {
    server := (_, _) => Lost(Eof);
  }

  /** Some k bytes have been received, each of them the file's, and no other byte of the buffer was touched. */
  ghost predicate SomeReceived(file: seq<byte>, off: nat, was: seq<byte>, now: seq<byte>, k: nat) {
    && |was| == |now|
    && exists got: set<int> :: |got| == k && ReceivedAt(file, off, was, now, got)
  }

  ghost predicate ReceivedAt(file: seq<byte>, off: nat, was: seq<byte>, now: seq<byte>, got: set<int>)
    requires |was| == |now|
  {
    && (forall p | p in got :: 0 <= p < |now| && off + p < |file| && now[p] == file[off + p])
    && (forall p | 0 <= p < |now| && p !in got :: now[p] == was[p])
  }

  /** However the call ends, it has received the bytes it counted; past the end of the file there are none. */
  lemma Counts(file: seq<byte>, off: nat, was: seq<byte>, now: seq<byte>, w: Window, r: Record)
    requires Inv(file, off, was, now, w, r)
    ensures SomeReceived(file, off, was, now, w.read)
    ensures off >= |file| ==> w.read == 0 && now == was
  {
    hide Tracks, ErrorKept;
    var got := Having(r.fate, Got);
    assert ReceivedAt(file, off, was, now, got);
    if off >= |file| {
      assert got == {};
    }
  }

  /** What a correct read returns. */
  ghost predicate Correct(file: seq<byte>, off: nat, was: seq<byte>, now: seq<byte>, read: nat, err: Error) {
    && |was| == |now| && read == Min(|now|, |From(file, off)|)
    && now[..read] == From(file, off)[..read] && now[read..] == was[read..]
    && err == if 0 < |now| && off + |now| > |file| then Eof else Ok
  }

  lemma FinishedCorrect(file: seq<byte>, off: nat, was: seq<byte>, now: seq<byte>, w: Window, r: Record)
    requires Inv(file, off, was, now, w, r) && w.inFlight == 0
    requires w.sent >= |r.fate| || w.firstErr.err != Ok
    requires !r.lostEof && !w.firstErr.err.Failed?
    ensures Correct(file, off, was, now, w.read, w.firstErr.err)
  {
    hide Inv;
    Finished(file, off, was, now, w, r);
  }

  lemma PastEnd(file: seq<byte>, off: nat, was: seq<byte>, now: seq<byte>, w: Window, r: Record)
    requires Inv(file, off, was, now, w, r) && off >= |file| && w.firstErr.err == Eof && |now| > 0
    ensures Correct(file, off, was, now, w.read, Eof)
  {
    hide Inv;
    Counts(file, off, was, now, w, r);
  }

  /** A read that was cut off at once is wrong wherever there was something to read. */
  lemma CutOffIsWrong(file: seq<byte>, off: nat, was: seq<byte>)
    requires was != []
    ensures Correct(file, off, was, was, 0, Eof) <==> off >= |file|
  {
  }

  // ---- the call ---------------------------------------------------------------------

  /**
    The call. `maxPacket` and `maxConcurrentRequests` are the client's settings; `peak` is the largest number of
    requests that were in flight at once.
   */
  method ReadAt(file: seq<byte>, b: array<byte>, off: nat, maxPacket: nat, maxConcurrentRequests: nat, server: Server)
    returns (read: nat, err: Error, ghost peak: nat)
    requires maxPacket >= 1 && maxConcurrentRequests >= 1 && KeepsContract(server, file)
    modifies b
    ensures (NoFalseEof(server) || off >= |file| || b.Length == 0) && !err.Failed? ==>
              Correct(file, off, old(b[..]), b[..], read, err)
    ensures DropsFirst(server, off, Min(b.Length, maxPacket)) && b.Length > 0 ==>
              err == Eof && read == 0 && b[..] == old(b[..])
    ensures !err.Failed? ==> SomeReceived(file, off, old(b[..]), b[..], read)
    ensures exists k :: SomeReceived(file, off, old(b[..]), b[..], k)
    ensures err.Failed? ==> read == 0
    ensures Reliable(server) ==> !err.Failed?
    ensures peak <= maxConcurrentRequests
    ensures exists n :: Returns(Call(off, b.Length, maxPacket, maxConcurrentRequests, server), n, read, err)
  {
    hide Told, Returns, Sending, Received;
    hide Tracks, Filled, Counted, Open, Having, Mark, ErrorSummary, ErrorKept, From, Waiting, Correct, SomeReceived;
    var w := OPENING;
    ghost var r := Record(seq(b.Length, _ => Unsent), false, false, true);
    ghost var first := Min(b.Length, maxPacket);
    ghost var drops := DropsFirst(server, off, first);
    InitialInv(file, off, b[..]);
    ghost var c := Call(off, b.Length, maxPacket, maxConcurrentRequests, server);
    ToldAtFirst(c);
    var desiredInFlight, turn := 1, 0;
    peak := 0;
    while w.sent < b.Length || w.inFlight > 0
      invariant Inv(file, off, old(b[..]), b[..], w, r) && |r.fate| == b.Length
      invariant 1 <= desiredInFlight <= maxConcurrentRequests && w.inFlight <= peak <= maxConcurrentRequests
      invariant Reliable(server) ==> r.clean
      invariant NoFalseEof(server) ==> !r.lostEof
      invariant turn == 0 ==> w == OPENING && desiredInFlight == 1
      invariant Told(c, turn, w, desiredInFlight)
      invariant b.Length == 0 ==> turn == 0 && !r.lostEof
      invariant drops || turn == 0 ==> b[..] == old(b[..])
      invariant drops && turn > 0 ==> w.inFlight == 0 && w.firstErr.err == Eof && w.read == 0
      decreases w.firstErr.err == Ok, Open(r.fate), w.inFlight
    {
      ghost var w0, r0 := w, r;
      while w.inFlight < desiredInFlight && w.sent < b.Length && w.firstErr.err == Ok
        invariant Inv(file, off, old(b[..]), b[..], w, r) && |r.fate| == b.Length
        invariant Open(r.fate) == Open(r0.fate) && w.firstErr == w0.firstErr && w.read == w0.read
        invariant r.clean == r0.clean && r.lostEof == r0.lostEof
        invariant w0.firstErr.err != Ok ==> w == w0
        invariant w == w0 || w.inFlight > 0
        invariant Sending(c, w, desiredInFlight) == Sending(c, w0, desiredInFlight)
        invariant w.inFlight <= peak <= maxConcurrentRequests
        invariant turn == 0 ==> w == OPENING || w == Send(OPENING, off, first)
        invariant drops || turn == 0 ==> b[..] == old(b[..])
        decreases b.Length - w.sent
      {
        var l := Min(b.Length - w.sent, maxPacket);
        SendingOne(c, w, desiredInFlight);
        SendStep(file, off, old(b[..]), b[..], w, r, l);
        w, r := Send(w, off, l), SendRecord(w, r, l);
        peak := Max(peak, w.inFlight);
      }
      if w.inFlight == 0 {
        break;
      }
      SentAll(c, w, desiredInFlight);
      ToldTurn(c, turn, w0, desiredInFlight, w, file);
      if turn == 0 {
        assert w.reqs == map[1 := InflightRead(0, first, off)];
      }
      var res := server(turn, w.reqs);
      turn := turn + 1;
      if r.clean {
        SomethingAsked(file, off, old(b[..]), b[..], w, r);
      }
      var answered := res.Data? && res.id in w.reqs;
      w, r := Receive(file, b, off, old(b[..]), w, r, res);
      if answered && desiredInFlight < maxConcurrentRequests {
        desiredInFlight := desiredInFlight + 1;
      }
    }
    read, err := w.read, w.firstErr.err;
    Reports(c, turn, w, desiredInFlight);
    Ended(file, off, old(b[..]), b[..], w, r);
    Counts(file, off, old(b[..]), b[..], w, r);
    if err.Failed? {
      read := 0;
    } else if !r.lostEof {
      FinishedCorrect(file, off, old(b[..]), b[..], w, r);
    } else if off >= |file| && b.Length > 0 {
      PastEnd(file, off, old(b[..]), b[..], w, r);
    }
  }

  lemma Ended(file: seq<byte>, off: nat, was: seq<byte>, now: seq<byte>, w: Window, r: Record)
    requires Inv(file, off, was, now, w, r)
    ensures r.clean ==> !w.firstErr.err.Failed?
    ensures r.lostEof ==> w.firstErr.err != Ok
  {
    hide Tracks, Filled, Counted, ErrorSummary;
  }
}
