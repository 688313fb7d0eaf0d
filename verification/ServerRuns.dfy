/**
  A whole server at work: the receive loop, the dispatcher of workerChan, the eight read/write workers and the
  command worker, the controller of the packet manager and the page allocator, as a state machine whose steps are
  the channel operations, counter updates and allocator calls of those goroutines.
 */
module ServerRuns {
  import opened Prelude
  import opened Wire
  import opened Packets
  import opened Responses
  import opened PacketManager
  import A = Allocator

  /**
    How far a request has come: in pktChan, counted in `working`, put into the controller's request channel, in
    rwChan, with a worker, with a worker that has taken a page for the reply, reply in the response channel,
    no longer counted in `working`.
   */
  datatype Stage = Queued | Counted | Announced | Handed | Running | Paged | Posted | Finished

  /** A FIFO channel: everything ever sent on it, and how many of these have been received. */
  datatype Channel = Channel(items: seq<Ordered>, taken: nat)

  /** A page taken from the allocator on behalf of an order id. */
  datatype Use = Use(oid: nat, page: nat)

  datatype Config = Config(server: Server, paging: bool)

  /**
    The receive loop, the dispatcher and the workers. Request number i has order id i + 1; `dispatched` counts those
    past the dispatcher.
   */
  datatype Line = Line(arrivals: seq<Packet>, stage: seq<Stage>, dispatched: nat, working: nat)

  /**
    The controller and its channels; `releasing` says that it has sent a response and is about to release its pages.
   */
  datatype Control = Control(requests: Channel, responses: Channel, queues: Queues, releasing: bool)

  /**
    The allocator. `reading` says that recvPacket is waiting for the next packet; `pages` and `inbox` only record:
    every page taken, and the one each packet was read into.
   */
  datatype Memory = Memory(pool: A.Pool, reading: bool, pages: set<Use>, inbox: seq<nat>)

  datatype State = State(line: Line, ctl: Control, mem: Memory, closed: bool, fini: bool, stopped: bool)

  const INITIAL := State(Line([], [], 0, 0), Control(Channel([], 0), Channel([], 0), NO_QUEUES, false),
                         Memory(A.EMPTY_POOL, false, {}, []), false, false, false)

  datatype Step =
    | Await
    | Arrive(typ: byte, body: bytes)
    | CloseInput
    | Count
    | Announce
    | Hand
    | Start(i: nat)
    | TakePage(i: nat)
    | Respond(i: nat, m: Method, w: World)
    | Done(i: nat)
    | ControllerRequest
    | ControllerResponse
    | SendResponse
    | ReleaseResponse
    | Fini
    | Stop

  /** SftpServerWorkerCount: the number of read/write workers and the capacity of every buffered channel. */
  const WORKER_COUNT := 8

  predicate ReadWrite(p: Packet) {
    p.Read? || p.Write?
  }

  predicate IsClose(p: Packet) {
    p.Simple? && p.kind == Close
  }

  predicate Working(g: Stage) {
    g == Running || g == Paged || g == Posted
  }

  /** The requests at one of the stages in `at`, all of them or the reads and writes only. */
  function AtStage(arrivals: seq<Packet>, stage: seq<Stage>, at: set<Stage>): set<nat> {
    set i: nat | i < |arrivals| && i < |stage| && ReadWrite(arrivals[i]) && stage[i] in at
  }

  /** The single command worker has nothing to do. */
  predicate CommandIdle(arrivals: seq<Packet>, stage: seq<Stage>) {
    forall i | 0 <= i < |stage| && i < |arrivals| && !ReadWrite(arrivals[i]) :: !Working(stage[i])
  }

  predicate Full(c: Channel) {
    |c.items| - c.taken >= WORKER_COUNT
  }

  predicate AtDispatcher(s: State, g: Stage) {
    s.line.dispatched < |s.line.stage| && s.line.dispatched < |s.line.arrivals| && s.line.stage[s.line.dispatched] == g
  }

  predicate At(s: State, i: nat, g: Stage) {
    i < |s.line.stage| && i < |s.line.arrivals| && s.line.stage[i] == g
  }

  predicate ControllerIdle(s: State) {
    !s.stopped && !s.ctl.releasing && !HeadsMatch(s.ctl.queues)
  }

  /** Which pages a packet needs: only a READ takes a second one, for its data. */
  predicate Enabled(c: Config, s: State, step: Step) {
    match step
    case Await => !s.closed && !s.mem.reading
    case Arrive(typ, body) =>
      s.mem.reading && !s.closed && !MakePacket(typ,
                                                body).Refused? && |s.line.arrivals| - s.line.dispatched <= WORKER_COUNT
    case CloseInput => !s.closed
    case Count =>
      AtDispatcher(s, Queued) && (IsClose(s.line.arrivals[s.line.dispatched]) ==> s.line.working == 0)
    case Announce => AtDispatcher(s, Counted) && !Full(s.ctl.requests)
    case Hand =>
      && AtDispatcher(s, Announced) && ReadWrite(s.line.arrivals[s.line.dispatched])
      && |AtStage(s.line.arrivals, s.line.stage, {Handed})| < WORKER_COUNT
    case Start(i) =>
      if i < |s.line.arrivals| && ReadWrite(s.line.arrivals[i]) then
        At(s, i, Handed) && |AtStage(s.line.arrivals, s.line.stage, {Running, Paged, Posted})| < WORKER_COUNT
      else
        i == s.line.dispatched && AtDispatcher(s, Announced) && CommandIdle(s.line.arrivals, s.line.stage)
    case TakePage(i) => At(s, i, Running) && s.line.arrivals[i].Read?
    case Respond(i, m, w) =>
      && (At(s, i, Running) || At(s, i, Paged)) && !Full(s.ctl.responses)
      && Answer(c.server, s.line.arrivals[i], m, w).Some?
    case Done(i) => At(s, i, Posted) && s.line.working > 0
    case ControllerRequest => ControllerIdle(s) && s.ctl.requests.taken < |s.ctl.requests.items|
    case ControllerResponse => ControllerIdle(s) && s.ctl.responses.taken < |s.ctl.responses.items|
    case SendResponse => !s.stopped && !s.ctl.releasing && HeadsMatch(s.ctl.queues)
    case ReleaseResponse => s.ctl.releasing
    case Fini => s.closed && s.line.dispatched == |s.line.arrivals| && s.line.working == 0
    case Stop => s.fini && ControllerIdle(s)
  }

  function Put(c: Channel, x: Ordered): Channel {
    c.(items := c.items + [x])
  }

  function Taken(c: Config, m: Memory, oid: nat): Memory {
    if c.paging then m.(pool := A.Taken(m.pool, oid), pages := m.pages + {Use(oid, A.PageOf(m.pool))}) else m
  }

  function Moved(l: Line, i: nat, g: Stage): Line
    requires i < |l.stage|
  {
    l.(stage := l.stage[i := g])
  }

  function NextLine(c: Config, s: State, step: Step): Line
    requires Enabled(c, s, step)
  {
    var l := s.line;
    match step
    case Arrive(typ, body) => l.(arrivals := l.arrivals + [MakePacket(typ, body).p], stage := l.stage + [Queued])
    case Count => Moved(l, l.dispatched, Counted).(working := l.working + 1)
    case Announce => Moved(l, l.dispatched, Announced)
    case Hand => Moved(l, l.dispatched, Handed).(dispatched := l.dispatched + 1)
    case Start(i) =>
      if ReadWrite(l.arrivals[i]) then Moved(l, i, Running) else Moved(l, i, Running).(dispatched := l.dispatched + 1)
    case TakePage(i) => Moved(l, i, Paged)
    case Respond(i, _, _) => Moved(l, i, Posted)
    case Done(i) => Moved(l, i, Finished).(working := l.working - 1)
    case _ => l
  }

  function NextControl(c: Config, s: State, step: Step): Control
    requires Enabled(c, s, step)
  {
    var t := s.ctl;
    match step
    case Announce => t.(requests := Put(t.requests,
                                        Ordered(s.line.dispatched + 1, RequestId(s.line.arrivals[s.line.dispatched]))))
    case Respond(i, m, w) =>
      t.(responses := Put(t.responses, Ordered(i + 1, ResponseId(Answer(c.server, s.line.arrivals[i], m, w).value))))
    case ControllerRequest =>
      t.(queues := Receive(t.queues, Request(t.requests.items[t.requests.taken])),
         requests := t.requests.(taken := t.requests.taken + 1))
    case ControllerResponse =>
      t.(queues := Receive(t.queues, Response(t.responses.items[t.responses.taken])),
         responses := t.responses.(taken := t.responses.taken + 1))
    case SendResponse => t.(queues := SendHead(t.queues), releasing := true)
    case ReleaseResponse => t.(releasing := false)
    case _ => t
  }

  function NextMemory(c: Config, s: State, step: Step): Memory
    requires Enabled(c, s, step)
  {
    var m := s.mem;
    match step
    case Await =>
      var page := if c.paging then [A.PageOf(m.pool)] else [];
      Taken(c, m, |s.line.arrivals| + 1).(reading := true, inbox := m.inbox + page)
    case Arrive(_, _) => m.(reading := false)
    case TakePage(i) => Taken(c, m, i + 1)
    case ReleaseResponse => if c.paging then m.(pool := A.Released(m.pool, |s.ctl.queues.sent|)) else m
    case _ => m
  }

  function Next(c: Config, s: State, step: Step): State
    requires Enabled(c, s, step)
  {
    State(NextLine(c, s, step), NextControl(c, s, step), NextMemory(c, s, step),
          s.closed || step.CloseInput?, s.fini || step.Fini?, s.stopped || step.Stop?)
  }

  // ---- the invariant ----------------------------------------------------------------

  predicate Begun(g: Stage) {
    Working(g) || g == Finished
  }

  predicate Replied(g: Stage) {
    g == Posted || g == Finished
  }

  /** The dispatcher takes the packets in order, and only reads and writes pass through rwChan. */
  ghost predicate Flow(arrivals: seq<Packet>, stage: seq<Stage>, dispatched: nat) {
    && |stage| == |arrivals| && dispatched <= |stage|
    && (forall i | 0 <= i < dispatched :: Begun(stage[i]) || (stage[i] == Handed && ReadWrite(arrivals[i])))
    && (dispatched < |stage| ==>
          stage[dispatched] == Queued || stage[dispatched] == Counted || stage[dispatched] == Announced)
    && (forall i | dispatched < i < |stage| :: stage[i] == Queued)
  }

  ghost function Busy(stage: seq<Stage>): set<nat> {
    set i: nat | i < |stage| && stage[i] != Queued && stage[i] != Finished
  }

  /** The wait group counts the requests between `incomingPacket` and the end of `readyPacket`. */
  ghost predicate Tallied(working: nat, stage: seq<Stage>) {
    working == |Busy(stage)|
  }

  ghost predicate CommandsBefore(arrivals: seq<Packet>, stage: seq<Stage>, j: nat)
    requires j <= |stage| == |arrivals|
  {
    forall i | 0 <= i < j && !ReadWrite(arrivals[i]) :: stage[i] == Finished
  }

  /** A command begins only when every earlier command has finished. */
  ghost predicate Sequential(arrivals: seq<Packet>, stage: seq<Stage>) {
    && |stage| == |arrivals|
    && forall j | 0 <= j < |stage| && !ReadWrite(arrivals[j]) && Begun(stage[j]) :: CommandsBefore(arrivals, stage, j)
  }

  ghost predicate AllBefore(stage: seq<Stage>, j: nat)
    requires j <= |stage|
  {
    forall i | 0 <= i < j :: stage[i] == Finished
  }

  /** A close leaves the dispatcher's queue only when every earlier request has finished. */
  ghost predicate Barrier(arrivals: seq<Packet>, stage: seq<Stage>) {
    && |stage| == |arrivals|
    && forall j | 0 <= j < |stage| && IsClose(arrivals[j]) && stage[j] != Queued :: AllBefore(stage, j)
  }

  function Tag(arrivals: seq<Packet>, k: nat): Ordered
    requires k < |arrivals|
  {
    Ordered(k + 1, RequestId(arrivals[k]))
  }

  /** The requests put on the controller's channel: all the dispatcher has counted and announced, in arrival order. */
  ghost predicate Announces(arrivals: seq<Packet>, stage: seq<Stage>, dispatched: nat, items: seq<Ordered>) {
    && |stage| == |arrivals|
    && |items| == dispatched + (if dispatched < |stage| && stage[dispatched] == Announced then 1 else 0) <= |arrivals|
    && forall k | 0 <= k < |items| :: items[k] == Tag(arrivals, k)
  }

  /** The responses put on the controller's channel: one for each request answered, with its id. */
  ghost predicate Posts(arrivals: seq<Packet>, stage: seq<Stage>, items: seq<Ordered>) {
    && |stage| == |arrivals| && Distinct(items)
    && (forall x | x in items :: 1 <= x.oid <= |stage| && Replied(stage[x.oid - 1]) && x == Tag(arrivals, x.oid - 1))
    && (forall i | 0 <= i < |stage| && Replied(stage[i]) :: Tag(arrivals, i) in items)
  }

  ghost predicate Controlled(requests: Channel, responses: Channel, queues: Queues) {
    && requests.taken <= |requests.items| && responses.taken <= |responses.items|
    && Restores(queues, requests.items[..requests.taken], responses.items[..responses.taken])
  }

  /** How many responses have been sent and had their pages released. */
  function ReleasedCount(s: State): int {
    if s.ctl.releasing then |s.ctl.queues.sent| - 1 else |s.ctl.queues.sent|
  }

  /** A page taken for a request belongs to it until its response has been sent; then the entry is gone. */
  ghost predicate Owned(paging: bool, pool: A.Pool, pages: set<Use>, released: int) {
    && A.Conserved(pool) && (!paging ==> pool.used == map[] && pages == {})
    && (forall u | u in pages && u.oid > released :: A.Uses(pool, u.oid, u.page))
    && (forall k | k in pool.used :: k > released)
  }

  /** The page of packet number i was taken under order id i + 1, the id the packet was given afterwards. */
  ghost predicate Inbox(c: Config, arrivals: seq<Packet>, reading: bool, inbox: seq<nat>, pages: set<Use>) {
    && (c.paging ==> |inbox| == |arrivals| + (if reading then 1 else 0))
    && forall i | 0 <= i < |inbox| :: Use(i + 1, inbox[i]) in pages
  }

  /**
    The controller is told to stop when everything has been dispatched and counted off, and stops between two packets.
   */
  ghost predicate Ending(s: State) {
    && (s.fini ==> s.closed && s.line.dispatched == |s.line.arrivals| && s.line.working == 0)
    && (s.stopped ==> s.fini && !s.ctl.releasing && !HeadsMatch(s.ctl.queues))
  }

  ghost predicate Inv(c: Config, s: State) {
    && Ending(s)
    && Flow(s.line.arrivals, s.line.stage, s.line.dispatched)
    && Tallied(s.line.working, s.line.stage)
    && Sequential(s.line.arrivals, s.line.stage)
    && Barrier(s.line.arrivals, s.line.stage)
    && Announces(s.line.arrivals, s.line.stage, s.line.dispatched, s.ctl.requests.items)
    && Posts(s.line.arrivals, s.line.stage, s.ctl.responses.items)
    && Controlled(s.ctl.requests, s.ctl.responses, s.ctl.queues)
    && (s.ctl.releasing ==> s.ctl.queues.sent != [])
    && Owned(c.paging, s.mem.pool, s.mem.pages, ReleasedCount(s))
    && Inbox(c, s.line.arrivals, s.mem.reading, s.mem.inbox, s.mem.pages)
  }

  // ---- one request moves, every part of the invariant stays --------------------------

  lemma FlowArrives(arrivals: seq<Packet>, stage: seq<Stage>, dispatched: nat, p: Packet)
    requires Flow(arrivals, stage, dispatched)
    ensures Flow(arrivals + [p], stage + [Queued], dispatched)
  {
  }

  lemma FlowMoves(arrivals: seq<Packet>, stage: seq<Stage>, dispatched: nat, i: nat, g: Stage, dispatched': nat)
    requires Flow(arrivals, stage, dispatched) && i < |stage|
    requires i <= dispatched <= dispatched' <= dispatched + 1
    requires i < dispatched ==> dispatched' == dispatched && Begun(g)
    requires i == dispatched && dispatched' == dispatched ==> g == Counted || g == Announced
    requires i == dispatched && dispatched' != dispatched ==> Begun(g) || (g == Handed && ReadWrite(arrivals[i]))
    ensures Flow(arrivals, stage[i := g], dispatched')
  {
  }

  lemma TallyArrives(working: nat, stage: seq<Stage>)
    requires Tallied(working, stage)
    ensures Tallied(working, stage + [Queued])
  {
    assert Busy(stage + [Queued]) == Busy(stage);
  }

  lemma TallyMoves(working: nat, stage: seq<Stage>, i: nat, g: Stage)
    requires Tallied(working, stage) && i < |stage| && stage[i] != Finished && g != Queued
    ensures stage[i] == Queued && g != Finished ==> Tallied(working + 1, stage[i := g])
    ensures stage[i] != Queued && g != Finished ==> Tallied(working, stage[i := g])
    ensures stage[i] != Queued && g == Finished && working > 0 ==> Tallied(working - 1, stage[i := g])
  {
    if stage[i] == Queued {
      assert g != Finished ==> Busy(stage[i := g]) == Busy(stage) + {i};
    } else if g == Finished {
      assert Busy(stage[i := g]) == Busy(stage) - {i};
    } else {
      assert Busy(stage[i := g]) == Busy(stage);
    }
  }

  lemma IdleAllFinished(stage: seq<Stage>, j: nat)
    requires Tallied(0, stage) && j <= |stage| && forall i | 0 <= i < j :: stage[i] != Queued
    ensures AllBefore(stage, j)
  {
    assert Busy(stage) == {};
    forall i: nat | i < j ensures stage[i] == Finished {
      assert i !in Busy(stage);
    }
  }

  lemma SequentialArrives(arrivals: seq<Packet>, stage: seq<Stage>, p: Packet)
    requires Sequential(arrivals, stage)
    ensures Sequential(arrivals + [p], stage + [Queued])
  {
  }

  lemma SequentialMoves(arrivals: seq<Packet>, stage: seq<Stage>, i: nat, g: Stage)
    requires Sequential(arrivals, stage) && i < |stage| && stage[i] != Finished
    requires !ReadWrite(arrivals[i]) && Begun(g) ==> CommandsBefore(arrivals, stage, i)
    ensures Sequential(arrivals, stage[i := g])
  {
    var stage' := stage[i := g];
    forall j | 0 <= j < |stage'| && !ReadWrite(arrivals[j]) && Begun(stage'[j])
      ensures CommandsBefore(arrivals, stage', j)
    {
      if j != i {
        assert CommandsBefore(arrivals, stage, j);
      }
    }
  }

  lemma BarrierArrives(arrivals: seq<Packet>, stage: seq<Stage>, p: Packet)
    requires Barrier(arrivals, stage)
    ensures Barrier(arrivals + [p], stage + [Queued])
  {
  }

  lemma BarrierMoves(arrivals: seq<Packet>, stage: seq<Stage>, i: nat, g: Stage)
    requires Barrier(arrivals, stage) && i < |stage| && stage[i] != Finished
    requires IsClose(arrivals[i]) ==> AllBefore(stage, i)
    ensures Barrier(arrivals, stage[i := g])
  {
    var stage' := stage[i := g];
    forall j | 0 <= j < |stage'| && IsClose(arrivals[j]) && stage'[j] != Queued ensures AllBefore(stage', j) {
      if j != i {
        assert AllBefore(stage, j);
      }
    }
  }

  lemma AnnouncesArrives(arrivals: seq<Packet>, stage: seq<Stage>, dispatched: nat, items: seq<Ordered>, p: Packet)
    requires Announces(arrivals, stage, dispatched, items)
    ensures Announces(arrivals + [p], stage + [Queued], dispatched, items)
  {
  }

  lemma AnnouncesMoves(arrivals: seq<Packet>, stage: seq<Stage>, dispatched: nat, items: seq<Ordered>, i: nat, g: Stage)
    requires Announces(arrivals, stage, dispatched, items) && i < |stage|
    ensures i < dispatched ==> Announces(arrivals, stage[i := g], dispatched, items)
    ensures i == dispatched && stage[i] == Queued && g == Counted ==>
              Announces(arrivals, stage[i := g], dispatched, items)
    ensures i == dispatched && stage[i] == Counted && g == Announced ==>
              Announces(arrivals, stage[i := g], dispatched, items + [Tag(arrivals, i)])
    ensures i == dispatched && stage[i] == Announced && (i + 1 < |stage| ==> stage[i + 1] == Queued) ==>
              Announces(arrivals, stage[i := g], dispatched + 1, items)
  {
  }

  lemma PostsArrives(arrivals: seq<Packet>, stage: seq<Stage>, items: seq<Ordered>, p: Packet)
    requires Posts(arrivals, stage, items)
    ensures Posts(arrivals + [p], stage + [Queued], items)
  {
    assert forall i | 0 <= i < |arrivals| :: Tag(arrivals + [p], i) == Tag(arrivals, i);
  }

  lemma PostsMoves(arrivals: seq<Packet>, stage: seq<Stage>, items: seq<Ordered>, i: nat, g: Stage)
    requires Posts(arrivals, stage, items) && i < |stage| && Replied(g) == Replied(stage[i])
    ensures Posts(arrivals, stage[i := g], items)
  {
  }

  lemma PostsAnswer(arrivals: seq<Packet>, stage: seq<Stage>, items: seq<Ordered>, i: nat)
    requires Posts(arrivals, stage, items) && i < |stage| && !Replied(stage[i])
    ensures Posts(arrivals, stage[i := Posted], items + [Tag(arrivals, i)])
  {
    var x, items' := Tag(arrivals, i), items + [Tag(arrivals, i)];
    forall k | 0 <= k < |items| ensures items[k].oid != x.oid {
      assert items[k] in items;
    }
  }

  // ---- every step keeps the invariant --------------------------------------------------

  predicate MovesRequest(step: Step) {
    step.Count? || step.Announce? || step.Hand? || step.Start? || step.TakePage? || step.Respond? || step.Done?
  }

  /** The request that a step moves on, and where to. */
  function Index(s: State, step: Step): nat
    requires MovesRequest(step)
  {
    if step.Count? || step.Announce? || step.Hand? then s.line.dispatched else step.i
  }

  function Target(step: Step): Stage
    requires MovesRequest(step)
  {
    match step
    case Count => Counted
    case Announce => Announced
    case Hand => Handed
    case Start(_) => Running
    case TakePage(_) => Paged
    case Respond(_, _, _) => Posted
    case Done(_) => Finished
  }

  /** The possible moves of request i from stage f to stage g, with d requests dispatched before and d' after. */
  ghost predicate Move(rw: bool, i: nat, f: Stage, g: Stage, d: nat, d': nat) {
    if i == d then
      || (d' == d && f == Queued && g == Counted)
      || (d' == d && f == Counted && g == Announced)
      || (d' == d + 1 && f == Announced && g == if rw then Handed else Running)
    else
      && i < d && d' == d
      && (|| (rw && f == Handed && g == Running)
          || (f == Running && g == Paged)
          || ((f == Running || f == Paged) && g == Posted)
          || (f == Posted && g == Finished))
  }

  lemma Whereabouts(arrivals: seq<Packet>, stage: seq<Stage>, d: nat, i: nat)
    requires Flow(arrivals, stage, d) && i < |stage|
    ensures |stage| == |arrivals|
    ensures Working(stage[i]) ==> i < d
    ensures stage[i] == Handed ==> i < d && ReadWrite(arrivals[i])
  {
  }

  lemma EveryMove(c: Config, s: State, step: Step)
    requires Enabled(c, s, step) && MovesRequest(step) && Flow(s.line.arrivals, s.line.stage, s.line.dispatched)
    ensures
      var s', i, g := Next(c, s, step), Index(s, step), Target(step);
      && i < |s.line.stage| && s'.line.arrivals == s.line.arrivals && s'.line.stage == s.line.stage[i := g]
      && Move(ReadWrite(s.line.arrivals[i]), i, s.line.stage[i], g, s.line.dispatched, s'.line.dispatched)
  {
    hide NextControl, NextMemory, Flow, Answer, MakePacket, AtStage, CommandIdle, HeadsMatch, ReadWrite;
    Whereabouts(s.line.arrivals, s.line.stage, s.line.dispatched, Index(s, step));
  }

  lemma FlowKept(c: Config, s: State, step: Step)
    requires Enabled(c, s, step) && Flow(s.line.arrivals, s.line.stage, s.line.dispatched)
    ensures var s' := Next(c, s, step); Flow(s'.line.arrivals, s'.line.stage, s'.line.dispatched)
  {
    hide NextControl, NextMemory, Flow, Answer, MakePacket, AtStage, CommandIdle, HeadsMatch;
    if MovesRequest(step) {
      EveryMove(c, s, step);
      hide Enabled, Next;
      FlowMoves(s.line.arrivals, s.line.stage, s.line.dispatched, Index(s, step), Target(step),
                Next(c, s, step).line.dispatched);
    } else if step.Arrive? {
      FlowArrives(s.line.arrivals, s.line.stage, s.line.dispatched, MakePacket(step.typ, step.body).p);
    }
  }

  lemma TalliedKept(c: Config, s: State, step: Step)
    requires Enabled(c, s, step) && Flow(s.line.arrivals, s.line.stage, s.line.dispatched)
    requires Tallied(s.line.working, s.line.stage)
    ensures var s' := Next(c, s, step); Tallied(s'.line.working, s'.line.stage)
  {
    hide NextControl, NextMemory, Tallied, Flow, Answer, MakePacket, AtStage, CommandIdle, HeadsMatch;
    if MovesRequest(step) {
      EveryMove(c, s, step);
      TallyMoves(s.line.working, s.line.stage, Index(s, step), Target(step));
    } else if step.Arrive? {
      TallyArrives(s.line.working, s.line.stage);
    }
  }

  lemma CommandsDone(arrivals: seq<Packet>, stage: seq<Stage>, d: nat)
    requires Flow(arrivals, stage, d) && CommandIdle(arrivals, stage)
    ensures CommandsBefore(arrivals, stage, d)
  {
  }

  lemma SequentialKept(c: Config, s: State, step: Step)
    requires Enabled(c, s, step) && Flow(s.line.arrivals, s.line.stage, s.line.dispatched)
    requires Sequential(s.line.arrivals, s.line.stage)
    ensures var s' := Next(c, s, step); Sequential(s'.line.arrivals, s'.line.stage)
  {
    hide NextControl, NextMemory, Flow, CommandsBefore, Answer, MakePacket, AtStage, CommandIdle, HeadsMatch;
    if MovesRequest(step) {
      EveryMove(c, s, step);
      if step.Start? && !ReadWrite(s.line.arrivals[step.i]) {
        CommandsDone(s.line.arrivals, s.line.stage, s.line.dispatched);
      }
      SequentialMoves(s.line.arrivals, s.line.stage, Index(s, step), Target(step));
    } else if step.Arrive? {
      SequentialArrives(s.line.arrivals, s.line.stage, MakePacket(step.typ, step.body).p);
    }
  }

  lemma DispatchedBegan(arrivals: seq<Packet>, stage: seq<Stage>, d: nat)
    requires Flow(arrivals, stage, d)
    ensures forall i | 0 <= i < d :: stage[i] != Queued
  {
  }

  lemma BarrierKept(c: Config, s: State, step: Step)
    requires Enabled(c, s, step) && Flow(s.line.arrivals, s.line.stage, s.line.dispatched)
    requires Tallied(s.line.working, s.line.stage)
    requires Barrier(s.line.arrivals, s.line.stage)
    ensures var s' := Next(c, s, step); Barrier(s'.line.arrivals, s'.line.stage)
  {
    hide NextControl, NextMemory, Flow, Tallied, AllBefore, Answer, MakePacket, AtStage, CommandIdle, HeadsMatch;
    if MovesRequest(step) {
      EveryMove(c, s, step);
      if step.Count? && IsClose(s.line.arrivals[s.line.dispatched]) {
        DispatchedBegan(s.line.arrivals, s.line.stage, s.line.dispatched);
        IdleAllFinished(s.line.stage, s.line.dispatched);
      }
      BarrierMoves(s.line.arrivals, s.line.stage, Index(s, step), Target(step));
    } else if step.Arrive? {
      BarrierArrives(s.line.arrivals, s.line.stage, MakePacket(step.typ, step.body).p);
    }
  }

  lemma RestQueued(arrivals: seq<Packet>, stage: seq<Stage>, d: nat)
    requires Flow(arrivals, stage, d) && d + 1 < |stage|
    ensures stage[d + 1] == Queued
  {
  }

  lemma AnnouncesKept(c: Config, s: State, step: Step)
    requires Enabled(c, s, step) && Flow(s.line.arrivals, s.line.stage, s.line.dispatched)
    requires Announces(s.line.arrivals, s.line.stage, s.line.dispatched, s.ctl.requests.items)
    ensures var s' := Next(c, s, step); Announces(s'.line.arrivals, s'.line.stage, s'.line.dispatched,
                                                  s'.ctl.requests.items)
  {
    hide NextMemory, Flow, Announces, Answer, MakePacket, AtStage, CommandIdle, HeadsMatch, Receive;
    if MovesRequest(step) {
      EveryMove(c, s, step);
      if s.line.dispatched + 1 < |s.line.stage| {
        RestQueued(s.line.arrivals, s.line.stage, s.line.dispatched);
      }
      AnnouncesMoves(s.line.arrivals, s.line.stage, s.line.dispatched, s.ctl.requests.items, Index(s, step),
                     Target(step));
    } else if step.Arrive? {
      AnnouncesArrives(s.line.arrivals, s.line.stage, s.line.dispatched, s.ctl.requests.items,
                       MakePacket(step.typ, step.body).p);
    }
  }

  lemma PostsKept(c: Config, s: State, step: Step)
    requires Enabled(c, s, step) && Flow(s.line.arrivals, s.line.stage, s.line.dispatched)
    requires Posts(s.line.arrivals, s.line.stage, s.ctl.responses.items)
    ensures var s' := Next(c, s, step); Posts(s'.line.arrivals, s'.line.stage, s'.ctl.responses.items)
  {
    hide NextMemory, Flow, Posts, Answer, MakePacket, AtStage, CommandIdle, HeadsMatch, Receive, RequestId, ResponseId;
    if MovesRequest(step) {
      EveryMove(c, s, step);
      if step.Respond? {
        AnswersWithId(c.server, s.line.arrivals[step.i], step.m, step.w);
        PostsAnswer(s.line.arrivals, s.line.stage, s.ctl.responses.items, step.i);
      } else {
        PostsMoves(s.line.arrivals, s.line.stage, s.ctl.responses.items, Index(s, step), Target(step));
      }
    } else if step.Arrive? {
      PostsArrives(s.line.arrivals, s.line.stage, s.ctl.responses.items, MakePacket(step.typ, step.body).p);
    }
  }

  lemma ChannelTaken(requests: Channel, responses: Channel, queues: Queues, x: Ordered)
    requires Controlled(requests, responses, queues)
    ensures Controlled(Put(requests, x), responses, queues) && Controlled(requests, Put(responses, x), queues)
  {
    assert (requests.items + [x])[..requests.taken] == requests.items[..requests.taken];
    assert (responses.items + [x])[..responses.taken] == responses.items[..responses.taken];
  }

  lemma AnnouncedNumbered(arrivals: seq<Packet>, stage: seq<Stage>, d: nat, items: seq<Ordered>)
    requires Announces(arrivals, stage, d, items)
    ensures forall k | 0 <= k <= |items| :: Numbered(items[..k])
  {
  }

  lemma PostedDistinct(arrivals: seq<Packet>, stage: seq<Stage>, items: seq<Ordered>)
    requires Posts(arrivals, stage, items)
    ensures forall k | 0 <= k <= |items| :: Distinct(items[..k])
  {
  }

  lemma ControlledKept(c: Config, s: State, step: Step)
    requires Enabled(c, s, step) && Controlled(s.ctl.requests, s.ctl.responses, s.ctl.queues)
    requires Announces(s.line.arrivals, s.line.stage, s.line.dispatched, s.ctl.requests.items)
    requires Posts(s.line.arrivals, s.line.stage, s.ctl.responses.items)
    ensures var s' := Next(c, s, step); Controlled(s'.ctl.requests, s'.ctl.responses, s'.ctl.queues)
  {
    hide NextLine, NextMemory, Announces, Posts, Restores, Answer, MakePacket, AtStage, CommandIdle, HeadsMatch,
         Receive, SendHead, Numbered, Distinct;
    AnnouncedNumbered(s.line.arrivals, s.line.stage, s.line.dispatched, s.ctl.requests.items);
    PostedDistinct(s.line.arrivals, s.line.stage, s.ctl.responses.items);
    var reqs, resps := s.ctl.requests.items[..s.ctl.requests.taken], s.ctl.responses.items[..s.ctl.responses.taken];
    match step {
      case Announce => ChannelTaken(s.ctl.requests, s.ctl.responses, s.ctl.queues,
                                    Next(c, s, step).ctl.requests.items[|s.ctl.requests.items|]);
      case Respond(_, _, _) => ChannelTaken(s.ctl.requests, s.ctl.responses, s.ctl.queues,
                                            Next(c, s, step).ctl.responses.items[|s.ctl.responses.items|]);
      case ControllerRequest =>
        var p := s.ctl.requests.items[s.ctl.requests.taken];
        assert s.ctl.requests.items[..s.ctl.requests.taken + 1] == reqs + [p];
        RequestRestores(s.ctl.queues, reqs, resps, p);
      case ControllerResponse =>
        var p := s.ctl.responses.items[s.ctl.responses.taken];
        assert s.ctl.responses.items[..s.ctl.responses.taken + 1] == resps + [p];
        ResponseRestores(s.ctl.queues, reqs, resps, p);
      case SendResponse => SendRestores(s.ctl.queues, reqs, resps);
      case _ =>
    }
  }

  /** The k-th response sent answers the k-th request and carries its id, and its request has been answered. */
  lemma SentTags(s: State, k: nat)
    requires Controlled(s.ctl.requests, s.ctl.responses, s.ctl.queues)
    requires Posts(s.line.arrivals, s.line.stage, s.ctl.responses.items)
    requires k < |s.ctl.queues.sent|
    ensures k < |s.line.stage| == |s.line.arrivals| && Replied(s.line.stage[k])
    ensures s.ctl.queues.sent[k] == Tag(s.line.arrivals, k)
  {
    var x := s.ctl.queues.sent[k];
    assert x.oid == k + 1;
    assert x in s.ctl.responses.items[..s.ctl.responses.taken];
    assert x in s.ctl.responses.items;
  }

  lemma TakeOwned(c: Config, m: Memory, released: int, oid: nat)
    requires Owned(c.paging, m.pool, m.pages, released) && oid > released
    ensures var m' := Taken(c, m, oid); Owned(c.paging, m'.pool, m'.pages, released)
  {
    if c.paging {
      A.AfterGet(m.pool, oid);
      A.GetKeeps(m.pool, oid);
      hide A.Uses, A.Conserved;
    }
  }

  lemma ReleaseOwned(paging: bool, pool: A.Pool, pages: set<Use>, released: nat)
    requires Owned(paging, pool, pages, released)
    ensures Owned(paging, if paging then A.Released(pool, released + 1) else pool, pages, released + 1)
  {
    A.AfterRelease(pool, released + 1);
    A.ReleaseKeeps(pool, released + 1);
    hide A.Uses, A.Conserved;
  }

  lemma SentBound(s: State)
    requires Controlled(s.ctl.requests, s.ctl.responses, s.ctl.queues)
    requires Posts(s.line.arrivals, s.line.stage, s.ctl.responses.items)
    ensures |s.ctl.queues.sent| <= |s.line.arrivals|
  {
    if |s.ctl.queues.sent| > 0 {
      SentTags(s, |s.ctl.queues.sent| - 1);
    }
  }

  lemma RunningUnsent(s: State, i: nat)
    requires Controlled(s.ctl.requests, s.ctl.responses, s.ctl.queues)
    requires Posts(s.line.arrivals, s.line.stage, s.ctl.responses.items)
    requires At(s, i, Running)
    ensures i >= |s.ctl.queues.sent|
  {
    hide Controlled, Posts;
    if i < |s.ctl.queues.sent| {
      SentTags(s, i);
    }
  }

  lemma ReceiveSendsNothing(q: Queues, e: Event)
    ensures Receive(q, e).sent == q.sent
  {
  }

  lemma OwnedKept(c: Config, s: State, step: Step)
    requires Inv(c, s) && Enabled(c, s, step)
    ensures var s' := Next(c, s, step); Owned(c.paging, s'.mem.pool, s'.mem.pages, ReleasedCount(s'))
    ensures Next(c, s, step).ctl.releasing ==> Next(c, s, step).ctl.queues.sent != []
  {
    hide Owned, Flow, Tallied, Sequential, Barrier, Announces, Posts, Controlled, Inbox, Answer, MakePacket, AtStage,
         CommandIdle,
         HeadsMatch, Receive;
    match step {
      case Await =>
        SentBound(s);
        TakeOwned(c, s.mem, ReleasedCount(s), |s.line.arrivals| + 1);
      case TakePage(i) =>
        RunningUnsent(s, i);
        TakeOwned(c, s.mem, ReleasedCount(s), i + 1);
      case ReleaseResponse => ReleaseOwned(c.paging, s.mem.pool, s.mem.pages, |s.ctl.queues.sent| - 1);
      case ControllerRequest => ReceiveSendsNothing(s.ctl.queues, Request(s.ctl.requests.items[s.ctl.requests.taken]));
      case ControllerResponse => ReceiveSendsNothing(s.ctl.queues,
                                                     Response(s.ctl.responses.items[s.ctl.responses.taken]));
      case _ =>
    }
  }

  lemma InboxMoves(c: Config, arrivals: seq<Packet>, reading: bool, inbox: seq<nat>, pages: set<Use>, pages': set<Use>,
                   page: nat, p: Packet)
    requires Inbox(c, arrivals, reading, inbox, pages) && pages <= pages'
    ensures Inbox(c, arrivals, reading, inbox, pages')
    ensures reading ==> Inbox(c, arrivals + [p], false, inbox, pages)
    ensures !reading && !c.paging ==> Inbox(c, arrivals, true, inbox, pages)
    ensures !reading && c.paging && Use(|arrivals| + 1, page) in pages' ==>
              Inbox(c, arrivals, true, inbox + [page], pages')
  {
  }

  lemma InboxKept(c: Config, s: State, step: Step)
    requires Enabled(c, s, step) && Inbox(c, s.line.arrivals, s.mem.reading, s.mem.inbox, s.mem.pages)
    ensures var s' := Next(c, s, step); Inbox(c, s'.line.arrivals, s'.mem.reading, s'.mem.inbox, s'.mem.pages)
  {
    hide NextControl, Inbox, Answer, MakePacket, AtStage, CommandIdle, HeadsMatch, Receive, SendHead, A.Taken,
         A.Released, A.PageOf,
         RequestId, ResponseId, ReadWrite, IsClose, Full;
    var page, none := A.PageOf(s.mem.pool), UnknownExtended(0, []);
    match step {
      case Await =>
        assert s.mem.inbox + [] == s.mem.inbox;
        InboxMoves(c, s.line.arrivals, s.mem.reading, s.mem.inbox, s.mem.pages,
                   s.mem.pages + {Use(|s.line.arrivals| + 1, page)}, page, none);
      case Arrive(typ, body) => InboxMoves(c, s.line.arrivals, s.mem.reading, s.mem.inbox, s.mem.pages, s.mem.pages,
                                           page, MakePacket(typ, body).p);
      case TakePage(i) => InboxMoves(c, s.line.arrivals, s.mem.reading, s.mem.inbox, s.mem.pages,
                                     s.mem.pages + {Use(i + 1, page)}, page, none);
      case _ =>
    }
  }

  lemma AllFinished(s: State)
    requires Flow(s.line.arrivals, s.line.stage, s.line.dispatched) && Tallied(0, s.line.stage)
    requires s.line.dispatched == |s.line.arrivals|
    ensures |s.line.stage| == |s.line.arrivals| && forall i | 0 <= i < |s.line.stage| :: s.line.stage[i] == Finished
  {
    hide Tallied;
    IdleAllFinished(s.line.stage, |s.line.stage|);
  }

  lemma EndingKept(c: Config, s: State, step: Step)
    requires Inv(c, s) && Enabled(c, s, step)
    ensures Ending(Next(c, s, step))
  {
    hide NextMemory, Flow, Tallied, Sequential, Barrier, Announces, Posts, Controlled, Owned, Inbox, Answer,
         MakePacket, AtStage, CommandIdle,
         HeadsMatch, Receive, SendHead;
    if s.fini {
      AllFinished(s);
    }
  }

  lemma StepKeepsInv(c: Config, s: State, step: Step)
    requires Inv(c, s) && Enabled(c, s, step)
    ensures Inv(c, Next(c, s, step))
  {
    hide Enabled, Next, Ending, Flow, Tallied, Sequential, Barrier, Announces, Posts, Controlled, Owned, Inbox;
    EndingKept(c, s, step);
    FlowKept(c, s, step);
    TalliedKept(c, s, step);
    SequentialKept(c, s, step);
    BarrierKept(c, s, step);
    AnnouncesKept(c, s, step);
    PostsKept(c, s, step);
    ControlledKept(c, s, step);
    OwnedKept(c, s, step);
    InboxKept(c, s, step);
  }

  lemma InitialInv(c: Config)
    ensures Inv(c, INITIAL)
  {
    assert Busy([]) == {};
  }

  // ---- every run -------------------------------------------------------------------------

  ghost predicate IsRun(c: Config, s: State, steps: seq<Step>, s': State)
    decreases |steps|
  {
    if steps == [] then s == s' else Enabled(c, s, steps[0]) && IsRun(c, Next(c, s, steps[0]), steps[1..], s')
  }

  lemma {:induction false} RunKeepsInv(c: Config, s: State, steps: seq<Step>, s': State)
    requires Inv(c, s) && IsRun(c, s, steps, s')
    ensures Inv(c, s')
    decreases |steps|
  {
    hide Inv, Next, Enabled;
    if steps != [] {
      StepKeepsInv(c, s, steps[0]);
      RunKeepsInv(c, Next(c, s, steps[0]), steps[1..], s');
    }
  }

  lemma Reached(c: Config, steps: seq<Step>, s: State)
    requires IsRun(c, INITIAL, steps, s)
    ensures Inv(c, s)
  {
    hide *;
    InitialInv(c);
    RunKeepsInv(c, INITIAL, steps, s);
  }

  /** The requests that a run receives: what makePacket makes of the messages that arrive, in order. */
  ghost function PacketsOf(steps: seq<Step>): seq<Packet> {
    if steps == [] then []
    else
      var first := steps[0];
      var made := if first.Arrive? then MakePacket(first.typ, first.body) else Refused(ShortPacket);
      (if made.Refused? then [] else [made.p]) + PacketsOf(steps[1..])
  }

  lemma StepArrives(c: Config, s: State, step: Step)
    requires Enabled(c, s, step)
    ensures Next(c, s, step).line.arrivals ==
            if step.Arrive? then s.line.arrivals + [MakePacket(step.typ, step.body).p] else s.line.arrivals
    ensures step.Arrive? ==> !MakePacket(step.typ, step.body).Refused?
  {
    hide NextControl, NextMemory, Answer, MakePacket, AtStage, CommandIdle, ReadWrite, IsClose, HeadsMatch, Full;
  }

  /** The packets a server has queued are those it received, each once and in order. */
  lemma {:induction false} Arrivals(c: Config, s: State, steps: seq<Step>, s': State)
    requires IsRun(c, s, steps, s')
    ensures s'.line.arrivals == s.line.arrivals + PacketsOf(steps)
    decreases |steps|
  {
    hide Next, Enabled, MakePacket;
    if steps == [] {
      assert s.line.arrivals + [] == s.line.arrivals;
    } else {
      StepArrives(c, s, steps[0]);
      var t := Next(c, s, steps[0]);
      Arrivals(c, t, steps[1..], s');
      if steps[0].Arrive? {
        Assoc(s.line.arrivals, [MakePacket(steps[0].typ, steps[0].body).p], PacketsOf(steps[1..]));
      } else {
        assert [] + PacketsOf(steps[1..]) == PacketsOf(steps[1..]);
      }
    }
  }

  lemma ArrivedInOrder(c: Config, steps: seq<Step>, s: State)
    requires IsRun(c, INITIAL, steps, s)
    ensures s.line.arrivals == PacketsOf(steps)
  {
    hide IsRun, PacketsOf;
    Arrivals(c, INITIAL, steps, s);
    assert [] + PacketsOf(steps) == PacketsOf(steps);
  }

  /**
    In every run of either server, the k-th response on the wire answers the k-th message received and carries the id
    of the request in it.
   */
  lemma ResponsesInOrder(c: Config, steps: seq<Step>, s: State)
    requires IsRun(c, INITIAL, steps, s)
    ensures |s.ctl.queues.sent| <= |PacketsOf(steps)|
    ensures forall k | 0 <= k < |s.ctl.queues.sent| ::
              s.ctl.queues.sent[k] == Ordered(k + 1, RequestId(PacketsOf(steps)[k]))
  {
    hide IsRun, INITIAL, PacketsOf, Flow, Tallied, Sequential, Barrier, Announces, Posts, Controlled, Owned, Inbox,
         Ending;
    Reached(c, steps, s);
    ArrivedInOrder(c, steps, s);
    SentBound(s);
    forall k | 0 <= k < |s.ctl.queues.sent| ensures s.ctl.queues.sent[k] == Tag(s.line.arrivals, k) {
      SentTags(s, k);
    }
  }

  /** In every run a worker posts one response for each request received that it has answered, and no other. */
  lemma AnsweredOnce(c: Config, steps: seq<Step>, s: State)
    requires IsRun(c, INITIAL, steps, s)
    ensures Distinct(s.ctl.responses.items)
    ensures |s.line.stage| == |PacketsOf(steps)|
    ensures forall i | 0 <= i < |s.line.stage| :: Replied(s.line.stage[i]) <==>
              Ordered(i + 1, RequestId(PacketsOf(steps)[i])) in s.ctl.responses.items
    ensures forall x | x in s.ctl.responses.items ::
              1 <= x.oid <= |PacketsOf(steps)| && x.id == RequestId(PacketsOf(steps)[x.oid - 1])
  {
    hide IsRun, INITIAL, PacketsOf, Flow, Tallied, Sequential, Barrier, Announces, Controlled, Owned, Inbox, Ending,
         Distinct, RequestId;
    Reached(c, steps, s);
    ArrivedInOrder(c, steps, s);
    assert forall i | 0 <= i < |s.line.stage| ::
        Tag(s.line.arrivals, i) == Ordered(i + 1, RequestId(s.line.arrivals[i]));
  }

  /** In every run, a close that has left the queue finds every earlier request answered. */
  lemma CloseBarrier(c: Config, steps: seq<Step>, s: State, i: nat, j: nat)
    requires IsRun(c, INITIAL, steps, s) && i < j < |PacketsOf(steps)| == |s.line.stage|
    requires IsClose(PacketsOf(steps)[j]) && s.line.stage[j] != Queued
    ensures s.line.stage[i] == Finished && Ordered(i + 1, RequestId(PacketsOf(steps)[i])) in s.ctl.responses.items
  {
    hide IsRun, INITIAL, PacketsOf, Flow, Tallied, Sequential, Announces, Controlled, Owned, Inbox, Ending, Distinct,
         RequestId;
    Reached(c, steps, s);
    ArrivedInOrder(c, steps, s);
    assert AllBefore(s.line.stage, j);
    assert Tag(s.line.arrivals, i) in s.ctl.responses.items;
  }

  /**
    In every run, of two requests that are neither reads nor writes, the later starts only after the earlier is done.
   */
  lemma CommandsInOrder(c: Config, steps: seq<Step>, s: State, i: nat, j: nat)
    requires IsRun(c, INITIAL, steps, s) && i < j < |PacketsOf(steps)| == |s.line.stage|
    requires !ReadWrite(PacketsOf(steps)[i]) && !ReadWrite(PacketsOf(steps)[j]) && Begun(s.line.stage[j])
    ensures s.line.stage[i] == Finished
  {
    hide IsRun, INITIAL, PacketsOf, Flow, Tallied, Barrier, Announces, Posts, Controlled, Owned, Inbox, Ending;
    Reached(c, steps, s);
    ArrivedInOrder(c, steps, s);
    assert CommandsBefore(s.line.arrivals, s.line.stage, j);
  }

  /**
    In every run with the allocator on, the page a request was read into and the page its reply was built in stay
    out of the free list, and out of every other request's entry, until its response has been sent.
   */
  lemma PagesSafe(c: Config, steps: seq<Step>, s: State)
    requires IsRun(c, INITIAL, steps, s) && c.paging
    ensures forall i | |s.ctl.queues.sent| <= i < |PacketsOf(steps)| ::
              i < |s.mem.inbox| && Use(i + 1, s.mem.inbox[i]) in s.mem.pages
    ensures forall u | u in s.mem.pages && u.oid > |s.ctl.queues.sent| ::
              u.page !in s.mem.pool.available && forall k: nat :: A.Uses(s.mem.pool, k, u.page) <==> k == u.oid
    ensures !s.ctl.releasing ==> forall k | k in s.mem.pool.used :: k > |s.ctl.queues.sent|
  {
    hide IsRun, INITIAL, PacketsOf, Flow, Tallied, Sequential, Barrier, Announces, Posts, Controlled, Ending, A.Uses;
    Reached(c, steps, s);
    ArrivedInOrder(c, steps, s);
  }

  // ---- nothing gets stuck ---------------------------------------------------------------------

  /** The steps of the server itself, as opposed to those of its client and of the shutdown. */
  predicate Internal(step: Step) {
    !(step.Await? || step.Arrive? || step.CloseInput? || step.Fini? || step.Stop?)
  }

  ghost predicate Settled(s: State) {
    && |s.ctl.queues.sent| == |s.line.arrivals| && !s.ctl.releasing
    && s.ctl.queues.incoming == [] && s.ctl.queues.outgoing == []
  }

  lemma SomeAtStage(arrivals: seq<Packet>, stage: seq<Stage>, at: set<Stage>)
    ensures
      || |AtStage(arrivals, stage, at)| < WORKER_COUNT
      || exists i: nat :: i < |arrivals| && i < |stage| && stage[i] in at
  {
    if |AtStage(arrivals, stage, at)| > 0 {
      var i :| i in AtStage(arrivals, stage, at);
    }
  }

  /** A worker that holds a request can go on as long as the response channel has room. */
  lemma WorkerStep(c: Config, s: State, i: nat) returns (step: Step)
    requires i < |s.line.stage| == |s.line.arrivals| && Working(s.line.stage[i]) && !Full(s.ctl.responses)
    requires Tallied(s.line.working, s.line.stage)
    ensures Internal(step) && Enabled(c, s, step)
  {
    if s.line.stage[i] == Posted {
      assert i in Busy(s.line.stage);
      return Done(i);
    }
    var w := World(false, false, false, 0, false);
    AnswersWithId(c.server, s.line.arrivals[i], Method.Bad, w);
    return Respond(i, Method.Bad, w);
  }

  /** While nobody works and the controller's channels are empty, the dispatcher can go on. */
  lemma DispatcherStep(c: Config, s: State) returns (step: Step)
    requires Flow(s.line.arrivals, s.line.stage, s.line.dispatched) && Tallied(s.line.working, s.line.stage)
    requires s.line.dispatched < |s.line.arrivals|
    requires !Full(s.ctl.requests) && forall i | 0 <= i < s.line.dispatched :: s.line.stage[i] == Finished
    ensures Internal(step) && Enabled(c, s, step)
  {
    var d := s.line.dispatched;
    if s.line.stage[d] == Queued {
      assert Busy(s.line.stage) == {};
      return Count;
    }
    if s.line.stage[d] == Counted {
      return Announce;
    }
    if ReadWrite(s.line.arrivals[d]) {
      SomeAtStage(s.line.arrivals, s.line.stage, {Handed});
      return Hand;
    }
    return Start(d);
  }

  /** In every reachable state in which something is still to be sent, some goroutine of the server can go on. */
  lemma NeverStuck(c: Config, s: State) returns (step: Step)
    requires Inv(c, s) && !s.stopped && !Settled(s)
    ensures Internal(step) && Enabled(c, s, step)
  {
    hide Sequential, Barrier, Announces, Posts, Controlled, Owned, Inbox, Tallied, Restores;
    if s.ctl.releasing {
      return ReleaseResponse;
    }
    if HeadsMatch(s.ctl.queues) {
      return SendResponse;
    }
    if s.ctl.requests.taken < |s.ctl.requests.items| {
      return ControllerRequest;
    }
    if s.ctl.responses.taken < |s.ctl.responses.items| {
      return ControllerResponse;
    }
    if i: nat :| i < |s.line.stage| && Working(s.line.stage[i]) {
      step := WorkerStep(c, s, i);
      return;
    }
    if i: nat :| i < |s.line.stage| && s.line.stage[i] == Handed {
      SomeAtStage(s.line.arrivals, s.line.stage, {Running, Paged, Posted});
      return Start(i);
    }
    if s.line.dispatched < |s.line.arrivals| {
      step := DispatcherStep(c, s);
      return;
    }
    DrainedSettled(s);
    assert false;
  }

  /** With everything dispatched, finished and received, everything has been sent. */
  lemma DrainedSettled(s: State)
    requires Announces(s.line.arrivals, s.line.stage, s.line.dispatched, s.ctl.requests.items)
    requires Posts(s.line.arrivals, s.line.stage, s.ctl.responses.items)
    requires Controlled(s.ctl.requests, s.ctl.responses, s.ctl.queues)
    requires s.line.dispatched == |s.line.arrivals| && !s.ctl.releasing && !HeadsMatch(s.ctl.queues)
    requires forall i | 0 <= i < |s.line.stage| :: s.line.stage[i] == Finished
    requires s.ctl.requests.taken >= |s.ctl.requests.items| && s.ctl.responses.taken >= |s.ctl.responses.items|
    ensures Settled(s)
  {
    assert s.ctl.requests.items[..s.ctl.requests.taken] == s.ctl.requests.items;
    assert s.ctl.responses.items[..s.ctl.responses.taken] == s.ctl.responses.items;
    AnnouncedNumbered(s.line.arrivals, s.line.stage, s.line.dispatched, s.ctl.requests.items);
    forall i | 1 <= i <= |s.ctl.requests.items| ensures PacketManager.Answered(s.ctl.responses.items, i) {
      assert Tag(s.line.arrivals, i - 1) in s.ctl.responses.items;
    }
    hide Restores, HeadsMatch;
    AllSent(s.ctl.queues, s.ctl.requests.items, s.ctl.responses.items);
  }

  // ---- everything comes to rest -----------------------------------------------------------------

  function Left(g: Stage): nat {
    match g
    case Queued => 7
    case Counted => 6
    case Announced => 5
    case Handed => 4
    case Running => 3
    case Paged => 2
    case Posted => 1
    case Finished => 0
  }

  ghost function Remaining(stage: seq<Stage>): nat {
    if stage == [] then 0 else Remaining(stage[..|stage| - 1]) + Left(stage[|stage| - 1])
  }

  /** An upper bound on the number of steps the server can take on its own. */
  ghost function Work(s: State): int {
    4 * Remaining(s.line.stage) + (|s.ctl.requests.items| - s.ctl.requests.taken)
    + 3 * (|s.ctl.responses.items| - s.ctl.responses.taken)
    + 2 * |s.ctl.queues.outgoing| + if s.ctl.releasing then 1 else 0
  }

  lemma {:induction false} RemainingMoves(stage: seq<Stage>, i: nat, g: Stage)
    requires i < |stage|
    ensures Remaining(stage[i := g]) == Remaining(stage) - Left(stage[i]) + Left(g)
  {
    hide Left;
    var n := |stage| - 1;
    if i == n {
      assert stage[i := g][..n] == stage[..n];
    } else {
      RemainingMoves(stage[..n], i, g);
      assert stage[i := g][..n] == stage[..n][i := g];
    }
  }

  lemma MoveLeft(rw: bool, i: nat, f: Stage, g: Stage, d: nat, d': nat)
    requires Move(rw, i, f, g, d, d')
    ensures Left(g) < Left(f)
  {
  }

  lemma ReceiveLength(q: Queues, e: Event)
    ensures |Receive(q, e).outgoing| == |q.outgoing| + if e.Response? then 1 else 0
  {
    SortLength(q.outgoing + [e.p]);
  }

  lemma StepShrinks(c: Config, s: State, step: Step)
    requires Flow(s.line.arrivals, s.line.stage, s.line.dispatched) && Enabled(c, s, step) && Internal(step)
    ensures Work(Next(c, s, step)) < Work(s)
  {
    hide Flow, Answer, MakePacket, AtStage, CommandIdle, Receive, Remaining, Left, Move, ReadWrite, IsClose, RequestId,
         ResponseId,
         A.Taken, A.Released, A.PageOf;
    if MovesRequest(step) {
      EveryMove(c, s, step);
      var i, g := Index(s, step), Target(step);
      RemainingMoves(s.line.stage, i, g);
      MoveLeft(ReadWrite(s.line.arrivals[i]), i, s.line.stage[i], g, s.line.dispatched,
               Next(c, s, step).line.dispatched);
    } else if step.ControllerRequest? {
      ReceiveLength(s.ctl.queues, Request(s.ctl.requests.items[s.ctl.requests.taken]));
    } else if step.ControllerResponse? {
      ReceiveLength(s.ctl.queues, Response(s.ctl.responses.items[s.ctl.responses.taken]));
    }
  }

  lemma StillRunning(c: Config, s: State, step: Step)
    requires Enabled(c, s, step) && Internal(step)
    ensures Next(c, s, step).stopped == s.stopped
    ensures Next(c, s, step).line.arrivals == s.line.arrivals
  {
    hide NextControl, NextMemory, Answer, MakePacket, AtStage, CommandIdle, ReadWrite, IsClose, HeadsMatch, Full;
  }

  lemma WorkLeft(c: Config, s: State)
    requires Inv(c, s)
    ensures Work(s) >= 0
  {
    hide Remaining, Restores;
  }

  lemma {:induction false} RunShrinks(c: Config, s: State, steps: seq<Step>, s': State)
    requires Inv(c, s) && IsRun(c, s, steps, s') && forall x | x in steps :: Internal(x)
    ensures |steps| <= Work(s) - Work(s') && s'.stopped == s.stopped && s'.line.arrivals == s.line.arrivals
    decreases |steps|
  {
    hide Inv, Next, Enabled, Work;
    if steps != [] {
      FlowOf(c, s);
      FirstIn(steps);
      StepKeepsInv(c, s, steps[0]);
      StepShrinks(c, s, steps[0]);
      StillRunning(c, s, steps[0]);
      RunShrinks(c, Next(c, s, steps[0]), steps[1..], s');
    }
  }

  lemma FlowOf(c: Config, s: State)
    requires Inv(c, s)
    ensures Flow(s.line.arrivals, s.line.stage, s.line.dispatched)
  {
  }

  /**
    From every reachable state in which the controller has not been stopped, the server comes to rest by itself
    after boundedly many steps however its goroutines are scheduled, and then every message received has been answered,
    with the id of the request in it and in the order of arrival, and both queues are empty.
   */
  lemma EverythingAnswered(c: Config, before: seq<Step>, s: State, after: seq<Step>, s': State)
    requires IsRun(c, INITIAL, before, s) && !s.stopped
    requires IsRun(c, s, after, s') && forall x | x in after :: Internal(x)
    ensures |after| <= Work(s)
    ensures (forall step | Internal(step) :: !Enabled(c, s', step)) ==>
              && Settled(s') && |s'.ctl.queues.sent| == |PacketsOf(before)|
              && forall k | 0 <= k < |PacketsOf(before)| ::
                   s'.ctl.queues.sent[k] == Ordered(k + 1, RequestId(PacketsOf(before)[k]))
  {
    hide IsRun, INITIAL, PacketsOf, Inv, Next, Enabled, Work;
    Reached(c, before, s);
    ArrivedInOrder(c, before, s);
    RunShrinks(c, s, after, s');
    RunKeepsInv(c, s, after, s');
    WorkLeft(c, s');
    if !Settled(s') {
      var step := NeverStuck(c, s');
    } else {
      forall k | 0 <= k < |s'.ctl.queues.sent| ensures s'.ctl.queues.sent[k] == Tag(s'.line.arrivals, k) {
        TagsOf(c, s', k);
      }
    }
  }

  lemma TagsOf(c: Config, s: State, k: nat)
    requires Inv(c, s) && k < |s.ctl.queues.sent|
    ensures k < |s.line.arrivals| && s.ctl.queues.sent[k] == Tag(s.line.arrivals, k)
  {
    hide Flow, Tallied, Sequential, Barrier, Announces, Posts, Controlled, Owned, Inbox, Ending;
    SentTags(s, k);
  }

  // ---- what the shutdown may cost ------------------------------------------------------------------

  lemma SentReceived(s: State)
    requires Announces(s.line.arrivals, s.line.stage, s.line.dispatched, s.ctl.requests.items)
    requires Posts(s.line.arrivals, s.line.stage, s.ctl.responses.items)
    requires Controlled(s.ctl.requests, s.ctl.responses, s.ctl.queues)
    requires |s.ctl.queues.sent| == |s.line.arrivals|
    ensures s.ctl.requests.taken == |s.ctl.requests.items| && s.ctl.responses.taken == |s.ctl.responses.items|
  {
    var taken, items := s.ctl.responses.taken, s.ctl.responses.items;
    if taken < |items| {
      NotYetTaken(items, taken);
      assert items[taken] in items;
      SentTags(s, items[taken].oid - 1);
    }
  }

  lemma NotYetTaken(items: seq<Ordered>, k: nat)
    requires Distinct(items) && k < |items|
    ensures forall x | x in items[..k] :: x.oid != items[k].oid
  {
  }

  /** A stopped server has sent every response exactly when both of the controller's channels were empty at the end. */
  lemma StoppedExactly(c: Config, steps: seq<Step>, s: State)
    requires IsRun(c, INITIAL, steps, s) && s.stopped
    ensures |s.ctl.queues.sent| == |s.line.arrivals| <==>
              s.ctl.requests.taken == |s.ctl.requests.items| && s.ctl.responses.taken == |s.ctl.responses.items|
  {
    hide IsRun, INITIAL, Flow, Tallied, Sequential, Barrier, Announces, Posts, Controlled, Owned, Inbox, HeadsMatch;
    Reached(c, steps, s);
    AllFinished(s);
    if |s.ctl.queues.sent| == |s.line.arrivals| {
      SentReceived(s);
    } else if s.ctl.requests.taken == |s.ctl.requests.items| && s.ctl.responses.taken == |s.ctl.responses.items| {
      DrainedSettled(s);
    }
  }

  lemma EmptyRun(c: Config, s: State)
    ensures IsRun(c, s, [], s)
  {
  }

  lemma {:induction false} Extend(c: Config, s0: State, steps: seq<Step>, s: State,
                                  step: Step) returns (steps': seq<Step>, s': State)
    requires IsRun(c, s0, steps, s) && Enabled(c, s, step)
    ensures steps' == steps + [step] && s' == Next(c, s, step) && IsRun(c, s0, steps', s')
    decreases |steps|
  {
    steps', s' := steps + [step], Next(c, s, step);
    if steps == [] {
      EmptyRun(c, s');
      assert steps'[1..] == [];
    } else {
      hide Enabled, Next;
      var rest, _ := Extend(c, Next(c, s0, steps[0]), steps[1..], s, step);
      assert steps'[1..] == steps[1..] + [step];
    }
  }

  /** One CLOSE request has been received and is at the given stage; nothing has reached the controller. */
  function OneClose(mem: Memory, g: Stage, working: nat, announced: bool, answered: bool, dispatched: nat): State {
    var x := [Ordered(1, 0)];
    State(Line([Simple(Close, 0, [])], [g], dispatched, working),
          Control(Channel(if announced then x else [], 0), Channel(if answered then x else [], 0), NO_QUEUES, false),
          mem, false, false, false)
  }

  lemma CloseParses() returns (typ: byte, body: bytes)
    ensures MakePacket(typ, body) == Made(Simple(Close, 0, []))
  {
    var packet := Simple(Close, 0, []);
    RoundTrip(packet);
    typ, body := Marshal(packet)[0], Marshal(packet)[1..];
  }

  lemma CloseArrives(c: Config) returns (steps: seq<Step>, mem: Memory)
    ensures IsRun(c, INITIAL, steps, OneClose(mem, Queued, 0, false, false, 0))
  {
    hide MakePacket, IsRun;
    var typ, body := CloseParses();
    EmptyRun(c, INITIAL);
    var s;
    steps, s := Extend(c, INITIAL, [], INITIAL, Await);
    steps, s := Extend(c, INITIAL, steps, s, Arrive(typ, body));
    mem := s.mem;
    assert s == OneClose(mem, Queued, 0, false, false, 0);
  }

  lemma CloseAnswered(c: Config, steps0: seq<Step>, mem: Memory) returns (steps: seq<Step>)
    requires IsRun(c, INITIAL, steps0, OneClose(mem, Queued, 0, false, false, 0))
    ensures IsRun(c, INITIAL, steps, OneClose(mem, Posted, 1, true, true, 1))
  {
    hide IsRun, INITIAL, Answer;
    var s := OneClose(mem, Queued, 0, false, false, 0);
    steps, s := Extend(c, INITIAL, steps0, s, Count);
    assert s == OneClose(mem, Counted, 1, false, false, 0);
    steps, s := Extend(c, INITIAL, steps, s, Announce);
    assert s == OneClose(mem, Announced, 1, true, false, 0);
    steps, s := Extend(c, INITIAL, steps, s, Start(0));
    assert s == OneClose(mem, Running, 1, true, false, 1);
    var w := World(false, false, false, 0, false);
    AnswersWithId(c.server, s.line.arrivals[0], Method.Bad, w);
    steps, s := Extend(c, INITIAL, steps, s, Respond(0, Method.Bad, w));
    assert s == OneClose(mem, Posted, 1, true, true, 1);
  }

  /**
    It happens: the client closes a file and hangs up, and the answer is still in the channel when the controller
    stops.
   */
  lemma ResponseLost(c: Config) returns (steps: seq<Step>, s: State)
    ensures IsRun(c, INITIAL, steps, s) && s.stopped && |s.line.arrivals| == 1 && s.ctl.queues.sent == []
  {
    hide IsRun, INITIAL, Answer;
    var mem;
    steps, mem := CloseArrives(c);
    steps := CloseAnswered(c, steps, mem);
    s := OneClose(mem, Posted, 1, true, true, 1);
    steps, s := Extend(c, INITIAL, steps, s, Done(0));
    assert s == OneClose(mem, Finished, 0, true, true, 1);
    steps, s := Extend(c, INITIAL, steps, s, CloseInput);
    steps, s := Extend(c, INITIAL, steps, s, Fini);
    steps, s := Extend(c, INITIAL, steps, s, Stop);
  }
}
