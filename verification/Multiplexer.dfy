/**
  clientConn: many dispatching goroutines, one receive loop and one shutdown
  broadcast share the `inflight` map and the callers' bounded result channels.
  Every critical section, wire write and channel operation is one step.
 */
module Multiplexer {
  import opened Prelude

  /**
    Where dispatchRequest stands: registered, send failed, entry deleted, done after a good send, done after
    reporting.
   */
  datatype Phase = Registered | Failing | Reporting | Sent | Reported

  /** A dispatched request; `got` counts the results posted for it. */
  datatype Request = Request(id: nat, call: nat, phase: Phase, got: nat)

  /**
    A caller: `sendPacket` (max = 1) or a File call (max = maxConcurrentRequests). Its channel has room for
    max + 1 results. `unanswered` and `twice` are the requests that have had no result yet and those that have
    had two, `suspect` the request that was being dispatched when the broadcast took its snapshot.
   */
  datatype Call = Call(max: nat, active: Option<nat>, dispatched: nat, received: nat, posted: nat,
                       unanswered: set<nat>, twice: set<nat>, suspect: Option<nat>)

  /** The receive goroutine: recv, then Close, then broadcastErr. */
  datatype Loop = Receiving | Delivering(r: nat) | Closing | Snapshotting | Broadcasting(rest: set<nat>) | Stopped

  /** A reply handed on by the receive loop: the id it carried and the request whose channel it went to. */
  datatype Delivery = Delivery(sid: nat, r: nat)

  /** `current` records the id of the reply in the receive loop's hands, `delivered` all those it has handed on. */
  datatype State = State(reqs: map<nat, Request>, calls: map<nat, Call>, inflight: map<nat, nat>, closed: bool,
                         loop: Loop, current: nat, delivered: seq<Delivery>)

  datatype Step =
    | NewCall(c: nat, max: nat)
    | Register(r: nat, id: nat, c: nat)
    | SendOk(r: nat)
    | SendFail(r: nat)
    | Unregister(r: nat)
    | Report(r: nat)
    | Receive(sid: nat)
    | ReceiveError
    | Deliver
    | CloseConn
    | Snapshot
    | Broadcast(r: nat)
    | Stop
    | Take(c: nat)

  const INITIAL := State(map[], map[], map[], false, Receiving, 0, [])

  predicate Active(p: Phase) {
    p == Registered || p == Failing || p == Reporting
  }

  predicate Looking(s: State, r: nat, p: Phase) {
    r in s.reqs && s.reqs[r].phase == p && s.reqs[r].call in s.calls
  }

  /**
    When a step can happen. Outstanding ids are distinct; a send after close fails; the server answers only
    requests that reached it. Posting a result is never guarded by the channel's capacity: that it need not be
    is the point of `NeverBlocks`.
   */
  predicate Enabled(s: State, step: Step) {
    match step
    case NewCall(c, max) => c !in s.calls && max >= 1
    case Register(r, id, c) =>
      && r !in s.reqs && id !in s.inflight && c in s.calls && s.calls[c].active == None
      && s.calls[c].dispatched < s.calls[c].received + s.calls[c].max
    case SendOk(r) => Looking(s, r, Registered) && !s.closed
    case SendFail(r) => Looking(s, r, Registered)
    case Unregister(r) => Looking(s, r, Failing)
    case Report(r) => Looking(s, r, Reporting)
    case Receive(sid) => s.loop == Receiving && (sid in s.inflight ==> Looking(s, s.inflight[sid], Sent))
    case ReceiveError => s.loop == Receiving
    case Deliver => s.loop.Delivering? && Looking(s, s.loop.r, Sent)
    case CloseConn => s.loop == Closing
    case Snapshot => s.loop == Snapshotting
    case Broadcast(r) => s.loop.Broadcasting? && r in s.loop.rest && r in s.reqs && s.reqs[r].call in s.calls
    case Stop => s.loop == Broadcasting({})
    case Take(c) =>
      c in s.calls && s.calls[c].received < s.calls[c].posted && s.calls[c].received < s.calls[c].dispatched
  }

  /** `ch <- result` for request r on its own caller's channel. */
  function Post(k: Call, r: nat): (k': Call)
    ensures k'.active == k.active
  {
    if r in k.unanswered then k.(posted := k.posted + 1, unanswered := k.unanswered - {r})
    else k.(posted := k.posted + 1, twice := k.twice + {r})
  }

  function PostTo(s: State, r: nat): map<nat, Call>
    requires r in s.reqs && s.reqs[r].call in s.calls
  {
    s.calls[s.reqs[r].call := Post(s.calls[s.reqs[r].call], r)]
  }

  function Credit(s: State, r: nat, p: Phase): map<nat, Request>
    requires r in s.reqs
  {
    s.reqs[r := s.reqs[r].(phase := p, got := s.reqs[r].got + 1)]
  }

  function SetPhase(s: State, r: nat, p: Phase): map<nat, Request>
    requires r in s.reqs
  {
    s.reqs[r := s.reqs[r].(phase := p)]
  }

  /** dispatchRequest returns to its caller. */
  function Returned(calls: map<nat, Call>, c: nat): map<nat, Call>
    requires c in calls
  {
    calls[c := calls[c].(active := None)]
  }

  function Next(s: State, step: Step): State
    requires Enabled(s, step)
  {
    match step
    case NewCall(c, max) => s.(calls := s.calls[c := Call(max, None, 0, 0, 0, {}, {}, None)])
    case Register(r, id, c) =>
      var k := s.calls[c];
      s.(reqs := s.reqs[r := Request(id, c, Registered, 0)], inflight := s.inflight[id := r],
         calls := s.calls[c := k.(active := Some(r), dispatched := k.dispatched + 1, unanswered := k.unanswered + {r})])
    case SendOk(r) => s.(reqs := SetPhase(s, r, Sent), calls := Returned(s.calls, s.reqs[r].call))
    case SendFail(r) => s.(reqs := SetPhase(s, r, Failing))
    case Unregister(r) => s.(reqs := SetPhase(s, r, Reporting), inflight := s.inflight - {s.reqs[r].id})
    case Report(r) => s.(reqs := Credit(s, r, Reported), calls := Returned(PostTo(s, r), s.reqs[r].call))
    case Receive(sid) =>
      if sid in s.inflight then s.(loop := Delivering(s.inflight[sid]), inflight := s.inflight - {sid}, current := sid)
      else s.(loop := Closing)
    case ReceiveError => s.(loop := Closing)
    case Deliver =>
      s.(reqs := Credit(s, s.loop.r, Sent), calls := PostTo(s, s.loop.r), loop := Receiving,
         delivered := s.delivered + [Delivery(s.current, s.loop.r)])
    case CloseConn => s.(closed := true, loop := Snapshotting)
    case Snapshot =>
      s.(loop := Broadcasting(s.inflight.Values),
         calls := map c | c in s.calls :: s.calls[c].(suspect := s.calls[c].active))
    case Broadcast(r) => s.(reqs := Credit(s, r, s.reqs[r].phase), calls := PostTo(s, r),
                            loop := Broadcasting(s.loop.rest - {r}))
    case Stop => s.(loop := Stopped)
    case Take(c) => s.(calls := s.calls[c := s.calls[c].(received := s.calls[c].received + 1)])
  }

  // ---- the invariant ------------------------------------------------------------

  ghost predicate BeforeSnapshot(l: Loop) {
    l == Receiving || l.Delivering? || l == Closing || l == Snapshotting
  }

  ghost predicate CallOk(k: Call) {
    && k.max >= 1 && k.received <= k.posted && k.received <= k.dispatched <= k.received + k.max
    && k.posted + |k.unanswered| == k.dispatched + |k.twice|
    && k.unanswered !! k.twice
    && (forall r | r in k.twice :: k.suspect == Some(r))
  }

  ghost predicate Owned(s: State) {
    forall r | r in s.reqs :: s.reqs[r].call in s.calls
  }

  /** A caller dispatches one request at a time. */
  ghost predicate OneActive(s: State)
    requires Owned(s)
  {
    && (forall c | c in s.calls && s.calls[c].active.Some? ::
          var r := s.calls[c].active.value; r in s.reqs && s.reqs[r].call == c && Active(s.reqs[r].phase))
    && (forall r | r in s.reqs && Active(s.reqs[r].phase) :: s.calls[s.reqs[r].call].active == Some(r))
  }

  /** A caller's books name only its own requests. */
  ghost predicate Held(s: State) {
    forall c, r | c in s.calls && (r in s.calls[c].unanswered || r in s.calls[c].twice) ::
      r in s.reqs && s.reqs[r].call == c
  }

  ghost predicate InflightOk(s: State) {
    InflightPoints(s.reqs, s.inflight) && InflightHolds(s.reqs, s.inflight)
  }

  /** An entry of the map leads to the request with that id, which has not failed yet. */
  ghost predicate InflightPoints(reqs: map<nat, Request>, inflight: map<nat, nat>) {
    forall id | id in inflight ::
      && inflight[id] in reqs && reqs[inflight[id]].id == id
      && reqs[inflight[id]].phase != Reporting && reqs[inflight[id]].phase != Reported
  }

  /** A request whose send has not succeeded has its entry until it is deleted. */
  ghost predicate InflightHolds(reqs: map<nat, Request>, inflight: map<nat, nat>) {
    forall r | r in reqs && (reqs[r].phase == Registered || reqs[r].phase == Failing) ::
      reqs[r].id in inflight && inflight[reqs[r].id] == r
  }

  ghost predicate LoopOk(s: State) {
    && (s.loop.Delivering? ==> s.loop.r in s.reqs && s.reqs[s.loop.r].phase == Sent && s.loop.r !in s.inflight.Values)
    && (s.loop == Snapshotting || s.loop.Broadcasting? || s.loop == Stopped ==> s.closed)
    && (s.loop.Broadcasting? ==> s.loop.rest <= s.reqs.Keys)
  }

  /** What request q has been given so far, against what is still on its way to it. */
  ghost predicate Accounted(s: State, r: nat, q: Request, k: Call) {
    var waiting := r in k.unanswered;
    match q.phase
    case Sent =>
      && r !in k.twice
      && (waiting <==>
            if s.loop.Broadcasting? then r in s.loop.rest
            else s.loop != Stopped && ((q.id in s.inflight && s.inflight[q.id] == r) || s.loop == Delivering(r)))
    case Reported =>
      && !waiting
      && (BeforeSnapshot(s.loop) ==> r !in k.twice)
      && (s.loop.Broadcasting? && r in s.loop.rest ==> r !in k.twice && k.suspect == Some(r))
    case _ =>
      && r !in k.twice
      && (!waiting ==> k.suspect == Some(r) && !BeforeSnapshot(s.loop))
      && (s.loop.Broadcasting? && r in s.loop.rest ==> waiting && k.suspect == Some(r))
  }

  /** The per-request count agrees with the caller's books: no result yet, one, or two. */
  ghost predicate Tallied(r: nat, q: Request, k: Call) {
    q.got == if r in k.unanswered then 0 else if r in k.twice then 2 else 1
  }

  ghost predicate AllTallied(s: State)
    requires Owned(s)
  {
    forall r | r in s.reqs :: Tallied(r, s.reqs[r], s.calls[s.reqs[r].call])
  }

  ghost predicate AllAccounted(s: State)
    requires Owned(s)
  {
    forall r | r in s.reqs :: Accounted(s, r, s.reqs[r], s.calls[s.reqs[r].call])
  }

  ghost predicate Inv(s: State) {
    && Owned(s) && OneActive(s) && Held(s) && InflightOk(s) && LoopOk(s) && AllAccounted(s) && AllTallied(s)
    && (forall c | c in s.calls :: CallOk(s.calls[c]))
  }

  // ---- every step keeps every part of it -----------------------------------------

  ghost predicate Dispatches(step: Step) {
    step.Register? || step.SendOk? || step.SendFail? || step.Unregister?
  }

  ghost predicate Posts(step: Step) {
    step.Report? || step.Deliver? || step.Broadcast?
  }

  lemma OwnedKept(s: State, step: Step)
    requires Owned(s) && Enabled(s, step)
    ensures Owned(Next(s, step))
  {
  }

  lemma OneActiveDispatch(s: State, step: Step)
    requires Owned(s) && OneActive(s) && Enabled(s, step) && Owned(Next(s, step)) && Dispatches(step)
    ensures OneActive(Next(s, step))
  {
  }

  lemma OneActivePost(s: State, step: Step)
    requires Owned(s) && OneActive(s) && Enabled(s, step) && Owned(Next(s, step)) && Posts(step)
    ensures OneActive(Next(s, step))
  {
    hide Post;
  }

  lemma OneActiveKept(s: State, step: Step)
    requires Owned(s) && OneActive(s) && Enabled(s, step) && Owned(Next(s, step))
    ensures OneActive(Next(s, step))
  {
    if Dispatches(step) {
      hide OneActive, Next, Enabled;
      OneActiveDispatch(s, step);
    } else if Posts(step) {
      hide OneActive, Next, Enabled;
      OneActivePost(s, step);
    }
  }

  lemma HeldPost(s: State, step: Step)
    requires Held(s) && Enabled(s, step) && Posts(step)
    ensures Held(Next(s, step))
  {
  }

  lemma HeldKept(s: State, step: Step)
    requires Held(s) && Enabled(s, step)
    ensures Held(Next(s, step))
  {
    if Posts(step) {
      hide Held, Next, Enabled;
      HeldPost(s, step);
    }
  }

  lemma InflightKept(s: State, step: Step)
    requires InflightOk(s) && Enabled(s, step)
    ensures InflightOk(Next(s, step))
  {
    hide *;
    InflightPointsKept(s, step);
    InflightHoldsKept(s, step);
    InflightParts(s);
    InflightParts(Next(s, step));
  }

  lemma InflightParts(s: State)
    ensures InflightOk(s) <==> InflightPoints(s.reqs, s.inflight) && InflightHolds(s.reqs, s.inflight)
  {
  }

  lemma InflightPointsKept(s: State, step: Step)
    requires InflightOk(s) && Enabled(s, step)
    ensures InflightPoints(Next(s, step).reqs, Next(s, step).inflight)
  {
    hide PostTo, Post, Returned;
  }

  lemma InflightHoldsKept(s: State, step: Step)
    requires InflightOk(s) && Enabled(s, step)
    ensures InflightHolds(Next(s, step).reqs, Next(s, step).inflight)
  {
    hide PostTo, Post, Returned;
  }

  lemma LoopKept(s: State, step: Step)
    requires InflightOk(s) && LoopOk(s) && Enabled(s, step)
    ensures LoopOk(Next(s, step))
  {
    hide PostTo, Post, Returned;
  }

  lemma AccountedDispatch(s: State, step: Step, r: nat)
    requires Owned(s) && Held(s) && InflightOk(s) && LoopOk(s) && Enabled(s, step) && Dispatches(step)
    requires r in s.reqs ==> Accounted(s, r, s.reqs[r], s.calls[s.reqs[r].call])
    requires Owned(Next(s, step)) && r in Next(s, step).reqs
    ensures var s' := Next(s, step); Accounted(s', r, s'.reqs[r], s'.calls[s'.reqs[r].call])
  {
  }

  lemma AccountedPost(s: State, step: Step, r: nat)
    requires Owned(s) && Held(s) && InflightOk(s) && LoopOk(s) && Enabled(s, step) && Posts(step)
    requires r in s.reqs ==> Accounted(s, r, s.reqs[r], s.calls[s.reqs[r].call])
    requires Owned(Next(s, step)) && r in Next(s, step).reqs
    ensures var s' := Next(s, step); Accounted(s', r, s'.reqs[r], s'.calls[s'.reqs[r].call])
  {
  }

  lemma AccountedQuiet(s: State, step: Step, r: nat)
    requires Owned(s) && OneActive(s) && InflightOk(s) && LoopOk(s) && Enabled(s, step)
    requires !Posts(step) && !Dispatches(step)
    requires r in s.reqs ==> Accounted(s, r, s.reqs[r], s.calls[s.reqs[r].call])
    requires Owned(Next(s, step)) && r in Next(s, step).reqs
    ensures var s' := Next(s, step); Accounted(s', r, s'.reqs[r], s'.calls[s'.reqs[r].call])
  {
  }

  /** A result is posted either to a request that has none, or for the second time to the suspect. */
  lemma PostedOk(k: Call, r: nat)
    requires CallOk(k)
    requires r in k.unanswered || (r !in k.twice && k.suspect == Some(r))
    ensures CallOk(Post(k, r))
  {
    if r !in k.unanswered {
      assert k.twice == {};
    }
  }

  lemma CallsPost(s: State, step: Step, c: nat)
    requires Inv(s) && Enabled(s, step) && c in Next(s, step).calls && Posts(step)
    ensures CallOk(Next(s, step).calls[c])
  {
    var r := if step.Deliver? then s.loop.r else step.r;
    hide CallOk;
    assert Accounted(s, r, s.reqs[r], s.calls[s.reqs[r].call]);
    PostedOk(s.calls[s.reqs[r].call], r);
    ReturnKeeps(Post(s.calls[s.reqs[r].call], r));
  }

  lemma ReturnKeeps(k: Call)
    requires CallOk(k)
    ensures CallOk(k.(active := None))
  {
  }

  lemma NotTwice(s: State, r: nat, q: Request, k: Call)
    requires Accounted(s, r, q, k) && BeforeSnapshot(s.loop)
    ensures r !in k.twice
  {
  }

  lemma NoneTwice(s: State, c: nat)
    requires Inv(s) && c in s.calls && BeforeSnapshot(s.loop)
    ensures s.calls[c].twice == {}
  {
    hide OneActive, InflightOk, LoopOk, CallOk;
    forall r | r in s.reqs && s.reqs[r].call == c ensures r !in s.calls[c].twice {
      NotTwice(s, r, s.reqs[r], s.calls[c]);
    }
  }

  lemma RegisteredOk(k: Call, r: nat)
    requires CallOk(k) && r !in k.unanswered && r !in k.twice && k.dispatched < k.received + k.max
    ensures CallOk(k.(active := Some(r), dispatched := k.dispatched + 1, unanswered := k.unanswered + {r}))
  {
  }

  lemma TakenOk(k: Call)
    requires CallOk(k) && k.received < k.posted && k.received < k.dispatched
    ensures CallOk(k.(received := k.received + 1))
  {
  }

  lemma SnapshotOk(k: Call)
    requires CallOk(k) && k.twice == {}
    ensures CallOk(k.(suspect := k.active))
  {
  }

  lemma CallsKept(s: State, step: Step, c: nat)
    requires Inv(s) && Enabled(s, step) && c in Next(s, step).calls && !Posts(step)
    ensures CallOk(Next(s, step).calls[c])
  {
    hide CallOk, PostTo, Post, OneActive, InflightOk, LoopOk, AllAccounted, AllTallied, Credit, SetPhase;
    match step {
      case NewCall(_, max) => NewCallOk(max);
      case Register(r, _, c') =>
        if c' == c {
          RegisteredOk(s.calls[c], r);
        }
      case SendOk(r) => ReturnKeeps(s.calls[c]);
      case Snapshot =>
        NoneTwice(s, c);
        SnapshotOk(s.calls[c]);
      case Take(c') => TakenOk(s.calls[c']);
      case _ =>
    }
  }

  lemma NewCallOk(max: nat)
    requires max >= 1
    ensures CallOk(Call(max, None, 0, 0, 0, {}, {}, None))
  {
  }

  lemma TallyPost(s: State, step: Step, r: nat)
    requires Inv(s) && Enabled(s, step) && Owned(Next(s, step)) && r in Next(s, step).reqs && Posts(step)
    ensures var s' := Next(s, step); Tallied(r, s'.reqs[r], s'.calls[s'.reqs[r].call])
  {
    hide Held, OneActive, InflightOk, LoopOk, CallOk, AllAccounted, AllTallied;
    KnownAbout(s, r);
  }

  lemma TallyKept(s: State, step: Step, r: nat)
    requires Inv(s) && Enabled(s, step) && Owned(Next(s, step)) && r in Next(s, step).reqs && !Posts(step)
    ensures var s' := Next(s, step); Tallied(r, s'.reqs[r], s'.calls[s'.reqs[r].call])
  {
    hide OneActive, InflightOk, LoopOk, CallOk, AllAccounted, AllTallied, Accounted, Post, PostTo, Credit;
    if r in s.reqs {
      KnownAbout(s, r);
    }
  }

  lemma KnownAbout(s: State, r: nat)
    requires Inv(s) && r in s.reqs
    ensures
      var k := s.calls[s.reqs[r].call];
      Accounted(s, r, s.reqs[r], k) && Tallied(r, s.reqs[r], k) && k.unanswered !! k.twice
  {
  }

  lemma StepKeepsInv(s: State, step: Step)
    requires Inv(s) && Enabled(s, step)
    ensures Inv(Next(s, step))
  {
    hide Owned, OneActive, Held, InflightOk, LoopOk, CallOk, Accounted, Tallied, Next, Enabled, Posts, Dispatches;
    OwnedKept(s, step);
    OneActiveKept(s, step);
    HeldKept(s, step);
    InflightKept(s, step);
    LoopKept(s, step);
    var s' := Next(s, step);
    forall r | r in s'.reqs
      ensures Accounted(s', r, s'.reqs[r], s'.calls[s'.reqs[r].call])
    {
      if Dispatches(step) {
        AccountedDispatch(s, step, r);
      } else if Posts(step) {
        AccountedPost(s, step, r);
      } else {
        AccountedQuiet(s, step, r);
      }
    }
    forall r | r in s'.reqs
      ensures Tallied(r, s'.reqs[r], s'.calls[s'.reqs[r].call])
    {
      if Posts(step) {
        TallyPost(s, step, r);
      } else {
        TallyKept(s, step, r);
      }
    }
    forall c | c in s'.calls
      ensures CallOk(s'.calls[c])
    {
      if Posts(step) {
        CallsPost(s, step, c);
      } else {
        CallsKept(s, step, c);
      }
    }
  }

  // ---- every run ---------------------------------------------------------------------

  ghost predicate IsRun(s: State, steps: seq<Step>, s': State)
    decreases |steps|
  {
    if steps == [] then s == s' else Enabled(s, steps[0]) && IsRun(Next(s, steps[0]), steps[1..], s')
  }

  lemma {:induction false} RunKeepsInv(s: State, steps: seq<Step>, s': State)
    requires Inv(s) && IsRun(s, steps, s')
    ensures Inv(s')
    decreases |steps|
  {
    hide Inv, Next, Enabled;
    if steps != [] {
      StepKeepsInv(s, steps[0]);
      RunKeepsInv(Next(s, steps[0]), steps[1..], s');
    }
  }

  /** In every run, whoever is about to post a result finds room in the channel. */
  lemma NeverBlocks(steps: seq<Step>, s: State, step: Step)
    requires IsRun(INITIAL, steps, s) && Enabled(s, step) && Posts(step)
    ensures
      var r := if step.Deliver? then s.loop.r else step.r;
      var k := s.calls[s.reqs[r].call];
      k.posted - k.received < k.max + 1
  {
    RunKeepsInv(INITIAL, steps, s);
    StepKeepsInv(s, step);
    var r := if step.Deliver? then s.loop.r else step.r;
    var c, s' := s.reqs[r].call, Next(s, step);
    assert CallOk(s'.calls[c]);
    assert |s'.calls[c].twice| <= 1 by {
      AtMostOne(s'.calls[c]);
    }
  }

  lemma AtMostOne(k: Call)
    requires CallOk(k)
    ensures |k.twice| <= 1
  {
    if r :| r in k.twice {
      assert k.twice == {r};
    }
  }

  /** No request ever gets a third result, and only one that was being dispatched at the snapshot gets a second. */
  lemma AtMostTwo(steps: seq<Step>, s: State, r: nat)
    requires IsRun(INITIAL, steps, s) && r in s.reqs
    ensures s.reqs[r].got <= 2
    ensures s.reqs[r].got == 2 ==>
              s.reqs[r].call in s.calls && s.calls[s.reqs[r].call].suspect == Some(r) && s.reqs[r].phase == Reported
  {
    RunKeepsInv(INITIAL, steps, s);
    KnownAbout(s, r);
  }

  /** Once the receive loop has stopped and no dispatch is under way, every request has had its result. */
  lemma EveryoneAnswered(steps: seq<Step>, s: State, r: nat)
    requires IsRun(INITIAL, steps, s) && s.loop == Stopped
    requires r in s.reqs && !Active(s.reqs[r].phase)
    ensures 1 <= s.reqs[r].got <= 2
  {
    RunKeepsInv(INITIAL, steps, s);
    KnownAbout(s, r);
  }

  /** After the shutdown has begun, as long as some request is unanswered somebody can take the next step. */
  lemma ShutdownProceeds(steps: seq<Step>, s: State, r: nat) returns (step: Step)
    requires IsRun(INITIAL, steps, s) && s.loop != Receiving
    requires r in s.reqs && s.reqs[r].got == 0
    ensures Enabled(s, step) && !step.NewCall? && !step.Register? && !step.Take?
  {
    RunKeepsInv(INITIAL, steps, s);
    KnownAbout(s, r);
    match s.loop
    case Delivering(_) => step := Deliver;
    case Closing => step := CloseConn;
    case Snapshotting => step := Snapshot;
    case Broadcasting(rest) =>
      if r' :| r' in rest {
        step := Broadcast(r');
      } else {
        step := Stop;
      }
    case Stopped =>
      match s.reqs[r].phase
      case Registered => step := SendFail(r);
      case Failing => step := Unregister(r);
      case Reporting => step := Report(r);
  }

  // ---- every reply reaches its own request --------------------------------------------

  /** What the receive loop holds or has handed on went to the request with the id of the reply. */
  ghost predicate Matched(s: State) {
    && (s.loop.Delivering? ==> s.loop.r in s.reqs && s.reqs[s.loop.r].id == s.current)
    && (forall d | d in s.delivered :: d.r in s.reqs && s.reqs[d.r].id == d.sid)
  }

  /** A request keeps its id and its caller. */
  ghost predicate SameRequest(reqs: map<nat, Request>, reqs': map<nat, Request>, r: nat) {
    r in reqs ==> r in reqs' && reqs'[r].id == reqs[r].id && reqs'[r].call == reqs[r].call
  }

  lemma SameRequests(s: State, step: Step)
    requires Enabled(s, step)
    ensures forall r :: SameRequest(s.reqs, Next(s, step).reqs, r)
  {
    hide PostTo, Post, Returned;
  }

  lemma MatchedKept(s: State, step: Step)
    requires Enabled(s, step) && InflightPoints(s.reqs, s.inflight) && Matched(s)
    ensures Matched(Next(s, step))
  {
    SameRequests(s, step);
    var s' := Next(s, step);
    assert forall r | r in s.reqs :: SameRequest(s.reqs, s'.reqs, r);
    assert
      || s'.delivered == s.delivered
      || (step.Deliver? && s'.delivered == s.delivered + [Delivery(s.current, s.loop.r)]);
    assert s'.loop.Delivering? ==>
        || (s'.loop == s.loop && s'.current == s.current)
        || (step.Receive? && step.sid in s.inflight && s'.loop.r == s.inflight[step.sid] && s'.current == step.sid);
    hide Next, Enabled, SameRequest;
    forall r | r in s.reqs ensures r in s'.reqs && s'.reqs[r].id == s.reqs[r].id {
      Keeps(s.reqs, s'.reqs, r);
    }
  }

  lemma Keeps(reqs: map<nat, Request>, reqs': map<nat, Request>, r: nat)
    requires SameRequest(reqs, reqs', r) && r in reqs
    ensures r in reqs' && reqs'[r].id == reqs[r].id
  {
  }

  /** The ids of the replies that a run receives for outstanding requests, in order. */
  ghost function RepliesOf(s: State, steps: seq<Step>): seq<nat>
    decreases |steps|
  {
    if steps == [] || !Enabled(s, steps[0]) then []
    else
      var step := steps[0];
      (if step.Receive? && step.sid in s.inflight then [step.sid] else []) + RepliesOf(Next(s, step), steps[1..])
  }

  /** The ids of all replies taken off the wire so far. */
  ghost function Handed(s: State): seq<nat> {
    seq(|s.delivered|, i requires 0 <= i < |s.delivered| => s.delivered[i].sid)
    + if s.loop.Delivering? then [s.current] else []
  }

  lemma StepHands(s: State, step: Step)
    requires Enabled(s, step)
    ensures Handed(Next(s, step)) == Handed(s) + if step.Receive? && step.sid in s.inflight then [step.sid] else []
  {
    hide PostTo, Post, Returned, Credit, SetPhase;
    var s' := Next(s, step);
    if step.Deliver? {
      assert s'.delivered == s.delivered + [Delivery(s.current, s.loop.r)];
      assert Handed(s') == Handed(s);
    } else {
      assert s'.delivered == s.delivered;
    }
  }

  lemma {:induction false} RunMatches(s: State, steps: seq<Step>, s': State)
    requires Inv(s) && Matched(s) && IsRun(s, steps, s')
    ensures Matched(s') && Handed(s') == Handed(s) + RepliesOf(s, steps)
    decreases |steps|
  {
    hide Inv, Next, Enabled, Matched, Handed;
    if steps == [] {
      assert Handed(s) + [] == Handed(s);
    } else {
      PointsOf(s);
      StepKeepsInv(s, steps[0]);
      MatchedKept(s, steps[0]);
      StepHands(s, steps[0]);
      RunMatches(Next(s, steps[0]), steps[1..], s');
      var now := if steps[0].Receive? && steps[0].sid in s.inflight then [steps[0].sid] else [];
      Assoc(Handed(s), now, RepliesOf(Next(s, steps[0]), steps[1..]));
    }
  }

  lemma PointsOf(s: State)
    requires Inv(s)
    ensures InflightPoints(s.reqs, s.inflight)
  {
  }

  /**
    In every run the replies handed on are those received for outstanding requests, each once and in order (but for one
    still in the receive loop's hands), and each went to the request with the id that it carries.
   */
  lemma RepliesReachTheirRequests(steps: seq<Step>, s: State)
    requires IsRun(INITIAL, steps, s)
    ensures Handed(s) == RepliesOf(INITIAL, steps)
    ensures forall d | d in s.delivered :: d.r in s.reqs && s.reqs[d.r].id == d.sid
    ensures s.loop.Delivering? ==> s.loop.r in s.reqs && s.reqs[s.loop.r].id == s.current
  {
    InitialInv();
    assert Handed(INITIAL) == [] && Matched(INITIAL);
    hide Inv, IsRun, RepliesOf, Handed;
    RunMatches(INITIAL, steps, s);
    assert [] + RepliesOf(INITIAL, steps) == RepliesOf(INITIAL, steps);
  }

  /** Handing a reply on counts one result for its request, on its own caller's channel, and changes nobody else. */
  lemma DeliversToOne(steps: seq<Step>, s: State)
    requires IsRun(INITIAL, steps, s) && Enabled(s, Deliver)
    ensures
      var r, s' := s.loop.r, Next(s, Deliver);
      var c := s.reqs[r].call;
      && s.reqs[r].id == s.current && s'.delivered == s.delivered + [Delivery(s.current, r)]
      && s'.reqs == s.reqs[r := s'.reqs[r]] && s'.reqs[r].got == s.reqs[r].got + 1
      && s'.calls == s.calls[c := s'.calls[c]] && s'.calls[c].posted == s.calls[c].posted + 1
  {
    hide IsRun, INITIAL;
    RepliesReachTheirRequests(steps, s);
  }

  // ---- every shutdown comes to an end --------------------------------------------------

  /** Steps that start no call, dispatch no request and take no result: those of the connection itself. */
  predicate OwnStep(step: Step) {
    !step.NewCall? && !step.Register? && !step.Take?
  }

  ghost function In(reqs: map<nat, Request>, p: Phase): set<nat> {
    set r | r in reqs && reqs[r].phase == p
  }

  ghost function DispatchWork(reqs: map<nat, Request>): nat {
    3 * |In(reqs, Registered)| + 2 * |In(reqs, Failing)| + |In(reqs, Reporting)|
  }

  ghost function LoopWork(loop: Loop, inflight: nat): nat {
    match loop
    case Receiving => inflight + 5
    case Delivering(_) => inflight + 6
    case Closing => inflight + 4
    case Snapshotting => inflight + 3
    case Broadcasting(rest) => |rest| + 1
    case Stopped => 0
  }

  /** An upper bound on the number of steps the connection can take on its own. */
  ghost function Work(s: State): nat {
    DispatchWork(s.reqs) + 2 * |s.inflight| + LoopWork(s.loop, |s.inflight|)
  }

  lemma OneOfThem(reqs: map<nat, Request>, r: nat, p: Phase, others: set<nat>)
    requires r in reqs && forall k :: k in others <==> k in reqs && k != r && reqs[k].phase == p
    ensures |In(reqs, p)| == |others| + if reqs[r].phase == p then 1 else 0
  {
    assert In(reqs, p) == if reqs[r].phase == p then others + {r} else others;
  }

  lemma PhaseMoves(reqs: map<nat, Request>, r: nat, q: Request, p: Phase)
    requires r in reqs
    ensures |In(reqs[r := q], p)|
         == |In(reqs, p)| + (if q.phase == p then 1 else 0) - (if reqs[r].phase == p then 1 else 0)
  {
    var others := set k | k in reqs && k != r && reqs[k].phase == p;
    OneOfThem(reqs, r, p, others);
    OneOfThem(reqs[r := q], r, p, others);
  }

  lemma DispatchMoves(reqs: map<nat, Request>, r: nat, q: Request)
    requires r in reqs
    ensures q.phase == reqs[r].phase ==> DispatchWork(reqs[r := q]) == DispatchWork(reqs)
    ensures
      || (reqs[r].phase == Registered && (q.phase == Sent || q.phase == Failing))
      || (reqs[r].phase == Failing && q.phase == Reporting)
      || (reqs[r].phase == Reporting && q.phase == Reported) ==>
        DispatchWork(reqs[r := q]) < DispatchWork(reqs)
  {
    PhaseMoves(reqs, r, q, Registered);
    PhaseMoves(reqs, r, q, Failing);
    PhaseMoves(reqs, r, q, Reporting);
    hide In;
  }

  lemma {:induction false} FewValues(m: map<nat, nat>)
    ensures |m.Values| <= |m|
  {
    if m != map[] {
      var k :| k in m;
      var m' := m - {k};
      FewValues(m');
      assert m'.Keys == m.Keys - {k};
      assert m.Values <= m'.Values + {m[k]} by {
        forall v | v in m.Values ensures v in m'.Values + {m[k]} {
          var j :| j in m && m[j] == v;
          assert j != k ==> j in m' && m'[j] == v;
        }
      }
      Smaller(m.Values, m'.Values + {m[k]});
    }
  }

  lemma {:induction false} Smaller(a: set<nat>, b: set<nat>)
    requires a <= b
    ensures |a| <= |b|
  {
    if a != {} {
      var x :| x in a;
      Smaller(a - {x}, b - {x});
    }
  }

  lemma Fewer(m: map<nat, nat>, k: nat)
    ensures |m - {k}| == if k in m then |m| - 1 else |m|
  {
    assert (m - {k}).Keys == m.Keys - {k};
  }

  lemma DispatchShrinks(s: State, step: Step)
    requires Enabled(s, step) && (step.SendOk? || step.SendFail? || step.Unregister? || step.Report?)
    ensures Work(Next(s, step)) < Work(s)
  {
    hide PostTo, Post, Returned, DispatchWork;
    var r, s' := step.r, Next(s, step);
    DispatchMoves(s.reqs, r, s'.reqs[r]);
    Fewer(s.inflight, s.reqs[r].id);
    assert s'.reqs == s.reqs[r := s'.reqs[r]] && s'.loop == s.loop;
    assert |s'.inflight| <= |s.inflight|;
  }

  lemma PostShrinks(s: State, step: Step)
    requires Enabled(s, step) && (step.Deliver? || step.Broadcast?)
    ensures Work(Next(s, step)) < Work(s)
  {
    hide PostTo, Post, Returned, DispatchWork;
    var r, s' := if step.Deliver? then s.loop.r else step.r, Next(s, step);
    DispatchMoves(s.reqs, r, s'.reqs[r]);
    assert s'.reqs == s.reqs[r := s'.reqs[r]] && s'.inflight == s.inflight;
  }

  lemma LoopShrinks(s: State, step: Step)
    requires Enabled(s, step)
    requires (step.Receive? || step.ReceiveError? || step.CloseConn? || step.Snapshot? || step.Stop?)
    ensures Work(Next(s, step)) < Work(s)
  {
    hide PostTo, Post, Returned, DispatchWork, Credit, SetPhase;
    var s' := Next(s, step);
    assert s'.reqs == s.reqs;
    if step.Receive? {
      Fewer(s.inflight, step.sid);
    } else if step.Snapshot? {
      FewValues(s.inflight);
    }
  }

  lemma StepShrinks(s: State, step: Step)
    requires Enabled(s, step) && OwnStep(step)
    ensures Work(Next(s, step)) < Work(s)
  {
    hide Work, Next;
    if step.SendOk? || step.SendFail? || step.Unregister? || step.Report? {
      DispatchShrinks(s, step);
    } else if step.Deliver? || step.Broadcast? {
      PostShrinks(s, step);
    } else {
      LoopShrinks(s, step);
    }
  }

  lemma {:induction false} RunShrinks(s: State, steps: seq<Step>, s': State)
    requires IsRun(s, steps, s') && forall x | x in steps :: OwnStep(x)
    ensures |steps| <= Work(s) - Work(s')
    decreases |steps|
  {
    hide Next, Enabled, Work;
    if steps != [] {
      FirstIn(steps);
      StepShrinks(s, steps[0]);
      RunShrinks(Next(s, steps[0]), steps[1..], s');
    }
  }

  /**
    Whatever state the connection is in, it can take a step of its own until it has stopped and every dispatch is
    over.
   */
  lemma OwnStepLeft(s: State) returns (step: Step)
    requires Inv(s) && (s.loop != Stopped || exists r :: r in s.reqs && Active(s.reqs[r].phase))
    ensures Enabled(s, step) && OwnStep(step)
  {
    hide Held, OneActive, AllAccounted, AllTallied, CallOk;
    match s.loop
    case Receiving => step := ReceiveError;
    case Delivering(_) => step := Deliver;
    case Closing => step := CloseConn;
    case Snapshotting => step := Snapshot;
    case Broadcasting(rest) =>
      if r :| r in rest {
        step := Broadcast(r);
      } else {
        step := Stop;
      }
    case Stopped =>
      var r :| r in s.reqs && Active(s.reqs[r].phase);
      match s.reqs[r].phase
      case Registered => step := SendFail(r);
      case Failing => step := Unregister(r);
      case Reporting => step := Report(r);
  }

  /**
    From every reachable state, however its goroutines are scheduled, the connection takes boundedly many steps of its
    own, and when none is left it has shut down and every request has had its one or two results.
   */
  lemma ShutdownEnds(before: seq<Step>, s: State, after: seq<Step>, s': State)
    requires IsRun(INITIAL, before, s)
    requires IsRun(s, after, s') && forall x | x in after :: OwnStep(x)
    ensures |after| <= Work(s)
    ensures (forall step | OwnStep(step) :: !Enabled(s', step)) ==>
              s'.loop == Stopped && forall r | r in s'.reqs :: 1 <= s'.reqs[r].got <= 2
  {
    hide IsRun, INITIAL, Next, Enabled, Work, Inv;
    assert Inv(s) by {
      InitialInv();
      RunKeepsInv(INITIAL, before, s);
    }
    RunShrinks(s, after, s');
    RunKeepsInv(s, after, s');
    if s'.loop != Stopped || exists r :: r in s'.reqs && Active(s'.reqs[r].phase) {
      var step := OwnStepLeft(s');
    } else {
      forall r | r in s'.reqs ensures 1 <= s'.reqs[r].got <= 2 {
        AnsweredAtEnd(s', r);
      }
    }
  }

  lemma AnsweredAtEnd(s: State, r: nat)
    requires Inv(s) && s.loop == Stopped && r in s.reqs && !Active(s.reqs[r].phase)
    ensures 1 <= s.reqs[r].got <= 2
  {
    KnownAbout(s, r);
  }

  lemma InitialInv()
    ensures Inv(INITIAL)
  {
  }

  lemma EmptyRun(s: State)
    ensures IsRun(s, [], s)
  {
  }

  lemma {:induction false} RunThen(s: State, steps: seq<Step>, s': State, step: Step)
    requires IsRun(s, steps, s') && Enabled(s', step)
    ensures IsRun(s, steps + [step], Next(s', step))
    decreases |steps|
  {
    hide Enabled, Next;
    if steps == [] {
      assert IsRun(Next(s, step), [], Next(s, step));
    } else {
      RunThen(Next(s, steps[0]), steps[1..], s', step);
      assert (steps + [step])[1..] == steps[1..] + [step];
    }
  }

  lemma Extend(steps: seq<Step>, s: State, step: Step) returns (steps': seq<Step>, s': State)
    requires IsRun(INITIAL, steps, s) && Enabled(s, step)
    ensures IsRun(INITIAL, steps', s') && s' == Next(s, step)
  {
    RunThen(INITIAL, steps, s, step);
    steps', s' := steps + [step], Next(s, step);
  }

  /**
    The second result does happen, so a channel without the extra slot would block: the broadcast overtakes a failing
    send.
   */
  lemma TwoResultsHappen() returns (steps: seq<Step>, s: State)
    ensures IsRun(INITIAL, steps, s)
    ensures 0 in s.reqs && s.reqs[0].got == 2
    ensures 0 in s.calls && s.calls[0].posted - s.calls[0].received == s.calls[0].max + 1
  {
    hide IsRun;
    steps, s := [], INITIAL;
    EmptyRun(s);
    steps, s := Extend(steps, s, NewCall(0, 1));
    steps, s := Extend(steps, s, Register(0, 7, 0));
    steps, s := Extend(steps, s, ReceiveError);
    steps, s := Extend(steps, s, CloseConn);
    assert s.inflight[7] == 0;
    steps, s := Extend(steps, s, Snapshot);
    steps, s := Extend(steps, s, SendFail(0));
    steps, s := Extend(steps, s, Broadcast(0));
    steps, s := Extend(steps, s, Unregister(0));
    steps, s := Extend(steps, s, Report(0));
  }
}
