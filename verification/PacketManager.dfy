/**
  The controller of the packet manager: requests and responses arrive in some order, the two queues are kept
  sorted by order id, and a response goes out when it matches the oldest unanswered request.
 */
module PacketManager {
  import opened Prelude

  /** An ordered request or response: its order id and the protocol id it carries. */
  datatype Ordered = Ordered(oid: nat, id: nat)

  datatype Queues = Queues(incoming: seq<Ordered>, outgoing: seq<Ordered>, sent: seq<Ordered>)

  const NO_QUEUES := Queues([], [], [])

  // ---- orderedPackets.Sort -----------------------------------------------------------

  function Insert(s: seq<Ordered>, p: Ordered): seq<Ordered> {
    if s == [] || s[|s| - 1].oid <= p.oid then s + [p] else Insert(s[..|s| - 1], p) + [s[|s| - 1]]
  }

  function Sort(s: seq<Ordered>): seq<Ordered> {
    if s == [] then [] else Insert(Sort(s[..|s| - 1]), s[|s| - 1])
  }

  ghost predicate Ascending(s: seq<Ordered>) {
    forall i, j | 0 <= i < j < |s| :: s[i].oid < s[j].oid
  }

  lemma InsertPlaces(s: seq<Ordered>, p: Ordered)
    requires Ascending(s) && forall x | x in s :: x.oid != p.oid
    ensures Ascending(Insert(s, p)) && |Insert(s, p)| == |s| + 1
    ensures forall x :: x in Insert(s, p) <==> x in s || x == p
  {
    var k := InsertAt(s, p);
    hide Insert, Ascending;
    InsertedAscending(s, k, p);
    InsertedElements(s, k, p);
  }

  lemma InsertedAscending(s: seq<Ordered>, k: nat, p: Ordered)
    requires Ascending(s) && k <= |s|
    requires forall i | 0 <= i < k :: s[i].oid < p.oid
    requires forall i | k <= i < |s| :: s[i].oid > p.oid
    ensures Ascending(s[..k] + [p] + s[k..])
  {
    var r := s[..k] + [p] + s[k..];
    assert forall i | 0 <= i < |r| :: r[i] == if i < k then s[i] else if i == k then p else s[i - 1];
  }

  lemma InsertedElements(s: seq<Ordered>, k: nat, p: Ordered)
    requires k <= |s|
    ensures forall x :: x in s[..k] + [p] + s[k..] <==> x in s || x == p
  {
    assert s == s[..k] + s[k..];
  }

  /** Insert puts p right before the first packet with a higher order id. */
  lemma {:induction false} InsertAt(s: seq<Ordered>, p: Ordered) returns (k: nat)
    requires Ascending(s) && forall x | x in s :: x.oid != p.oid
    ensures k <= |s| && Insert(s, p) == s[..k] + [p] + s[k..]
    ensures forall i | 0 <= i < k :: s[i].oid < p.oid
    ensures forall i | k <= i < |s| :: s[i].oid > p.oid
  {
    var n := |s| - 1;
    if s == [] || s[n].oid <= p.oid {
      k := |s|;
    } else {
      k := InsertAt(s[..n], p);
      assert Insert(s, p) == s[..n][..k] + [p] + s[..n][k..] + [s[n]];
      hide Insert;
      assert s[..n][..k] == s[..k] && s[..n][k..] + [s[n]] == s[k..];
    }
  }

  lemma InsertLast(s: seq<Ordered>, p: Ordered)
    requires s == [] || s[|s| - 1].oid <= p.oid
    ensures Insert(s, p) == s + [p]
  {
  }

  lemma SortLength(s: seq<Ordered>)
    ensures |Sort(s)| == |s|
  {
    if s != [] {
      SortLength(s[..|s| - 1]);
      InsertLength(Sort(s[..|s| - 1]), s[|s| - 1]);
    }
  }

  lemma InsertLength(s: seq<Ordered>, p: Ordered)
    ensures |Insert(s, p)| == |s| + 1
  {
  }

  lemma {:induction false} SortKeeps(s: seq<Ordered>)
    requires Ascending(s)
    ensures Sort(s) == s
  {
    hide Insert;
    if s == [] {
    } else {
      var n := |s| - 1;
      SortKeeps(s[..n]);
      InsertLast(s[..n], s[n]);
      assert s == s[..n] + [s[n]];
    }
  }

  /** Sorting a sorted queue with one packet appended puts that packet in its place. */
  lemma SortAppended(s: seq<Ordered>, p: Ordered)
    requires Ascending(s)
    ensures Sort(s + [p]) == Insert(s, p)
  {
    hide Insert, Ascending;
    SortKeeps(s);
    assert (s + [p])[..|s|] == s;
  }

  // ---- the controller ------------------------------------------------------------------

  /** Whether maybeSendPackets would send. */
  predicate HeadsMatch(q: Queues) {
    q.incoming != [] && q.outgoing != [] && q.incoming[0].oid == q.outgoing[0].oid
  }

  function SendHead(q: Queues): Queues
    requires HeadsMatch(q)
  {
    Queues(q.incoming[1..], q.outgoing[1..], q.sent + [q.outgoing[0]])
  }

  function Drain(q: Queues): Queues
    decreases |q.incoming|
  {
    if HeadsMatch(q) then Drain(SendHead(q)) else q
  }

  datatype Event = Request(p: Ordered) | Response(p: Ordered)

  function Receive(q: Queues, e: Event): Queues {
    match e
    case Request(p) => q.(incoming := Sort(q.incoming + [p]))
    case Response(p) => q.(outgoing := Sort(q.outgoing + [p]))
  }

  function Run(es: seq<Event>): Queues {
    if es == [] then NO_QUEUES else Drain(Receive(Run(es[..|es| - 1]), es[|es| - 1]))
  }

  /** The controller's fields; `sent` is what has been passed to the sender. */
  class Controller {
    var incoming: seq<Ordered>
    var outgoing: seq<Ordered>
    var sent: seq<Ordered>

    ghost function State(): Queues
      reads this
    {
      Queues(incoming, outgoing, sent)
    }

    constructor ()
      ensures State() == NO_QUEUES
    {
      incoming, outgoing, sent := [], [], [];
    }

    /** One turn of the controller's select loop. */
    method Handle(e: Event)
      modifies this
      ensures State() == Drain(Receive(old(State()), e))
    {
      match e {
        case Request(p) => incoming := Sort(incoming + [p]);
        case Response(p) => outgoing := Sort(outgoing + [p]);
      }
      MaybeSendPackets();
    }

    method MaybeSendPackets()
      modifies this
      ensures State() == Drain(old(State()))
    {
      while true
        invariant Drain(State()) == Drain(old(State()))
        decreases |incoming|
      {
        if |outgoing| == 0 || |incoming| == 0 {
          break;
        }
        var out, in' := outgoing[0], incoming[0];
        if in'.oid == out.oid {
          sent := sent + [out];
          incoming := incoming[1..];
          outgoing := outgoing[1..];
        } else {
          break;
        }
      }
    }
  }

  // ---- order restored ---------------------------------------------------------------------

  function RequestsOf(es: seq<Event>): seq<Ordered> {
    if es == [] then []
    else
      var e, before := es[|es| - 1], RequestsOf(es[..|es| - 1]);
      if e.Request? then before + [e.p] else before
  }

  function ResponsesOf(es: seq<Event>): seq<Ordered> {
    if es == [] then []
    else
      var e, before := es[|es| - 1], ResponsesOf(es[..|es| - 1]);
      if e.Response? then before + [e.p] else before
  }

  /** The packets carry the order ids 1, 2, 3, ... */
  ghost predicate Numbered(s: seq<Ordered>) {
    forall i | 0 <= i < |s| :: s[i].oid == i + 1
  }

  /** No request is answered twice, and order ids start at 1. */
  ghost predicate Distinct(s: seq<Ordered>) {
    && (forall i, j | 0 <= i < j < |s| :: s[i].oid != s[j].oid)
    && (forall i | 0 <= i < |s| :: s[i].oid >= 1)
  }

  ghost predicate Answered(resps: seq<Ordered>, oid: nat) {
    exists x :: x in resps && x.oid == oid
  }

  ghost predicate Restores(q: Queues, reqs: seq<Ordered>, resps: seq<Ordered>) {
    && |q.sent| <= |reqs| && q.incoming == reqs[|q.sent|..]
    && Numbered(q.sent)
    && Ascending(q.outgoing)
    && (forall x | x in q.outgoing :: x.oid > |q.sent|)
    && (forall x :: x in resps <==> x in q.sent || x in q.outgoing)
  }

  lemma {:induction false} DrainRestores(q: Queues, reqs: seq<Ordered>, resps: seq<Ordered>)
    requires Restores(q, reqs, resps) && Numbered(reqs)
    ensures Restores(Drain(q), reqs, resps) && !HeadsMatch(Drain(q))
    decreases |q.incoming|
  {
    if HeadsMatch(q) {
      var q' := SendHead(q);
      SendRestores(q, reqs, resps);
      DrainRestores(q', reqs, resps);
    }
  }

  lemma SendRestores(q: Queues, reqs: seq<Ordered>, resps: seq<Ordered>)
    requires Restores(q, reqs, resps) && Numbered(reqs) && HeadsMatch(q)
    ensures Restores(SendHead(q), reqs, resps)
    ensures q.outgoing[0].oid == |q.sent| + 1
  {
    var k := |q.sent|;
    assert q.incoming[0] == reqs[k];
    assert q.outgoing == [q.outgoing[0]] + q.outgoing[1..];
    assert reqs[k..][1..] == reqs[k + 1..];
    forall x | x in q.outgoing[1..] ensures x.oid > k + 1 {
      var i :| 0 <= i < |q.outgoing[1..]| && q.outgoing[1..][i] == x;
      assert q.outgoing[0].oid < q.outgoing[i + 1].oid;
    }
  }

  lemma RequestRestores(q: Queues, reqs: seq<Ordered>, resps: seq<Ordered>, p: Ordered)
    requires Restores(q, reqs, resps) && Numbered(reqs + [p])
    ensures Restores(Receive(q, Request(p)), reqs + [p], resps)
  {
    hide Sort, Insert;
    var k, all := |q.sent|, reqs + [p];
    assert p == all[|reqs|];
    forall i | 0 <= i < |q.incoming| ensures q.incoming[i].oid == k + i + 1 {
      assert q.incoming[i] == all[k + i];
    }
    SortAppended(q.incoming, p);
    InsertLast(q.incoming, p);
    assert reqs[k..] + [p] == all[k..];
  }

  lemma ResponseRestores(q: Queues, reqs: seq<Ordered>, resps: seq<Ordered>, p: Ordered)
    requires Restores(q, reqs, resps) && Distinct(resps + [p])
    ensures Restores(Receive(q, Response(p)), reqs, resps + [p])
  {
    var k, all := |q.sent|, resps + [p];
    assert p == all[|resps|];
    forall x | x in resps ensures x.oid != p.oid {
      var i :| 0 <= i < |resps| && resps[i] == x;
      assert all[i] == x;
    }
    assert p.oid > k by {
      assert forall i | 0 <= i < k :: q.sent[i] in q.sent && q.sent[i].oid == i + 1;
      assert 1 <= p.oid <= k ==> q.sent[p.oid - 1].oid == p.oid;
    }
    SortAppended(q.outgoing, p);
    InsertPlaces(q.outgoing, p);
  }

  /**
    Whatever way requests and responses interleave, even a response before its own request: as long as the requests
    come numbered in arrival order and no request is answered twice, the packets sent are numbered 1, 2, 3, ...,
    each one a response that was received.
   */
  lemma {:induction false} OrderRestored(es: seq<Event>)
    requires Numbered(RequestsOf(es)) && Distinct(ResponsesOf(es))
    ensures Restores(Run(es), RequestsOf(es), ResponsesOf(es)) && !HeadsMatch(Run(es))
    ensures Numbered(Run(es).sent)
  {
    if es == [] {
    } else {
      hide Drain, Receive, HeadsMatch, Restores;
      var before, e := es[..|es| - 1], es[|es| - 1];
      assert Numbered(RequestsOf(before)) by {
        assert forall i | 0 <= i < |RequestsOf(before)| :: RequestsOf(before)[i] == RequestsOf(es)[i];
      }
      assert Distinct(ResponsesOf(before)) by {
        assert forall i | 0 <= i < |ResponsesOf(before)| :: ResponsesOf(before)[i] == ResponsesOf(es)[i];
      }
      OrderRestored(before);
      match e {
        case Request(p) => RequestRestores(Run(before), RequestsOf(before), ResponsesOf(before), p);
        case Response(p) => ResponseRestores(Run(before), RequestsOf(before), ResponsesOf(before), p);
      }
      DrainRestores(Receive(Run(before), e), RequestsOf(es), ResponsesOf(es));
      SentNumbered(Run(es), RequestsOf(es), ResponsesOf(es));
    }
  }

  lemma SentNumbered(q: Queues, reqs: seq<Ordered>, resps: seq<Ordered>)
    requires Restores(q, reqs, resps)
    ensures Numbered(q.sent)
  {
  }

  lemma LowestFirst(s: seq<Ordered>, i: nat)
    requires Ascending(s) && i < |s|
    ensures s[0].oid <= s[i].oid
  {
  }

  lemma HeadAnswered(q: Queues, reqs: seq<Ordered>, resps: seq<Ordered>)
    requires Restores(q, reqs, resps) && Numbered(reqs)
    requires |q.sent| < |reqs| && Answered(resps, |q.sent| + 1)
    ensures HeadsMatch(q)
  {
    var k := |q.sent|;
    var x :| x in resps && x.oid == k + 1;
    assert x !in q.sent by {
      assert forall i | 0 <= i < k :: q.sent[i].oid == i + 1;
    }
    var i :| 0 <= i < |q.outgoing| && q.outgoing[i] == x;
    assert q.outgoing[0] in q.outgoing;
    LowestFirst(q.outgoing, i);
    assert q.incoming[0] == reqs[k];
  }

  /** Once every request has been answered and everything has been received, nothing is left in either queue. */
  lemma AllSent(q: Queues, reqs: seq<Ordered>, resps: seq<Ordered>)
    requires Restores(q, reqs, resps) && Numbered(reqs) && !HeadsMatch(q)
    requires forall i | 1 <= i <= |reqs| :: Answered(resps, i)
    requires forall x | x in resps :: x.oid <= |reqs|
    ensures q.incoming == [] && q.outgoing == [] && |q.sent| == |reqs|
  {
    hide HeadsMatch, Answered, Numbered;
    if |q.sent| < |reqs| {
      HeadAnswered(q, reqs, resps);
    }
    assert forall x | x in q.outgoing :: x in resps && x.oid > |reqs|;
    NoElements(q.outgoing);
  }

  lemma QueuesEmpty(es: seq<Event>)
    requires Numbered(RequestsOf(es)) && Distinct(ResponsesOf(es))
    requires forall i | 1 <= i <= |RequestsOf(es)| :: Answered(ResponsesOf(es), i)
    requires forall x | x in ResponsesOf(es) :: x.oid <= |RequestsOf(es)|
    ensures Run(es).incoming == [] && Run(es).outgoing == [] && |Run(es).sent| == |RequestsOf(es)|
  {
    hide *;
    OrderRestored(es);
    AllSent(Run(es), RequestsOf(es), ResponsesOf(es));
  }

  // ---- the condition on the requests is needed -----------------------------------------------

  /** Every request immediately followed by its response. */
  function Lockstep(reqs: seq<Ordered>): seq<Event> {
    if reqs == [] then [] else Lockstep(reqs[..|reqs| - 1]) + [Request(reqs[|reqs| - 1]), Response(reqs[|reqs| - 1])]
  }

  lemma RequestThenResponse(sent: seq<Ordered>, p: Ordered)
    ensures Drain(Receive(Queues([], [], sent), Request(p))) == Queues([p], [], sent)
    ensures Drain(Receive(Queues([p], [], sent), Response(p))) == Queues([], [], sent + [p])
  {
    SortAppended([], p);
    assert [] + [p] == [p];
    var q := Queues([p], [p], sent);
    assert SendHead(q) == Queues([], [], sent + [p]);
    assert Drain(q) == Drain(SendHead(q));
  }

  lemma RunSplit(es: seq<Event>, e: Event)
    ensures Run(es + [e]) == Drain(Receive(Run(es), e))
    ensures RequestsOf(es + [e]) == RequestsOf(es) + (if e.Request? then [e.p] else [])
    ensures ResponsesOf(es + [e]) == ResponsesOf(es) + (if e.Response? then [e.p] else [])
  {
    assert (es + [e])[..|es|] == es;
  }

  lemma {:induction false} LockstepSends(reqs: seq<Ordered>)
    ensures Run(Lockstep(reqs)) == Queues([], [], reqs)
    ensures RequestsOf(Lockstep(reqs)) == reqs && ResponsesOf(Lockstep(reqs)) == reqs
  {
    if reqs == [] {
    } else {
      hide Drain, Receive, RequestsOf, ResponsesOf, Run;
      var before, p := reqs[..|reqs| - 1], reqs[|reqs| - 1];
      var es := Lockstep(before);
      LockstepSends(before);
      RequestThenResponse(before, p);
      RunSplit(es, Request(p));
      RunSplit(es + [Request(p)], Response(p));
      assert es + [Request(p)] + [Response(p)] == Lockstep(reqs);
      assert before + [p] == reqs;
    }
  }

  /**
    The order of the requests matters: responses leave in order under every schedule exactly when the controller
    receives the requests numbered in arrival order. (With request 2 and its response ahead of request 1,
    response 2 is sent first.)
   */
  lemma OrderExactly(reqs: seq<Ordered>)
    requires Distinct(reqs)
    ensures (forall es | RequestsOf(es) == reqs && Distinct(ResponsesOf(es)) :: Numbered(Run(es).sent)) <==>
              Numbered(reqs)
  {
    if Numbered(reqs) {
      forall es | RequestsOf(es) == reqs && Distinct(ResponsesOf(es)) ensures Numbered(Run(es).sent) {
        OrderRestored(es);
      }
    } else {
      LockstepSends(reqs);
      assert !Numbered(Run(Lockstep(reqs)).sent);
    }
  }
}
