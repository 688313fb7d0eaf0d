/**
  The page allocator of the server. A page stands for one 256 KiB slice and is known by the number of its
  allocation; the allocator moves pages between `available` and the `used` entry of a request order id.
 */
module Allocator {
  import opened Prelude

  datatype Pool = Pool(available: seq<nat>, used: map<nat, seq<nat>>, created: nat)

  const EMPTY_POOL := Pool([], map[], 0)

  function UsedBy(p: Pool, oid: nat): seq<nat> {
    if oid in p.used then p.used[oid] else []
  }

  /** The page GetPage hands out: the last available one, or a new one. */
  function PageOf(p: Pool): nat {
    if |p.available| > 0 then p.available[|p.available| - 1] else p.created
  }

  function Taken(p: Pool, oid: nat): Pool {
    var used := p.used[oid := UsedBy(p, oid) + [PageOf(p)]];
    if |p.available| > 0 then p.(available := p.available[..|p.available| - 1], used := used)
    else p.(used := used, created := p.created + 1)
  }

  function Released(p: Pool, oid: nat): Pool {
    p.(available := p.available + UsedBy(p, oid), used := p.used - {oid})
  }

  // ---- conservation ------------------------------------------------------------------

  ghost predicate NoDup(s: seq<nat>) {
    forall i, j | 0 <= i < j < |s| :: s[i] != s[j]
  }

  /** Page x is in the `used` entry of order id k. */
  ghost predicate Uses(p: Pool, k: nat, x: nat) {
    k in p.used && x in p.used[k]
  }

  ghost function InUse(p: Pool): set<nat> {
    set k, x | k in p.used && x in p.used[k] :: x
  }

  /** All pages are distinct, and each lies in `available` or in exactly one `used` entry. */
  ghost predicate Conserved(p: Pool) {
    && NoDup(p.available)
    && (forall k | k in p.used :: NoDup(p.used[k]))
    && (forall k: nat, x: nat | Uses(p, k, x) :: x !in p.available && x < p.created)
    && (forall k: nat, l: nat, x: nat | Uses(p, k, x) && Uses(p, l, x) :: k == l)
    && (forall x | x in p.available :: x < p.created)
    && (forall x | 0 <= x < p.created :: x in p.available || x in InUse(p))
  }

  lemma InUseBy(p: Pool, x: nat) returns (k: nat)
    requires x in InUse(p)
    ensures Uses(p, k, x)
  {
    var j :| j in p.used && x in p.used[j];
    k := j;
  }

  /** What GetPage changes: one page, not in use before, is now used by oid and by nobody else. */
  lemma AfterGet(p: Pool, oid: nat)
    requires Conserved(p)
    ensures forall k: nat, x: nat :: Uses(Taken(p, oid), k, x) <==> Uses(p, k, x) || (k == oid && x == PageOf(p))
    ensures forall x: nat :: x in Taken(p, oid).available <==> x in p.available && x != PageOf(p)
    ensures forall k: nat :: !Uses(p, k, PageOf(p))
    ensures PageOf(p) < Taken(p, oid).created
  {
    var q := Taken(p, oid);
    assert q.used[oid] == UsedBy(p, oid) + [PageOf(p)];
    if |p.available| > 0 {
      var n := |p.available| - 1;
      assert p.available == p.available[..n] + [p.available[n]];
      assert PageOf(p) in p.available;
    }
  }

  lemma GetInUse(p: Pool, oid: nat)
    requires Conserved(p)
    ensures InUse(Taken(p, oid)) == InUse(p) + {PageOf(p)} && PageOf(p) !in InUse(p)
  {
    var q := Taken(p, oid);
    AfterGet(p, oid);
    forall x | x in InUse(q) ensures x in InUse(p) + {PageOf(p)} {
      var k := InUseBy(q, x);
      assert Uses(q, k, x);
    }
    forall x | x in InUse(p) + {PageOf(p)} ensures x in InUse(q) {
      if x in InUse(p) {
        var k := InUseBy(p, x);
        assert Uses(q, k, x);
      } else {
        assert Uses(q, oid, x);
      }
    }
    forall x | x in InUse(p) ensures x != PageOf(p) {
      var k := InUseBy(p, x);
    }
  }

  lemma GetKeeps(p: Pool, oid: nat)
    requires Conserved(p)
    ensures Conserved(Taken(p, oid))
  {
    var q := Taken(p, oid);
    AfterGet(p, oid);
    GetInUse(p, oid);
    assert NoDup(q.used[oid]) by {
      assert !Uses(p, oid, PageOf(p));
    }
    hide Uses, InUse, PageOf;
  }

  lemma AfterRelease(p: Pool, oid: nat)
    ensures forall k: nat, x: nat :: Uses(Released(p, oid), k, x) <==> k != oid && Uses(p, k, x)
    ensures forall x: nat :: x in Released(p, oid).available <==> x in p.available || Uses(p, oid, x)
  {
  }

  lemma ReleaseInUse(p: Pool, oid: nat, x: nat)
    requires x in InUse(p)
    ensures x in InUse(Released(p, oid)) || Uses(p, oid, x)
  {
    AfterRelease(p, oid);
    var k := InUseBy(p, x);
    assert k != oid ==> Uses(Released(p, oid), k, x);
  }

  lemma ReleaseKeeps(p: Pool, oid: nat)
    requires Conserved(p)
    ensures Conserved(Released(p, oid))
  {
    var q := Released(p, oid);
    AfterRelease(p, oid);
    assert NoDup(q.available) by {
      forall i, j | 0 <= i < j < |q.available| ensures q.available[i] != q.available[j] {
        if i < |p.available| <= j {
          assert Uses(p, oid, q.available[j]);
        }
      }
    }
    forall x | 0 <= x < q.created ensures x in q.available || x in InUse(q) {
      if x in InUse(p) {
        ReleaseInUse(p, oid, x);
      }
    }
    hide Uses, InUse;
  }

  // ---- every call sequence -----------------------------------------------------------

  datatype Op = Get(oid: nat) | Release(oid: nat)

  function Do(p: Pool, op: Op): Pool {
    match op
    case Get(oid) => Taken(p, oid)
    case Release(oid) => Released(p, oid)
  }

  function After(ops: seq<Op>): Pool {
    if ops == [] then EMPTY_POOL else Do(After(ops[..|ops| - 1]), ops[|ops| - 1])
  }

  /** The largest number of pages ever in use at once. */
  ghost function HighWater(ops: seq<Op>): nat {
    if ops == [] then 0 else Max(HighWater(ops[..|ops| - 1]), |InUse(After(ops))|)
  }

  ghost function SetOf(s: seq<nat>): (r: set<nat>)
    ensures forall x: nat :: x in r <==> x in s
  {
    set x: nat | x in s
  }

  lemma {:induction false} SizeOfSeq(s: seq<nat>)
    requires NoDup(s)
    ensures |SetOf(s)| == |s|
  {
    if s == [] {
    } else {
      var n := |s| - 1;
      SizeOfSeq(s[..n]);
      assert s == s[..n] + [s[n]];
      assert s[n] !in s[..n];
      assert SetOf(s) == SetOf(s[..n]) + {s[n]};
    }
  }

  /** Every page is accounted for: those available and those in use add up to those ever created. */
  lemma CountPages(p: Pool)
    requires Conserved(p)
    ensures |p.available| + |InUse(p)| == p.created
  {
    var free := SetOf(p.available);
    var used := InUse(p);
    SizeOfSeq(p.available);
    forall x | x in used ensures x !in free && x < p.created {
      var k := InUseBy(p, x);
    }
    var all: set<int> := Range(0, p.created);
    var both: set<int> := free + used;
    assert both == all;
    assert |free + used| == |free| + |used|;
    SameSize(free + used, all);
  }

  lemma {:induction false} SameSize(a: set<nat>, b: set<int>)
    requires forall x: int :: x in b <==> x >= 0 && x in a
    ensures |a| == |b|
  {
    if a == {} {
      assert b == {} by {
        assert forall x | x in b :: x in a;
      }
    } else {
      var x :| x in a;
      SameSize(a - {x}, b - {x});
    }
  }

  /** After any sequence of calls the pages are conserved, and no more were created than were once in use together. */
  lemma {:induction false} PagesConserved(ops: seq<Op>)
    ensures Conserved(After(ops))
    ensures After(ops).created == HighWater(ops)
  {
    if ops == [] {
    } else {
      var before, op := ops[..|ops| - 1], ops[|ops| - 1];
      var p := After(before);
      PagesConserved(before);
      CountPages(p);
      match op
      case Get(oid) =>
        GetKeeps(p, oid);
        GetInUse(p, oid);
        CountPages(Taken(p, oid));
      case Release(oid) =>
        ReleaseKeeps(p, oid);
        CountPages(Released(p, oid));
    }
  }

  // ---- the allocator object -----------------------------------------------------------

  class PageAllocator {
    var available: seq<nat>
    var used: map<nat, seq<nat>>
    var created: nat

    ghost function State(): Pool
      reads this
    {
      Pool(available, used, created)
    }

    constructor ()
      ensures State() == EMPTY_POOL
    {
      available, used, created := [], map[], 0;
    }

    method GetPage(requestOrderID: nat) returns (page: nat)
      modifies this
      ensures State() == Taken(old(State()), requestOrderID) && page == PageOf(old(State()))
    {
      if |available| > 0 {
        var truncLength := |available| - 1;
        page := available[truncLength];
        available := available[..truncLength];
      } else {
        page, created := created, created + 1;
      }
      used := used[requestOrderID := (if requestOrderID in used then used[requestOrderID] else []) + [page]];
    }

    method ReleasePages(requestOrderID: nat)
      modifies this
      ensures State() == Released(old(State()), requestOrderID)
    {
      if requestOrderID in used && |used[requestOrderID]| > 0 {
        available := available + used[requestOrderID];
      }
      used := used - {requestOrderID};
    }

    method Free()
      modifies this
      ensures available == [] && used == map[] && created == old(created)
    {
      available, used := [], map[];
    }

    /** The sum of the lengths of all `used` entries is the number of pages in use. */
    method CountUsedPages() returns (num: nat)
      requires Conserved(State())
      ensures num == |InUse(State())|
    {
      num := 0;
      var todo := used.Keys;
      ghost var seen: set<nat> := {};
      while todo != {}
        invariant todo <= used.Keys && num == |seen|
        invariant forall x: nat :: x in seen <==> exists k: nat :: k in used.Keys - todo && Uses(State(), k, x)
        decreases todo
      {
        var k :| k in todo;
        ghost var pages := SetOf(used[k]);
        SizeOfSeq(used[k]);
        assert forall x | x in pages :: Uses(State(), k, x);
        assert seen !! pages;
        num := num + |used[k]|;
        seen := seen + pages;
        todo := todo - {k};
      }
      forall x: nat ensures x in seen <==> x in InUse(State()) {
        if x in InUse(State()) {
          var k := InUseBy(State(), x);
          assert k in used.Keys - todo && Uses(State(), k, x);
        }
      }
      assert seen == InUse(State());
    }
  }
}
