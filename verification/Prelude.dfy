/**
  Vocabulary shared by the models: bytes, the error values a client call can
  report, and the small facts about integer ranges that the counting arguments use.
 */
module Prelude {

  newtype byte = x: int | 0 <= x < 256

  datatype Option<+T> = None | Some(value: T)

  /** What a client call reports: `Ok` is Go's nil, `Eof` is io.EOF, the rest are told apart by a code only. */
  datatype Error = Ok | Eof | Failed(code: nat)

  function Min(a: int, b: int): (m: int)
    ensures m <= a && m <= b && (m == a || m == b)
  {
    if a > b then b else a
  }

  function Max(a: int, b: int): (m: int)
    ensures m >= a && m >= b && (m == a || m == b)
  {
    if a > b then a else b
  }

  /** What is left of s from position off on; nothing when off lies past the end. */
  function From<T>(s: seq<T>, off: nat): (r: seq<T>)
    ensures |r| == Max(0, |s| - off)
  {
    if off <= |s| then s[off..] else []
  }

  lemma Assoc<T>(a: seq<T>, b: seq<T>, c: seq<T>)
    ensures a + (b + c) == a + b + c
  {
  }

  lemma JoinedExactly<T>(x: seq<T>, y: seq<T>, u: seq<T>, v: seq<T>)
    requires |x| == |u|
    ensures x + y == u + v <==> x == u && y == v
  {
    if x + y == u + v {
      assert (x + y)[..|x|] == x && (x + y)[|x|..] == y;
      assert (u + v)[..|u|] == u && (u + v)[|u|..] == v;
    }
  }

  lemma SameSlice<T>(a: seq<T>, b: seq<T>, lo: nat, hi: nat, shift: nat)
    requires lo <= hi <= |a| && hi + shift <= |b|
    requires forall p | lo <= p < hi :: a[p] == b[shift + p]
    ensures a[lo..hi] == b[shift + lo..shift + hi]
  {
  }

  lemma FromPrefix<T>(s: seq<T>, off: nat, k: nat)
    requires off + k <= |s|
    ensures From(s, off)[..k] == s[off..off + k]
  {
  }

  lemma NoElements<T(!new)>(s: seq<T>)
    requires forall x :: x !in s
    ensures s == []
  {
    if s != [] {
      FirstIn(s);
    }
  }

  lemma FirstIn<T>(s: seq<T>)
    requires s != []
    ensures s[0] in s
  {
  }

  /** The integers from lo up to but not including hi. */
  ghost function Range(lo: int, hi: int): (r: set<int>)
    ensures forall p :: p in r <==> lo <= p < hi
    ensures |r| == Max(0, hi - lo)
    decreases hi - lo
  {
    if lo >= hi then {} else Range(lo, hi - 1) + {hi - 1}
  }
}
