/**
  The in-memory byte store behind the request server, and what a set of write
  packets does to it when parallel workers apply them in any order.
 */
module MemStore {
  import opened Prelude

  datatype WritePacket = WritePacket(offset: nat, data: seq<byte>)

  function Zeros(n: nat): (z: seq<byte>)
    ensures |z| == n && forall i | 0 <= i < n :: z[i] == 0
  {
    seq(n, _ => 0)
  }

  /** One write seen from outside: the file grows to hold it, a gap reads as zeros, every other byte stays. */
  function Splice(c: seq<byte>, off: nat, p: seq<byte>): (r: seq<byte>)
    ensures |r| == Max(|c|, off + |p|)
    ensures forall i | 0 <= i < |r| ::
              r[i] == if off <= i < off + |p| then p[i - off] else if i < |c| then c[i] else 0
  {
    var grown := c + Zeros(Max(0, off + |p| - |c|));
    grown[..off] + p + grown[off + |p|..]
  }

  class MemFile {
    var content: seq<byte>

    method WriteAt(p: seq<byte>, off: nat) returns (n: nat)
      modifies this
      ensures content == Splice(old(content), off, p) && n == |p|
    {
      var plen := |p| + off;
      if plen >= |content| {
        content := content + Zeros(plen - |content|);
      }
      content := content[..off] + p + content[plen..];
      return |p|;
    }

    method Truncate(size: nat)
      modifies this
      ensures |content| == size
      ensures forall i | 0 <= i < size :: content[i] == if i < |old(content)| then old(content)[i] else 0
    {
      var grow := size - |content|;
      if grow <= 0 {
        content := content[..size];
      } else {
        content := content + Zeros(grow);
      }
    }
  }

  /** The packets applied one after the other. */
  function Apply(c: seq<byte>, ws: seq<WritePacket>): seq<byte> {
    if ws == [] then c
    else
      var last := ws[|ws| - 1];
      Splice(Apply(c, ws[..|ws| - 1]), last.offset, last.data)
  }

  /** The buffer cut into packets of at most maxPacket bytes, as File.Write sends it. */
  function Tiles(b: seq<byte>, off: nat, maxPacket: nat): seq<WritePacket>
    requires maxPacket >= 1
    decreases |b|
  {
    if b == [] then []
    else
      var l := Min(|b|, maxPacket);
      [WritePacket(off, b[..l])] + Tiles(b[l..], off + l, maxPacket)
  }

  ghost predicate Covers(w: WritePacket, i: int) {
    w.offset <= i < w.offset + |w.data|
  }

  ghost predicate CoveredBy(ws: seq<WritePacket>, i: int) {
    exists w :: w in ws && Covers(w, i)
  }

  /** A packet that carries the right piece of buffer b, which belongs at offset off. */
  ghost predicate Piece(w: WritePacket, off: nat, b: seq<byte>) {
    && off <= w.offset && w.offset + |w.data| <= off + |b| && w.data != []
    && w.data == b[w.offset - off..w.offset - off + |w.data|]
  }

  ghost predicate Pieces(ws: seq<WritePacket>, off: nat, b: seq<byte>) {
    forall w | w in ws :: Piece(w, off, b)
  }

  lemma CoveredSplit(ws: seq<WritePacket>, i: int)
    requires ws != []
    ensures CoveredBy(ws, i) <==> CoveredBy(ws[..|ws| - 1], i) || Covers(ws[|ws| - 1], i)
  {
    var n := |ws| - 1;
    if CoveredBy(ws[..n], i) {
      var w :| w in ws[..n] && Covers(w, i);
      assert w in ws;
    }
    if Covers(ws[n], i) {
      assert ws[n] in ws;
    }
    if CoveredBy(ws, i) && !Covers(ws[n], i) {
      var w :| w in ws && Covers(w, i);
      assert w in ws[..n];
    }
  }

  /** What a sequence of pieces leaves behind depends only on which bytes some piece covers. */
  lemma {:induction false} AppliedBytes(c: seq<byte>, ws: seq<WritePacket>, off: nat, b: seq<byte>)
    requires Pieces(ws, off, b)
    ensures |c| <= |Apply(c, ws)| <= Max(|c|, off + |b|)
    ensures forall i | CoveredBy(ws, i) :: 0 <= i - off < |b| && i < |Apply(c, ws)|
    ensures forall i | 0 <= i < |Apply(c, ws)| ::
              Apply(c, ws)[i] == if CoveredBy(ws, i) then b[i - off] else if i < |c| then c[i] else 0
  {
    if ws == [] {
    } else {
      var n := |ws| - 1;
      var last, before, after := ws[n], Apply(c, ws[..n]), Apply(c, ws);
      assert Pieces(ws[..n], off, b) && Piece(last, off, b);
      AppliedBytes(c, ws[..n], off, b);
      assert forall j | 0 <= j < |last.data| :: last.data[j] == b[last.offset - off + j];
      hide Apply, Pieces, CoveredBy, Piece, Splice;
      forall i
        ensures CoveredBy(ws, i) ==> 0 <= i - off < |b| && i < |after|
        ensures 0 <= i < |after| ==> after[i] == if CoveredBy(ws, i) then b[i - off] else if i < |c| then c[i] else 0
      {
        CoveredSplit(ws, i);
      }
    }
  }

  lemma PieceOfRest(w: WritePacket, off: nat, b: seq<byte>, l: nat)
    requires l <= |b| && Piece(w, off + l, b[l..])
    ensures Piece(w, off, b)
  {
    var k := w.offset - off;
    assert b[l..][k - l..k - l + |w.data|] == b[k..k + |w.data|];
  }

  /** The tiles are non-empty pieces of the buffer, and together they cover it. */
  lemma {:induction false} TilesCover(b: seq<byte>, off: nat, maxPacket: nat)
    requires maxPacket >= 1
    ensures Pieces(Tiles(b, off, maxPacket), off, b)
    ensures forall i | off <= i < off + |b| :: CoveredBy(Tiles(b, off, maxPacket), i)
    decreases |b|
  {
    if b == [] {
    } else {
      var l := Min(|b|, maxPacket);
      var first, rest := WritePacket(off, b[..l]), Tiles(b[l..], off + l, maxPacket);
      TilesCover(b[l..], off + l, maxPacket);
      var all := Tiles(b, off, maxPacket);
      forall w | w in all
        ensures Piece(w, off, b)
      {
        if w in rest {
          PieceOfRest(w, off, b, l);
        }
      }
      forall i | off <= i < off + |b|
        ensures CoveredBy(all, i)
      {
        if i < off + l {
          assert first in all && Covers(first, i);
        } else {
          assert CoveredBy(rest, i);
          var w :| w in rest && Covers(w, i);
          assert w in all;
        }
      }
    }
  }

  lemma SameCover(ws: seq<WritePacket>, vs: seq<WritePacket>, i: int)
    requires forall w :: w in ws <==> w in vs
    ensures CoveredBy(ws, i) <==> CoveredBy(vs, i)
  {
    if CoveredBy(ws, i) {
      var w :| w in ws && Covers(w, i);
      assert w in vs;
    }
    if CoveredBy(vs, i) {
      var w :| w in vs && Covers(w, i);
      assert w in ws;
    }
  }

  lemma NothingApplied(c: seq<byte>)
    ensures Apply(c, []) == c
  {
  }

  /**
    Whatever order the workers apply the packets in, the file ends up as after one write of the whole buffer.
    The one exception is an empty buffer beyond the end of the file: no packet is sent, while a write of
    nothing through WriteAt would still have padded the file with zeros.
   */
  lemma AnyOrderIsOneWrite(c: seq<byte>, b: seq<byte>, off: nat, maxPacket: nat, ws: seq<WritePacket>)
    requires maxPacket >= 1
    requires forall w :: w in ws <==> w in Tiles(b, off, maxPacket)
    ensures Apply(c, ws) == Splice(c, off, b) <==> b != [] || off <= |c|
  {
    assert b == [] ==> ws == [] by {
      assert forall i | 0 <= i < |ws| :: ws[i] in ws;
    }
    hide Apply, Piece, Tiles;
    TilesCover(b, off, maxPacket);
    AppliedBytes(c, ws, off, b);
    var got, want := Apply(c, ws), Splice(c, off, b);
    forall i
      ensures CoveredBy(ws, i) <==> off <= i < off + |b|
    {
      SameCover(ws, Tiles(b, off, maxPacket), i);
    }
    if b == [] {
      NothingApplied(c);
    } else {
      assert CoveredBy(ws, off + |b| - 1);
      assert |got| == |want|;
      assert forall i | 0 <= i < |got| :: got[i] == want[i];
    }
  }
}
