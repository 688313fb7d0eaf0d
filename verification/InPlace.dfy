/**
  Data replies are marshalled and framed inside the buffer the file was read into: two overlapping
  copies slide the data up, first by 9 bytes for the packet header, then by 4 for the length header.
  A Go slice is an array (its backing store, whose length is the capacity) and a length.
 */
module InPlace {
  import opened Prelude
  import opened Wire
  import Framing

  const DATA: byte := 103
  const MAX_TX_PACKET: nat := 32768

  /** append(a[:n], make([]byte, k)...): in place when the capacity allows it, else in a new, larger backing store. */
  method AppendZeros(a: array<byte>, n: nat, k: nat) returns (b: array<byte>)
    requires n <= a.Length
    modifies a
    ensures n + k <= a.Length ==> b == a
    ensures n + k > a.Length ==> fresh(b) && a[..] == old(a[..])
    ensures n + k <= b.Length && b[..n] == old(a[..n])
    ensures a[..n] == old(a[..n])
  {
    if n + k <= a.Length {
      b := a;
    } else {
      b := new byte[2 * a.Length + k];
      forall i | 0 <= i < n {
        b[i] := a[i];
      }
    }
    forall i | n <= i < n + k {
      b[i] := 0;
    }
  }

  /** copy(dst[d:], src[:n]), right even when dst and src share their backing store. */
  method CopyUp(dst: array<byte>, d: nat, src: array<byte>, n: nat)
    requires d + n <= dst.Length && n <= src.Length
    modifies dst
    ensures dst[d..d + n] == old(src[..n])
    ensures forall i | 0 <= i < dst.Length && !(d <= i < d + n) :: dst[i] == old(dst[i])
  {
    var i := n;
    while i > 0
      invariant 0 <= i <= n
      invariant forall j | i <= j < n :: dst[d + j] == old(src[j])
      invariant forall j | 0 <= j < dst.Length && !(d + i <= j < d + n) :: dst[j] == old(dst[j])
      invariant forall j | 0 <= j < i :: src[j] == old(src[j])
    {
      i := i - 1;
      dst[d + i] := src[i];
    }
  }

  /** binary.BigEndian.PutUint32(b[at:at+4], v). */
  method PutUint32(b: array<byte>, at: nat, v: nat)
    requires at + 4 <= b.Length
    modifies b
    ensures b[at..at + 4] == Put32(v)
    ensures forall i | 0 <= i < b.Length && !(at <= i < at + 4) :: b[i] == old(b[i])
  {
    var w := Put32(v);
    forall i | 0 <= i < 4 {
      b[at + i] := w[i];
    }
  }

  /** The data packet built from fresh bytes: the reference the in-place code is compared with. */
  function DataPacket(id: nat, data: bytes): bytes {
    [DATA] + Put32(id) + Put32(|data|) + data
  }

  /** sshFxpDataPacket.MarshalBinary for Data = a[:n] and Length = n. */
  method MarshalData(a: array<byte>, n: nat, id: nat) returns (b: array<byte>)
    requires n <= a.Length
    modifies a
    ensures n + 9 <= b.Length && b[..n + 9] == DataPacket(id, old(a[..n]))
    ensures n + 9 <= a.Length ==> b == a
    ensures n + 9 > a.Length ==> fresh(b)
  {
    hide Put32;
    b := AppendZeros(a, n, 9);
    CopyUp(b, 9, a, n);
    b[0] := DATA;
    PutUint32(b, 1, id);
    PutUint32(b, 5, n);
    SameBytes(b[..n + 9], id, n, old(a[..n]));
  }

  lemma SameBytes(s: bytes, id: nat, n: nat, data: bytes)
    requires |s| == n + 9 && |data| == n && s[0] == DATA
    requires s[1..5] == Put32(id) && s[5..9] == Put32(n) && s[9..] == data
    ensures s == DataPacket(id, data)
  {
    assert s == s[..1] + s[1..5] + s[5..9] + s[9..];
  }

  /** sendPacket on the marshalled bytes b[:n]: what it hands to the writer. */
  method SendPacket(b: array<byte>, n: nat) returns (packet: array<byte>)
    requires n <= b.Length
    modifies b
    ensures n + 4 <= packet.Length && packet[..n + 4] == Framing.Frame(old(b[..n]))
    ensures n + 4 <= b.Length ==> packet == b
    ensures n + 4 > b.Length ==> fresh(packet)
  {
    hide Put32;
    packet := AppendZeros(b, n, 4);
    CopyUp(packet, 4, b, n);
    PutUint32(packet, 0, n);
    assert packet[..n + 4] == packet[0..4] + packet[4..n + 4];
  }

  /** getDataSlice: the buffer a READ of `len` bytes is served from, with or without the page allocator. */
  method GetDataSlice(len: nat, paged: bool) returns (a: array<byte>, dataLen: nat)
    ensures dataLen == Min(len, MAX_TX_PACKET) && fresh(a)
    ensures a.Length == if paged then Framing.MAX_MSG_LENGTH else dataLen + 9 + 4
  {
    dataLen := Min(len, MAX_TX_PACKET);
    a := new byte[if paged then Framing.MAX_MSG_LENGTH else dataLen + 9 + 4];
  }

  /** The frame of a data packet by position: its length, the type 103, the id, and the data with its own length. */
  function DataFields(id: nat, data: bytes): seq<Field> {
    [U32(9 + |data|), Raw([103]), U32(id)] + [Str(data)]
  }

  lemma DataLayout(id: nat, data: bytes)
    requires id < TWO32 && 9 + |data| < TWO32
    ensures LaidOut(Framing.Frame(DataPacket(id, data)), 0, DataFields(id, data))
  {
    hide Put32;
    var frame, head := Framing.Frame(DataPacket(id, data)), [U32(9 + |data|), Raw([103]), U32(id)];
    assert head == [U32(9 + |data|)] + [Raw([103]), U32(id)];
    PutFieldsJoin(head, [Str(data)]);
    PutFieldsJoin([U32(9 + |data|)], [Raw([103]), U32(id)]);
    PutOne(U32(9 + |data|));
    PutTwo(Raw([103]), U32(id));
    PutOne(Str(data));
    assert frame == PutFields(DataFields(id, data));
    hide PutFields, LaidOut;
    LaidOutExactly(frame, 0, DataFields(id, data));
    assert frame[0..] == frame;
  }

  /**
    A READ answered in place, for any requested length and whatever the file gave for it: the frame on the wire is
    the one built from fresh bytes, and neither append ever leaves the buffer the data was read into.
   */
  method ServeRead(len: nat, paged: bool, id: nat, read: bytes) returns (frame: bytes, moved: bool)
    requires |read| <= Min(len, MAX_TX_PACKET)
    ensures frame == Framing.Frame(DataPacket(id, read))
    ensures id < TWO32 ==> LaidOut(frame, 0, DataFields(id, read))
    ensures !moved
  {
    if id < TWO32 {
      DataLayout(id, read);
    }
    hide Put32, DataPacket, Framing.Frame, LaidOut, DataFields;
    var a, dataLen := GetDataSlice(len, paged);
    var n := |read|;
    forall i | 0 <= i < n {
      a[i] := read[i];
    }
    assert a[..n] == read;
    var b := MarshalData(a, n, id);
    var packet := SendPacket(b, n + 9);
    frame, moved := packet[..n + 13], packet != a;
  }
}
