/**
  The marshalling primitives: big-endian integers and length-prefixed strings (section 4 of
  draft-ietf-secsh-filexfer-02).
 */
module Wire {
  import opened Prelude

  type bytes = seq<byte>

  const TWO32: nat := 0x1_0000_0000
  const TWO64: nat := 0x1_0000_0000_0000_0000

  datatype Fault = ShortPacket | UnhandledType

  /** The outcome of an unmarshalling step: the value and the bytes after it. */
  datatype Parsed<+T> = Got(value: T, rest: bytes) | Bad(fault: Fault) {
    predicate IsFailure() { Bad? }
    function PropagateFailure<U>(): Parsed<U>
      requires Bad?
    {
      Bad(fault)
    }
    function Extract(): (T, bytes)
      requires Got?
    {
      (value, rest)
    }
  }

  /** marshalUint32; the conversion to uint32 drops the high bits. */
  function Put32(v: nat): (b: bytes)
    ensures |b| == 4
  {
    [(v / 0x100_0000 % 0x100) as byte, (v / 0x1_0000 % 0x100) as byte, (v / 0x100 % 0x100) as byte, (v % 0x100) as byte]
  }

  function Put64(v: nat): (b: bytes)
    ensures |b| == 8
  {
    Put32(v / TWO32) + Put32(v % TWO32)
  }

  function PutString(s: bytes): (b: bytes)
    ensures |b| == 4 + |s|
  {
    Put32(|s|) + s
  }

  /** unmarshalUint32 on a slice that is long enough. */
  function Value32(b: bytes): (v: nat)
    requires |b| >= 4
    ensures v < TWO32
  {
    b[0] as nat * 0x100_0000 + b[1] as nat * 0x1_0000 + b[2] as nat * 0x100 + b[3] as nat
  }

  function Get32(b: bytes): (r: Parsed<nat>)
    ensures r.Got? ==> r.value < TWO32 && |r.rest| == |b| - 4
  {
    if |b| < 4 then Bad(ShortPacket) else Got(Value32(b), b[4..])
  }

  function Get64(b: bytes): (r: Parsed<nat>)
    ensures r.Got? ==> r.value < TWO64 && |r.rest| == |b| - 8
  {
    if |b| < 8 then Bad(ShortPacket) else Got(Value32(b) * TWO32 + Value32(b[4..]), b[8..])
  }

  function GetString(b: bytes): (r: Parsed<bytes>)
    ensures r.Got? ==> |r.value| < TWO32 && |r.rest| == |b| - 4 - |r.value|
  {
    var (n, b') :- Get32(b);
    if n > |b'| then Bad(ShortPacket) else Got(b'[..n], b'[n..])
  }

  // ---- the numbers by position ----------------------------------------------------------

  /** The number that a byte string stands for, most significant byte first. */
  function BigEndian(b: bytes): nat {
    if b == [] then 0 else BigEndian(b[..|b| - 1]) * 0x100 + b[|b| - 1] as nat
  }

  lemma BigEndianOf4(b: bytes)
    requires |b| == 4
    ensures BigEndian(b) ==
            b[0] as nat * 0x100_0000 + b[1] as nat * 0x1_0000 + b[2] as nat * 0x100 + b[3] as nat
  {
    assert b[..3][..2] == b[..2] && b[..2][..1] == b[..1] && b[..1][..0] == [];
    assert BigEndian(b[..1]) == b[0] as nat;
    assert BigEndian(b[..2]) == b[0] as nat * 0x100 + b[1] as nat;
    assert BigEndian(b[..3]) == BigEndian(b[..2]) * 0x100 + b[2] as nat;
  }

  lemma {:induction false} BigEndianSplit(a: bytes, b: bytes)
    requires |b| == 4
    ensures BigEndian(a + b) == BigEndian(a) * TWO32 + BigEndian(b)
  {
    var c := a + b;
    BigEndianOf4(b);
    assert c[..|c| - 1] == a + b[..3] && (a + b[..3])[..|a| + 2] == a + b[..2];
    assert (a + b[..2])[..|a| + 1] == a + b[..1] && (a + b[..1])[..|a|] == a;
    assert BigEndian(a + b[..1]) == BigEndian(a) * 0x100 + b[0] as nat;
    assert BigEndian(a + b[..2]) == BigEndian(a + b[..1]) * 0x100 + b[1] as nat;
    assert BigEndian(a + b[..3]) == BigEndian(a + b[..2]) * 0x100 + b[2] as nat;
  }

  /** Only one string of four bytes stands for a number. */
  lemma Only32(b: bytes)
    requires |b| == 4
    ensures Put32(BigEndian(b)) == b && BigEndian(b) < TWO32
  {
    BigEndianOf4(b);
    hide BigEndian;
    Digits(b[0] as nat, b[1] as nat, b[2] as nat, b[3] as nat);
  }

  lemma Digits(w: nat, x: nat, y: nat, z: nat)
    requires w < 0x100 && x < 0x100 && y < 0x100 && z < 0x100
    ensures
      var v := w * 0x100_0000 + x * 0x1_0000 + y * 0x100 + z;
      v / 0x100_0000 == w && v / 0x1_0000 % 0x100 == x && v / 0x100 % 0x100 == y && v % 0x100 == z
  {
    var v := w * 0x100_0000 + x * 0x1_0000 + y * 0x100 + z;
    assert v / 0x1_0000 == w * 0x100 + x;
    assert v / 0x100 == w * 0x1_0000 + x * 0x100 + y;
  }

  lemma Only64(b: bytes)
    requires |b| == 8
    ensures Put64(BigEndian(b)) == b && BigEndian(b) < TWO64
  {
    hide Put32, BigEndian;
    assert b == b[..4] + b[4..];
    BigEndianSplit(b[..4], b[4..]);
    Only32(b[..4]);
    Only32(b[4..]);
    var h, l := BigEndian(b[..4]), BigEndian(b[4..]);
    assert (h * TWO32 + l) / TWO32 == h && (h * TWO32 + l) % TWO32 == l;
  }

  // ---- layouts ------------------------------------------------------------------------------

  /** The fields of a message in order: numbers of 32 and 64 bits, strings with their length, and bare bytes. */
  datatype Field = U32(n: nat) | U64(n: nat) | Str(s: bytes) | Raw(s: bytes)

  function Width(f: Field): nat {
    match f
    case U32(_) => 4
    case U64(_) => 8
    case Str(s) => 4 + |s|
    case Raw(s) => |s|
  }

  predicate FieldFits(f: Field) {
    match f
    case U32(n) => n < TWO32
    case U64(n) => n < TWO64
    case Str(s) => |s| < TWO32
    case Raw(_) => true
  }

  /** Field f lies in the buffer at this position. */
  predicate FieldAt(b: bytes, at: nat, f: Field) {
    && at + Width(f) <= |b|
    && match f
       case U32(n) => BigEndian(b[at..at + 4]) == n
       case U64(n) => BigEndian(b[at..at + 8]) == n
       case Str(s) => BigEndian(b[at..at + 4]) == |s| && b[at + 4..at + 4 + |s|] == s
       case Raw(s) => b[at..at + |s|] == s
  }

  /** The fields follow each other from this position to the end of the buffer. */
  predicate LaidOut(b: bytes, at: nat, fs: seq<Field>)
    decreases |fs|
  {
    if fs == [] then at == |b| else FieldAt(b, at, fs[0]) && LaidOut(b, at + Width(fs[0]), fs[1..])
  }

  function PutField(f: Field): (b: bytes)
    ensures |b| == Width(f)
  {
    match f
    case U32(n) => Put32(n)
    case U64(n) => Put64(n)
    case Str(s) => PutString(s)
    case Raw(s) => s
  }

  function PutFields(fs: seq<Field>): bytes {
    if fs == [] then [] else PutField(fs[0]) + PutFields(fs[1..])
  }

  lemma {:induction false} PutFieldsJoin(fs: seq<Field>, gs: seq<Field>)
    ensures PutFields(fs + gs) == PutFields(fs) + PutFields(gs)
  {
    if fs == [] {
      assert fs + gs == gs;
    } else {
      PutFieldsJoin(fs[1..], gs);
      assert (fs + gs)[1..] == fs[1..] + gs;
      Assoc(PutField(fs[0]), PutFields(fs[1..]), PutFields(gs));
    }
  }

  lemma PutOne(f: Field)
    ensures PutFields([f]) == PutField(f)
  {
    assert [f][1..] == [] && PutField(f) + [] == PutField(f);
  }

  lemma PutTwo(f: Field, g: Field)
    ensures PutFields([f, g]) == PutField(f) + PutField(g)
  {
    PutOne(g);
    assert [f, g][1..] == [g];
  }

  lemma FieldExactly(b: bytes, at: nat, f: Field)
    requires FieldFits(f)
    ensures FieldAt(b, at, f) <==> at + Width(f) <= |b| && b[at..at + Width(f)] == PutField(f)
  {
    hide Put32, Put64, BigEndian;
    if at + Width(f) <= |b| {
      var x := b[at..at + Width(f)];
      match f
      case U32(n) => Put32Value(n); Only32(x);
      case U64(n) => Put64Value(n); Only64(x);
      case Str(s) =>
        Put32Value(|s|);
        Only32(b[at..at + 4]);
        assert x == b[at..at + 4] + b[at + 4..at + 4 + |s|];
        JoinedExactly(b[at..at + 4], b[at + 4..at + 4 + |s|], Put32(|s|), s);
      case Raw(_) =>
    }
  }

  /** A buffer has this layout exactly when it is what the marshalling functions write. */
  lemma {:induction false} LaidOutExactly(b: bytes, at: nat, fs: seq<Field>)
    requires forall f | f in fs :: FieldFits(f)
    ensures LaidOut(b, at, fs) <==> at <= |b| && b[at..] == PutFields(fs)
    decreases |fs|
  {
    if fs != [] {
      var f, rest := fs[0], fs[1..];
      FieldExactly(b, at, f);
      LaidOutExactly(b, at + Width(f), rest);
      hide FieldAt, PutField;
      Follows(b, at, PutField(f), PutFields(rest));
    }
  }

  lemma Follows(b: bytes, at: nat, x: bytes, y: bytes)
    ensures at <= |b| && b[at..] == x + y <==> at + |x| <= |b| && b[at..at + |x|] == x && b[at + |x|..] == y
  {
    if at + |x| <= |b| {
      assert b[at..] == b[at..at + |x|] + b[at + |x|..];
      JoinedExactly(b[at..at + |x|], b[at + |x|..], x, y);
    }
  }

  /** marshalUint32 writes the number big-endian. */
  lemma Put32Value(v: nat)
    requires v < TWO32
    ensures |Put32(v)| == 4 && BigEndian(Put32(v)) == v
  {
    BigEndianOf4(Put32(v));
    Value32OfPut(v, []);
    assert Put32(v) + [] == Put32(v);
  }

  lemma Put64Value(v: nat)
    requires v < TWO64
    ensures |Put64(v)| == 8 && BigEndian(Put64(v)) == v
  {
    hide Put32;
    Put32Value(v / TWO32);
    Put32Value(v % TWO32);
    BigEndianSplit(Put32(v / TWO32), Put32(v % TWO32));
  }

  /** The unmarshalling functions read big-endian numbers off the front of any buffer, and strings by their length. */
  lemma Get32Value(b: bytes)
    ensures Get32(b) == if |b| < 4 then Bad(ShortPacket) else Got(BigEndian(b[..4]), b[4..])
  {
    if |b| >= 4 {
      BigEndianOf4(b[..4]);
    }
  }

  lemma Get64Value(b: bytes)
    ensures Get64(b) == if |b| < 8 then Bad(ShortPacket) else Got(BigEndian(b[..8]), b[8..])
  {
    if |b| >= 8 {
      assert b[..8] == b[..4] + b[4..8] && b[4..][..4] == b[4..8];
      BigEndianSplit(b[..4], b[4..8]);
      BigEndianOf4(b[..4]);
      BigEndianOf4(b[4..8]);
    }
  }

  lemma GetStringValue(b: bytes)
    ensures GetString(b) ==
            if |b| < 4 || 4 + BigEndian(b[..4]) > |b| then Bad(ShortPacket)
            else Got(b[4..4 + BigEndian(b[..4])], b[4 + BigEndian(b[..4])..])
  {
    Get32Value(b);
    hide Get32, BigEndian;
    if |b| >= 4 && 4 + BigEndian(b[..4]) <= |b| {
      var n := BigEndian(b[..4]);
      assert b[4..][..n] == b[4..4 + n] && b[4..][n..] == b[4 + n..];
    }
  }

  lemma Value32OfPut(v: nat, t: bytes)
    requires v < TWO32
    ensures Value32(Put32(v) + t) == v
  {
  }

  /** Reading back a marshalled value returns it together with exactly the bytes that followed it. */
  lemma Get32OfPut(v: nat, t: bytes)
    requires v < TWO32
    ensures Get32(Put32(v) + t) == Got(v, t)
  {
    Value32OfPut(v, t);
    assert (Put32(v) + t)[4..] == t;
  }

  lemma Get64OfPut(v: nat, t: bytes)
    requires v < TWO64
    ensures Get64(Put64(v) + t) == Got(v, t)
  {
    var h, l := v / TWO32, v % TWO32;
    var b := Put64(v) + t;
    assert b == Put32(h) + (Put32(l) + t);
    Value32OfPut(h, Put32(l) + t);
    assert b[4..] == Put32(l) + t;
    Value32OfPut(l, t);
    assert b[8..] == t;
  }

  lemma GetStringOfPut(s: bytes, t: bytes)
    requires |s| < TWO32
    ensures GetString(PutString(s) + t) == Got(s, t)
  {
    var b := PutString(s) + t;
    assert b == Put32(|s|) + (s + t);
    Value32OfPut(|s|, s + t);
    assert b[4..] == s + t;
    assert (s + t)[..|s|] == s && (s + t)[|s|..] == t;
  }

  // A message cut after k bytes: each read either runs into the cut and fails, or passes it on to the next one.

  lemma Cut32(v: nat, t: bytes, k: nat)
    requires v < TWO32 && k <= 4 + |t|
    ensures Get32((Put32(v) + t)[..k]) == if k < 4 then Bad(ShortPacket) else Got(v, t[..k - 4])
  {
    if k >= 4 {
      assert (Put32(v) + t)[..k] == Put32(v) + t[..k - 4];
      Get32OfPut(v, t[..k - 4]);
    }
  }

  lemma Cut64(v: nat, t: bytes, k: nat)
    requires v < TWO64 && k <= 8 + |t|
    ensures Get64((Put64(v) + t)[..k]) == if k < 8 then Bad(ShortPacket) else Got(v, t[..k - 8])
  {
    if k >= 8 {
      assert (Put64(v) + t)[..k] == Put64(v) + t[..k - 8];
      Get64OfPut(v, t[..k - 8]);
    }
  }

  lemma CutString(s: bytes, t: bytes, k: nat)
    requires |s| < TWO32 && k <= 4 + |s| + |t|
    ensures GetString((PutString(s) + t)[..k]) == if k < 4 + |s| then Bad(ShortPacket) else Got(s, t[..k - 4 - |s|])
  {
    var b := (PutString(s) + t)[..k];
    if k >= 4 + |s| {
      assert b == PutString(s) + t[..k - 4 - |s|];
      GetStringOfPut(s, t[..k - 4 - |s|]);
    } else if k >= 4 {
      assert b == Put32(|s|) + s[..k - 4];
      Value32OfPut(|s|, s[..k - 4]);
    }
  }
}
