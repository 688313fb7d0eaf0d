/**
  File attributes on the wire (section 5 of draft-ietf-secsh-filexfer-02): flags, then the fields the flags announce.
 */
module Attributes {
  import opened Prelude
  import opened Wire

  datatype StatExtended = StatExtended(extType: bytes, extData: bytes)

  datatype FileStat = FileStat(size: nat, mode: nat, mtime: nat, atime: nat, uid: nat, gid: nat,
                               extended: seq<StatExtended>)

  const SIZE: nat := 0x1
  const UIDGID: nat := 0x2
  const PERMISSIONS: nat := 0x4
  const ACMODTIME: nat := 0x8
  const EXTENDED: nat := 0x8000_0000

  /** flags & bit == bit, for a single bit. */
  predicate Has(flags: nat, bit: nat)
    requires bit > 0
  {
    flags / bit % 2 == 1
  }

  function When(c: bool, b: bytes): bytes {
    if c then b else []
  }

  function PutExtended(es: seq<StatExtended>): bytes {
    if es == [] then [] else PutString(es[0].extType) + (PutString(es[0].extData) + PutExtended(es[1..]))
  }

  /** The attribute block of the draft for any combination of flags. */
  function PutStat(flags: nat, st: FileStat): bytes {
    When(Has(flags, SIZE), Put64(st.size))
    + (When(Has(flags, UIDGID), Put32(st.uid) + Put32(st.gid))
       + (When(Has(flags, PERMISSIONS), Put32(st.mode))
          + (When(Has(flags, ACMODTIME), Put32(st.atime) + Put32(st.mtime))
             + When(Has(flags, EXTENDED), Put32(|st.extended|) + PutExtended(st.extended)))))
  }

  // ---- unmarshalAttrs -------------------------------------------------------------

  /** `v, b, _ = unmarshal...Safe(b)`: on a short buffer the value is zero and the buffer is gone. */
  function OrZero(p: Parsed<nat>): (nat, bytes) {
    if p.Got? then (p.value, p.rest) else (0, [])
  }

  function OrEmpty(p: Parsed<bytes>): (bytes, bytes) {
    if p.Got? then (p.value, p.rest) else ([], [])
  }

  function GetExtended(count: nat, b: bytes): (seq<StatExtended>, bytes) {
    if count == 0 then ([], b)
    else
      var (typ, b1) := OrEmpty(GetString(b));
      var (data, b2) := OrEmpty(GetString(b1));
      var (more, b3) := GetExtended(count - 1, b2);
      ([StatExtended(typ, data)] + more, b3)
  }

  function GetSize(flags: nat, b: bytes): (nat, bytes) {
    if Has(flags, SIZE) then OrZero(Get64(b)) else (0, b)
  }

  function GetField(present: bool, b: bytes): (nat, bytes) {
    if present then OrZero(Get32(b)) else (0, b)
  }

  function GetExtensions(flags: nat, b: bytes): (seq<StatExtended>, bytes) {
    if Has(flags, EXTENDED) then
      var (count, b1) := OrZero(Get32(b));
      GetExtended(count, b1)
    else ([], b)
  }

  function GetFileStat(flags: nat, b: bytes): (FileStat, bytes) {
    var (size, b1) := GetSize(flags, b);
    var (uid, b2) := GetField(Has(flags, UIDGID), b1);
    var (gid, b3) := GetField(Has(flags, UIDGID), b2);
    var (mode, b4) := GetField(Has(flags, PERMISSIONS), b3);
    var (atime, b5) := GetField(Has(flags, ACMODTIME), b4);
    var (mtime, b6) := GetField(Has(flags, ACMODTIME), b5);
    var (ext, b7) := GetExtensions(flags, b6);
    (FileStat(size, mode, mtime, atime, uid, gid, ext), b7)
  }

  /** What a receiver can know of st when only the fields in flags were sent. */
  function Masked(flags: nat, st: FileStat): FileStat {
    FileStat(if Has(flags, SIZE) then st.size else 0,
             if Has(flags, PERMISSIONS) then st.mode else 0,
             if Has(flags, ACMODTIME) then st.mtime else 0,
             if Has(flags, ACMODTIME) then st.atime else 0,
             if Has(flags, UIDGID) then st.uid else 0,
             if Has(flags, UIDGID) then st.gid else 0,
             if Has(flags, EXTENDED) then st.extended else [])
  }

  predicate InRange(st: FileStat) {
    && st.size < TWO64 && st.mode < TWO32 && st.mtime < TWO32 && st.atime < TWO32 && st.uid < TWO32 && st.gid < TWO32
    && |st.extended| < TWO32
    && forall e | e in st.extended :: |e.extType| < TWO32 && |e.extData| < TWO32
  }

  lemma JoinThree(a: bytes, b: bytes, c: bytes, d: bytes)
    ensures a + (b + c) + d == a + (b + (c + d))
  {
  }

  lemma {:induction false} ExtendedRoundTrip(es: seq<StatExtended>, t: bytes)
    requires forall e | e in es :: |e.extType| < TWO32 && |e.extData| < TWO32
    ensures GetExtended(|es|, PutExtended(es) + t) == (es, t)
  {
    hide GetString, PutString;
    if es == [] {
      assert PutExtended(es) + t == t;
    } else {
      var tail := PutExtended(es[1..]) + t;
      JoinThree(PutString(es[0].extType), PutString(es[0].extData), PutExtended(es[1..]), t);
      GetStringOfPut(es[0].extType, PutString(es[0].extData) + tail);
      GetStringOfPut(es[0].extData, tail);
      ExtendedRoundTrip(es[1..], t);
      hide PutExtended;
      assert es == [StatExtended(es[0].extType, es[0].extData)] + es[1..];
    }
  }

  lemma FieldRoundTrip(present: bool, v: nat, t: bytes)
    requires v < TWO32
    ensures GetField(present, When(present, Put32(v)) + t) == (if present then v else 0, t)
  {
    if present {
      Get32OfPut(v, t);
    } else {
      assert [] + t == t;
    }
  }

  lemma TwoFieldsRoundTrip(present: bool, v: nat, w: nat, t: bytes)
    requires v < TWO32 && w < TWO32
    ensures
      var (v', b1) := GetField(present, When(present, Put32(v) + Put32(w)) + t);
      var (w', b2) := GetField(present, b1);
      v' == (if present then v else 0) && w' == (if present then w else 0) && b2 == t
  {
    if present {
      assert Put32(v) + Put32(w) + t == Put32(v) + (Put32(w) + t);
      Get32OfPut(v, Put32(w) + t);
      Get32OfPut(w, t);
    } else {
      assert [] + t == t;
    }
  }

  lemma Regroup(a: bytes, b: bytes, c: bytes, d: bytes, e: bytes, t: bytes)
    ensures a + (b + (c + (d + e))) + t == a + (b + (c + (d + (e + t))))
  {
  }

  /**
    For every combination of flags, decoding consumes exactly what encoding produced and returns the rest untouched.
   */
  lemma StatRoundTrip(flags: nat, st: FileStat, t: bytes)
    requires InRange(st)
    ensures GetFileStat(flags, PutStat(flags, st) + t) == (Masked(flags, st), t)
  {
    hide GetField, GetSize, GetExtensions, Has, When, Get32, Get64, Put32, Put64, GetExtended, PutExtended;
    var e := When(Has(flags, EXTENDED), Put32(|st.extended|) + PutExtended(st.extended)) + t;
    var d := When(Has(flags, ACMODTIME), Put32(st.atime) + Put32(st.mtime)) + e;
    var c := When(Has(flags, PERMISSIONS), Put32(st.mode)) + d;
    var b := When(Has(flags, UIDGID), Put32(st.uid) + Put32(st.gid)) + c;
    Regroup(When(Has(flags, SIZE), Put64(st.size)), When(Has(flags, UIDGID), Put32(st.uid) + Put32(st.gid)),
            When(Has(flags, PERMISSIONS), Put32(st.mode)),
            When(Has(flags, ACMODTIME), Put32(st.atime) + Put32(st.mtime)),
            When(Has(flags, EXTENDED), Put32(|st.extended|) + PutExtended(st.extended)), t);
    SizeRoundTrip(flags, st.size, b);
    TwoFieldsRoundTrip(Has(flags, UIDGID), st.uid, st.gid, c);
    FieldRoundTrip(Has(flags, PERMISSIONS), st.mode, d);
    TwoFieldsRoundTrip(Has(flags, ACMODTIME), st.atime, st.mtime, e);
    ExtensionsRoundTrip(flags, st.extended, t);
  }

  lemma SizeRoundTrip(flags: nat, size: nat, t: bytes)
    requires size < TWO64
    ensures GetSize(flags, When(Has(flags, SIZE), Put64(size)) + t) == (if Has(flags, SIZE) then size else 0, t)
  {
    if Has(flags, SIZE) {
      Get64OfPut(size, t);
    } else {
      assert [] + t == t;
    }
  }

  lemma ExtensionsRoundTrip(flags: nat, es: seq<StatExtended>, t: bytes)
    requires |es| < TWO32 && forall e | e in es :: |e.extType| < TWO32 && |e.extData| < TWO32
    ensures GetExtensions(flags, When(Has(flags, EXTENDED), Put32(|es|) + PutExtended(es)) + t)
            == (if Has(flags, EXTENDED) then es else [], t)
  {
    hide GetExtended, PutExtended;
    if Has(flags, EXTENDED) {
      assert Put32(|es|) + PutExtended(es) + t == Put32(|es|) + (PutExtended(es) + t);
      Get32OfPut(|es|, PutExtended(es) + t);
      ExtendedRoundTrip(es, t);
    } else {
      assert [] + t == t;
    }
  }

  // ---- the layout of the draft --------------------------------------------------------

  function ExtendedFields(es: seq<StatExtended>): seq<Field> {
    if es == [] then [] else [Str(es[0].extType), Str(es[0].extData)] + ExtendedFields(es[1..])
  }

  /** The fields of an attribute block in the order of the draft; the literals are its flag bits. */
  function StatFields(flags: nat, st: FileStat): seq<Field> {
    (if Has(flags, 0x1) then [U64(st.size)] else [])
    + ((if Has(flags, 0x2) then [U32(st.uid), U32(st.gid)] else [])
       + ((if Has(flags, 0x4) then [U32(st.mode)] else [])
          + ((if Has(flags, 0x8) then [U32(st.atime), U32(st.mtime)] else [])
             + (if Has(flags, 0x8000_0000) then [U32(|st.extended|)] + ExtendedFields(st.extended) else []))))
  }

  lemma {:induction false} ExtendedLaidOut(es: seq<StatExtended>)
    requires forall e | e in es :: |e.extType| < TWO32 && |e.extData| < TWO32
    ensures PutFields(ExtendedFields(es)) == PutExtended(es)
    ensures forall f | f in ExtendedFields(es) :: FieldFits(f)
  {
    if es != [] {
      ExtendedLaidOut(es[1..]);
      var typ, data, rest := Str(es[0].extType), Str(es[0].extData), ExtendedFields(es[1..]);
      PutTwo(typ, data);
      PutFieldsJoin([typ, data], rest);
      hide PutFields, PutString;
      Assoc(PutString(es[0].extType), PutString(es[0].extData), PutFields(rest));
      assert forall f | f in ExtendedFields(es) :: f == typ || f == data || f in rest;
    }
  }

  lemma OptionalLaidOut(present: bool, fs: seq<Field>)
    ensures PutFields(if present then fs else []) == When(present, PutFields(fs))
  {
  }

  lemma BlockFields(flags: nat, st: FileStat)
    requires InRange(st)
    ensures PutFields(StatFields(flags, st)) == PutStat(flags, st)
  {
    hide Has, PutFields, FieldFits, When;
    var f1 := if Has(flags, 0x1) then [U64(st.size)] else [];
    var f2 := if Has(flags, 0x2) then [U32(st.uid), U32(st.gid)] else [];
    var f3 := if Has(flags, 0x4) then [U32(st.mode)] else [];
    var f4 := if Has(flags, 0x8) then [U32(st.atime), U32(st.mtime)] else [];
    var ext := [U32(|st.extended|)] + ExtendedFields(st.extended);
    var f5 := if Has(flags, 0x8000_0000) then ext else [];
    PutFieldsJoin(f1, f2 + (f3 + (f4 + f5)));
    PutFieldsJoin(f2, f3 + (f4 + f5));
    PutFieldsJoin(f3, f4 + f5);
    PutFieldsJoin(f4, f5);
    OptionalLaidOut(Has(flags, 0x1), [U64(st.size)]);
    OptionalLaidOut(Has(flags, 0x2), [U32(st.uid), U32(st.gid)]);
    OptionalLaidOut(Has(flags, 0x4), [U32(st.mode)]);
    OptionalLaidOut(Has(flags, 0x8), [U32(st.atime), U32(st.mtime)]);
    OptionalLaidOut(Has(flags, 0x8000_0000), ext);
    PutOne(U64(st.size));
    PutTwo(U32(st.uid), U32(st.gid));
    PutOne(U32(st.mode));
    PutTwo(U32(st.atime), U32(st.mtime));
    PutFieldsJoin([U32(|st.extended|)], ExtendedFields(st.extended));
    PutOne(U32(|st.extended|));
    ExtendedLaidOut(st.extended);
  }

  ghost predicate AllFit(fs: seq<Field>) {
    forall f | f in fs :: FieldFits(f)
  }

  lemma AllFitJoin(fs: seq<Field>, gs: seq<Field>)
    requires AllFit(fs) && AllFit(gs)
    ensures AllFit(fs + gs)
  {
  }

  lemma BlockFits(flags: nat, st: FileStat)
    requires InRange(st)
    ensures AllFit(StatFields(flags, st))
  {
    hide Has, ExtendedFields;
    var f1 := if Has(flags, 0x1) then [U64(st.size)] else [];
    var f2 := if Has(flags, 0x2) then [U32(st.uid), U32(st.gid)] else [];
    var f3 := if Has(flags, 0x4) then [U32(st.mode)] else [];
    var f4 := if Has(flags, 0x8) then [U32(st.atime), U32(st.mtime)] else [];
    var f5 := if Has(flags, 0x8000_0000) then [U32(|st.extended|)] + ExtendedFields(st.extended) else [];
    ExtendedLaidOut(st.extended);
    assert AllFit(f1) && AllFit(f2) && AllFit(f3) && AllFit(f4) && AllFit(f5);
    hide AllFit;
    AllFitJoin(f4, f5);
    AllFitJoin(f3, f4 + f5);
    AllFitJoin(f2, f3 + (f4 + f5));
    AllFitJoin(f1, f2 + (f3 + (f4 + f5)));
  }

  /** Which bytes are the attribute block for these flags: exactly those that the draft lays out. */
  lemma StatLayoutExactly(flags: nat, st: FileStat, b: bytes)
    requires InRange(st)
    ensures b == PutStat(flags, st) <==> LaidOut(b, 0, StatFields(flags, st))
  {
    hide StatFields, PutStat, InRange;
    BlockFits(flags, st);
    BlockFields(flags, st);
    LaidOutExactly(b, 0, StatFields(flags, st));
    assert b[0..] == b;
  }
}
