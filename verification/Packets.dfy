/**
  The request packets (sections 4, 6 and 8 of draft-ietf-secsh-filexfer-02 and the OpenSSH extensions):
  what the client's MarshalBinary methods write and what the server's makePacket makes of it.
 */
module Packets {
  import opened Prelude
  import opened Wire

  datatype Extension = Extension(name: bytes, data: bytes)

  /** The requests that carry an id and one string. */
  datatype SimpleKind = Close | Lstat | Fstat | Opendir | Readdir | Remove | Rmdir | Realpath | Stat | Readlink

  /** Requests with an id and two strings; the last two travel as extended packets. */
  datatype PairKind = Rename | Symlink | PosixRename | Hardlink

  datatype Packet =
    | Init(version: nat, extensions: seq<Extension>)
    | Simple(kind: SimpleKind, id: nat, arg: bytes)
    | Pair(pair: PairKind, id: nat, first: bytes, second: bytes)
    | Open(id: nat, path: bytes, pflags: nat, flags: nat)
    | Read(id: nat, handle: bytes, offset: nat, len: nat)
    | Write(id: nat, handle: bytes, offset: nat, length: nat, data: bytes)
    | Mkdir(id: nat, path: bytes, flags: nat)
    | Setstat(id: nat, path: bytes, flags: nat, attrs: bytes)
    | Fsetstat(id: nat, handle: bytes, flags: nat, attrs: bytes)
    | Statvfs(id: nat, path: bytes)
    | UnknownExtended(id: nat, request: bytes)

  /** What makePacket returns: a packet, an extended packet it does not know (served as unsupported), or an error. */
  datatype Made = Made(p: Packet) | Unknown(p: Packet) | Refused(fault: Fault)

  const INIT: byte := 1
  const OPEN: byte := 3
  const READ: byte := 5
  const WRITE: byte := 6
  const SETSTAT: byte := 9
  const FSETSTAT: byte := 10
  const MKDIR: byte := 14
  const RENAME: byte := 18
  const SYMLINK: byte := 20
  const EXTENDED: byte := 200

  function SimpleType(k: SimpleKind): byte {
    match k
    case Close => 4
    case Lstat => 7
    case Fstat => 8
    case Opendir => 11
    case Readdir => 12
    case Remove => 13
    case Rmdir => 15
    case Realpath => 16
    case Stat => 17
    case Readlink => 19
  }

  function SimpleOf(t: byte): Option<SimpleKind> {
    if t == 4 then Some(Close)
    else if t == 7 then Some(Lstat)
    else if t == 8 then Some(Fstat)
    else if t == 11 then Some(Opendir)
    else if t == 12 then Some(Readdir)
    else if t == 13 then Some(Remove)
    else if t == 15 then Some(Rmdir)
    else if t == 16 then Some(Realpath)
    else if t == 17 then Some(Stat)
    else if t == 19 then Some(Readlink)
    else None
  }

  /** ASCII text as bytes. */
  function Text(s: string): (b: bytes)
    ensures |b| == |s|
    ensures forall i | 0 <= i < |s| :: b[i] == (s[i] as int % 256) as byte
  {
    seq(|s|, i requires 0 <= i < |s| => (s[i] as int % 256) as byte)
  }

  const STATVFS_NAME := Text("statvfs@openssh.com")
  const POSIX_RENAME_NAME := Text("posix-rename@openssh.com")
  const HARDLINK_NAME := Text("hardlink@openssh.com")

  // ---- the client's MarshalBinary ---------------------------------------------

  function PutExtensions(es: seq<Extension>): bytes {
    if es == [] then [] else PutString(es[0].name) + (PutString(es[0].data) + PutExtensions(es[1..]))
  }

  function TypeOf(p: Packet): byte {
    match p
    case Init(_, _) => INIT
    case Simple(k, _, _) => SimpleType(k)
    case Pair(Rename, _, _, _) => RENAME
    case Pair(Symlink, _, _, _) => SYMLINK
    case Pair(_, _, _, _) => EXTENDED
    case Open(_, _, _, _) => OPEN
    case Read(_, _, _, _) => READ
    case Write(_, _, _, _, _) => WRITE
    case Mkdir(_, _, _) => MKDIR
    case Setstat(_, _, _, _) => SETSTAT
    case Fsetstat(_, _, _, _) => FSETSTAT
    case Statvfs(_, _) => EXTENDED
    case UnknownExtended(_, _) => EXTENDED
  }

  function Body(p: Packet): bytes {
    match p
    case Init(v, es) => Put32(v) + PutExtensions(es)
    case Simple(_, id, arg) => Put32(id) + PutString(arg)
    case Pair(PosixRename, id, a, b) => Put32(id) + (PutString(POSIX_RENAME_NAME) + (PutString(a) + PutString(b)))
    case Pair(Hardlink, id, a, b) => Put32(id) + (PutString(HARDLINK_NAME) + (PutString(a) + PutString(b)))
    case Pair(_, id, a, b) => Put32(id) + (PutString(a) + PutString(b))
    case Open(id, path, pflags, flags) => Put32(id) + (PutString(path) + (Put32(pflags) + Put32(flags)))
    case Read(id, h, off, len) => Put32(id) + (PutString(h) + (Put64(off) + Put32(len)))
    case Write(id, h, off, len, data) => Put32(id) + (PutString(h) + (Put64(off) + (Put32(len) + data)))
    case Mkdir(id, path, flags) => Put32(id) + (PutString(path) + Put32(flags))
    case Setstat(id, path, flags, attrs) => Put32(id) + (PutString(path) + (Put32(flags) + attrs))
    case Fsetstat(id, h, flags, attrs) => Put32(id) + (PutString(h) + (Put32(flags) + attrs))
    case Statvfs(id, path) => Put32(id) + (PutString(STATVFS_NAME) + PutString(path))
    case UnknownExtended(id, request) => Put32(id) + PutString(request)
  }

  function Marshal(p: Packet): bytes {
    [TypeOf(p)] + Body(p)
  }

  // ---- the server's UnmarshalBinary ---------------------------------------------

  function GetExtensions(b: bytes): Parsed<seq<Extension>>
    decreases |b|
  {
    if b == [] then Got([], [])
    else
      var (name, b1) :- GetString(b);
      var (data, b2) :- GetString(b1);
      var (more, b3) :- GetExtensions(b2);
      Got([Extension(name, data)] + more, b3)
  }

  function GetInit(b: bytes): Parsed<Packet> {
    var (v, b1) :- Get32(b);
    var (es, b2) :- GetExtensions(b1);
    Got(Init(v, es), b2)
  }

  function GetSimple(k: SimpleKind, b: bytes): Parsed<Packet> {
    var (id, b1) :- Get32(b);
    var (arg, b2) :- GetString(b1);
    Got(Simple(k, id, arg), b2)
  }

  function GetPair(k: PairKind, b: bytes): Parsed<Packet> {
    var (id, b1) :- Get32(b);
    var (x, b2) :- GetString(b1);
    var (y, b3) :- GetString(b2);
    Got(Pair(k, id, x, y), b3)
  }

  function GetOpen(b: bytes): Parsed<Packet> {
    var (id, b1) :- Get32(b);
    var (path, b2) :- GetString(b1);
    var (pflags, b3) :- Get32(b2);
    var (flags, b4) :- Get32(b3);
    Got(Open(id, path, pflags, flags), b4)
  }

  function GetRead(b: bytes): Parsed<Packet> {
    var (id, b1) :- Get32(b);
    var (handle, b2) :- GetString(b1);
    var (offset, b3) :- Get64(b2);
    var (len, b4) :- Get32(b3);
    Got(Read(id, handle, offset, len), b4)
  }

  function GetWrite(b: bytes): Parsed<Packet> {
    var (id, b1) :- Get32(b);
    var (handle, b2) :- GetString(b1);
    var (offset, b3) :- Get64(b2);
    var (length, b4) :- Get32(b3);
    if |b4| % TWO32 < length then Bad(ShortPacket)
    else Got(Write(id, handle, offset, length, b4[..length]), b4[length..])
  }

  function GetMkdir(b: bytes): Parsed<Packet> {
    var (id, b1) :- Get32(b);
    var (path, b2) :- GetString(b1);
    var (flags, b3) :- Get32(b2);
    Got(Mkdir(id, path, flags), b3)
  }

  function GetSetstat(onHandle: bool, b: bytes): Parsed<Packet> {
    var (id, b1) :- Get32(b);
    var (name, b2) :- GetString(b1);
    var (flags, b3) :- Get32(b2);
    Got(if onHandle then Fsetstat(id, name, flags, b3) else Setstat(id, name, flags, b3), [])
  }

  function GetStatvfs(b: bytes): Parsed<Packet> {
    var (id, b1) :- Get32(b);
    var (_, b2) :- GetString(b1);
    var (path, b3) :- GetString(b2);
    Got(Statvfs(id, path), b3)
  }

  function GetExtendedPair(k: PairKind, b: bytes): Parsed<Packet> {
    var (id, b1) :- Get32(b);
    var (_, b2) :- GetString(b1);
    var (x, b3) :- GetString(b2);
    var (y, b4) :- GetString(b3);
    Got(Pair(k, id, x, y), b4)
  }

  /** An extended packet is parsed twice: once for its name, then again from the start by the named packet. */
  function GetExtended(b: bytes): Parsed<Packet> {
    var (id, b1) :- Get32(b);
    var (request, b2) :- GetString(b1);
    if request == STATVFS_NAME then GetStatvfs(b)
    else if request == POSIX_RENAME_NAME then GetExtendedPair(PosixRename, b)
    else if request == HARDLINK_NAME then GetExtendedPair(Hardlink, b)
    else Got(UnknownExtended(id, request), b2)
  }

  function Unmarshal(t: byte, b: bytes): Parsed<Packet> {
    if t == INIT then GetInit(b)
    else if SimpleOf(t).Some? then GetSimple(SimpleOf(t).value, b)
    else if t == OPEN then GetOpen(b)
    else if t == READ then GetRead(b)
    else if t == WRITE then GetWrite(b)
    else if t == SETSTAT then GetSetstat(false, b)
    else if t == FSETSTAT then GetSetstat(true, b)
    else if t == MKDIR then GetMkdir(b)
    else if t == RENAME then GetPair(Rename, b)
    else if t == SYMLINK then GetPair(Symlink, b)
    else if t == EXTENDED then GetExtended(b)
    else Bad(UnhandledType)
  }

  function MakePacket(t: byte, b: bytes): Made {
    match Unmarshal(t, b)
    case Bad(fault) => Refused(fault)
    case Got(p, _) => if p.UnknownExtended? then Unknown(p) else Made(p)
  }

  // ---- round trip -----------------------------------------------------------------

  predicate Short(s: bytes) {
    |s| < TWO32
  }

  /**
    The packets a client can build: 32- and 64-bit fields in range, strings a length field can carry, Length equal to
    len(Data).
   */
  predicate WellFormed(p: Packet) {
    match p
    case Init(v, es) => v < TWO32 && forall e | e in es :: Short(e.name) && Short(e.data)
    case Simple(_, id, arg) => id < TWO32 && Short(arg)
    case Pair(_, id, a, b) => id < TWO32 && Short(a) && Short(b)
    case Open(id, path, pflags, flags) => id < TWO32 && Short(path) && pflags < TWO32 && flags < TWO32
    case Read(id, h, off, len) => id < TWO32 && Short(h) && off < TWO64 && len < TWO32
    case Write(id, h, off, len, data) => id < TWO32 && Short(h) && off < TWO64 && len == |data| < TWO32
    case Mkdir(id, path, flags) => id < TWO32 && Short(path) && flags < TWO32
    case Setstat(id, path, flags, attrs) => id < TWO32 && Short(path) && flags < TWO32
    case Fsetstat(id, h, flags, attrs) => id < TWO32 && Short(h) && flags < TWO32
    case Statvfs(id, path) => id < TWO32 && Short(path)
    case UnknownExtended(id, request) =>
      && id < TWO32 && Short(request)
      && request != STATVFS_NAME && request != POSIX_RENAME_NAME && request != HARDLINK_NAME
  }

  lemma {:induction false} ExtensionsRoundTrip(es: seq<Extension>)
    requires forall e | e in es :: Short(e.name) && Short(e.data)
    ensures GetExtensions(PutExtensions(es)) == Got(es, [])
  {
    if es == [] {
    } else {
      var tail := PutExtensions(es[1..]);
      GetStringOfPut(es[0].name, PutString(es[0].data) + tail);
      GetStringOfPut(es[0].data, tail);
      ExtensionsRoundTrip(es[1..]);
      assert es == [Extension(es[0].name, es[0].data)] + es[1..];
    }
  }

  lemma NamesApart()
    ensures STATVFS_NAME != POSIX_RENAME_NAME && STATVFS_NAME != HARDLINK_NAME && POSIX_RENAME_NAME != HARDLINK_NAME
    ensures Short(STATVFS_NAME) && Short(POSIX_RENAME_NAME) && Short(HARDLINK_NAME)
  {
    assert |STATVFS_NAME| == 19 && |POSIX_RENAME_NAME| == 24 && |HARDLINK_NAME| == 20;
  }

  /**
    How many bytes of the body a packet cannot do without; only the attribute block of the setstat packets is
    open-ended.
   */
  function Fixed(p: Packet): (n: nat)
    requires !p.Init?
  {
    match p
    case Setstat(_, path, _, _) => 12 + |path|
    case Fsetstat(_, handle, _, _) => 12 + |handle|
    case _ => |Body(p)|
  }

  /** Packet p received with only the first k bytes of its body. */
  function Cut(p: Packet, k: nat): Packet
    requires !p.Init? && Fixed(p) <= k <= |Body(p)|
  {
    match p
    case Setstat(id, path, flags, attrs) => Setstat(id, path, flags, attrs[..k - 12 - |path|])
    case Fsetstat(id, handle, flags, attrs) => Fsetstat(id, handle, flags, attrs[..k - 12 - |handle|])
    case _ => p
  }

  /** The outcome the lemmas below establish for every packet and every cut. */
  ghost predicate CutRight(p: Packet, k: nat, r: Parsed<Packet>)
    requires !p.Init? && k <= |Body(p)|
  {
    r == if k < Fixed(p) then Bad(ShortPacket) else Got(Cut(p, k), [])
  }

  lemma Last32(v: nat, k: nat)
    requires v < TWO32 && k <= 4
    ensures Get32(Put32(v)[..k]) == if k < 4 then Bad(ShortPacket) else Got(v, [])
  {
    assert Put32(v) + [] == Put32(v);
    Cut32(v, [], k);
  }

  lemma LastString(s: bytes, k: nat)
    requires Short(s) && k <= 4 + |s|
    ensures GetString(PutString(s)[..k]) == if k < 4 + |s| then Bad(ShortPacket) else Got(s, [])
  {
    assert PutString(s) + [] == PutString(s);
    CutString(s, [], k);
  }

  lemma CutSimple(p: Packet, k: nat)
    requires WellFormed(p) && p.Simple? && k <= |Body(p)|
    ensures CutRight(p, k, GetSimple(p.kind, Body(p)[..k]))
  {
    hide Get32, Get64, GetString, Put32, Put64, PutString;
    Cut32(p.id, PutString(p.arg), k);
    if k >= 4 {
      LastString(p.arg, k - 4);
    }
  }

  lemma CutPair(p: Packet, k: nat)
    requires WellFormed(p) && p.Pair? && (p.pair == Rename || p.pair == Symlink) && k <= |Body(p)|
    ensures CutRight(p, k, GetPair(p.pair, Body(p)[..k]))
  {
    hide Get32, Get64, GetString, Put32, Put64, PutString;
    Cut32(p.id, PutString(p.first) + PutString(p.second), k);
    if k >= 4 {
      CutString(p.first, PutString(p.second), k - 4);
      if k >= 8 + |p.first| {
        LastString(p.second, k - 8 - |p.first|);
      }
    }
  }

  lemma CutOpen(p: Packet, k: nat)
    requires WellFormed(p) && p.Open? && k <= |Body(p)|
    ensures CutRight(p, k, GetOpen(Body(p)[..k]))
  {
    hide Get32, Get64, GetString, Put32, Put64, PutString;
    var t := Put32(p.pflags) + Put32(p.flags);
    Cut32(p.id, PutString(p.path) + t, k);
    if k >= 4 {
      CutString(p.path, t, k - 4);
      var j := k - 8 - |p.path|;
      if j >= 0 {
        Cut32(p.pflags, Put32(p.flags), j);
        if j >= 4 {
          Last32(p.flags, j - 4);
        }
      }
    }
  }

  lemma CutRead(p: Packet, k: nat)
    requires WellFormed(p) && p.Read? && k <= |Body(p)|
    ensures CutRight(p, k, GetRead(Body(p)[..k]))
  {
    hide Get32, Get64, GetString, Put32, Put64, PutString;
    var t := Put64(p.offset) + Put32(p.len);
    Cut32(p.id, PutString(p.handle) + t, k);
    if k >= 4 {
      CutString(p.handle, t, k - 4);
      var j := k - 8 - |p.handle|;
      if j >= 0 {
        Cut64(p.offset, Put32(p.len), j);
        if j >= 8 {
          Last32(p.len, j - 8);
        }
      }
    }
  }

  lemma CutWrite(p: Packet, k: nat)
    requires WellFormed(p) && p.Write? && k <= |Body(p)|
    ensures CutRight(p, k, GetWrite(Body(p)[..k]))
  {
    hide Get32, Get64, GetString, Put32, Put64, PutString;
    var t2 := Put32(p.length) + p.data;
    var t := Put64(p.offset) + t2;
    Cut32(p.id, PutString(p.handle) + t, k);
    if k >= 4 {
      CutString(p.handle, t, k - 4);
      var j := k - 8 - |p.handle|;
      if j >= 0 {
        Cut64(p.offset, t2, j);
        if j >= 8 {
          Cut32(p.length, p.data, j - 8);
          if j == 12 + |p.data| {
            assert p.data[..j - 12] == p.data && p.data[..p.length] == p.data && p.data[p.length..] == [];
          }
        }
      }
    }
  }

  lemma CutMkdir(p: Packet, k: nat)
    requires WellFormed(p) && p.Mkdir? && k <= |Body(p)|
    ensures CutRight(p, k, GetMkdir(Body(p)[..k]))
  {
    hide Get32, Get64, GetString, Put32, Put64, PutString;
    Cut32(p.id, PutString(p.path) + Put32(p.flags), k);
    if k >= 4 {
      CutString(p.path, Put32(p.flags), k - 4);
      if k >= 8 + |p.path| {
        Last32(p.flags, k - 8 - |p.path|);
      }
    }
  }

  lemma CutSetstat(p: Packet, k: nat)
    requires WellFormed(p) && (p.Setstat? || p.Fsetstat?) && k <= |Body(p)|
    ensures CutRight(p, k, GetSetstat(p.Fsetstat?, Body(p)[..k]))
  {
    hide Get32, Get64, GetString, Put32, Put64, PutString;
    var name := if p.Setstat? then p.path else p.handle;
    var t := Put32(p.flags) + p.attrs;
    Cut32(p.id, PutString(name) + t, k);
    if k >= 4 {
      CutString(name, t, k - 4);
      if k >= 8 + |name| {
        Cut32(p.flags, p.attrs, k - 8 - |name|);
      }
    }
  }

  lemma CutStatvfs(p: Packet, k: nat)
    requires WellFormed(p) && p.Statvfs? && k <= |Body(p)|
    ensures CutRight(p, k, GetExtended(Body(p)[..k]))
  {
    hide Get32, Get64, GetString, Put32, Put64, PutString;
    NamesApart();
    Cut32(p.id, PutString(STATVFS_NAME) + PutString(p.path), k);
    if k >= 4 {
      CutString(STATVFS_NAME, PutString(p.path), k - 4);
      if k >= 8 + |STATVFS_NAME| {
        LastString(p.path, k - 8 - |STATVFS_NAME|);
      }
    }
  }

  lemma CutExtendedPair(p: Packet, k: nat, name: bytes)
    requires WellFormed(p) && p.Pair? && k <= |Body(p)|
    requires (p.pair == PosixRename && name == POSIX_RENAME_NAME) || (p.pair == Hardlink && name == HARDLINK_NAME)
    ensures CutRight(p, k, GetExtended(Body(p)[..k]))
  {
    hide Get32, Get64, GetString, Put32, Put64, PutString;
    NamesApart();
    var t := PutString(p.first) + PutString(p.second);
    Cut32(p.id, PutString(name) + t, k);
    if k >= 4 {
      CutString(name, t, k - 4);
      var j := k - 8 - |name|;
      if j >= 0 {
        CutString(p.first, PutString(p.second), j);
        if j >= 4 + |p.first| {
          LastString(p.second, j - 4 - |p.first|);
        }
      }
    }
  }

  lemma CutUnknown(p: Packet, k: nat)
    requires WellFormed(p) && p.UnknownExtended? && k <= |Body(p)|
    ensures CutRight(p, k, GetExtended(Body(p)[..k]))
  {
    hide Get32, Get64, GetString, Put32, Put64, PutString;
    Cut32(p.id, PutString(p.request), k);
    if k >= 4 {
      LastString(p.request, k - 4);
    }
  }

  lemma TypesApart(p: Packet)
    ensures SimpleOf(TypeOf(p)) == if p.Simple? then Some(p.kind) else None
    ensures TypeOf(p) == INIT <==> p.Init?
  {
  }

  lemma UnmarshalCut(p: Packet, k: nat)
    requires WellFormed(p) && !p.Init? && k <= |Body(p)|
    ensures CutRight(p, k, Unmarshal(TypeOf(p), Body(p)[..k]))
  {
    hide WellFormed, Body, CutRight, GetSimple, GetPair, GetOpen, GetRead, GetWrite, GetMkdir, GetSetstat, GetExtended,
         SimpleOf, SimpleType;
    TypesApart(p);
    match p
    case Simple(_, _, _) => CutSimple(p, k);
    case Pair(Rename, _, _, _) => CutPair(p, k);
    case Pair(Symlink, _, _, _) => CutPair(p, k);
    case Pair(PosixRename, _, _, _) => CutExtendedPair(p, k, POSIX_RENAME_NAME);
    case Pair(Hardlink, _, _, _) => CutExtendedPair(p, k, HARDLINK_NAME);
    case Open(_, _, _, _) => CutOpen(p, k);
    case Read(_, _, _, _) => CutRead(p, k);
    case Write(_, _, _, _, _) => CutWrite(p, k);
    case Mkdir(_, _, _) => CutMkdir(p, k);
    case Setstat(_, _, _, _) => CutSetstat(p, k);
    case Fsetstat(_, _, _, _) => CutSetstat(p, k);
    case Statvfs(_, _) => CutStatvfs(p, k);
    case UnknownExtended(_, _) => CutUnknown(p, k);
  }

  /**
    makePacket recovers every packet a client can marshal, the extension list of INIT and the twice-parsed packets
    included.
   */
  lemma RoundTrip(p: Packet)
    requires WellFormed(p)
    ensures MakePacket(Marshal(p)[0], Marshal(p)[1..]) == if p.UnknownExtended? then Unknown(p) else Made(p)
  {
    assert Marshal(p)[1..] == Body(p);
    if p.Init? {
      Get32OfPut(p.version, PutExtensions(p.extensions));
      ExtensionsRoundTrip(p.extensions);
    } else {
      assert Body(p)[..|Body(p)|] == Body(p);
      hide WellFormed, Unmarshal, Body;
      UnmarshalCut(p, |Body(p)|);
      FullCut(p);
    }
  }

  lemma FullCut(p: Packet)
    requires !p.Init?
    ensures Fixed(p) <= |Body(p)| && Cut(p, |Body(p)|) == p
  {
  }

  /** A packet cut short anywhere in its fixed part is refused as too short, never mistaken for another packet. */
  lemma TruncationRefused(p: Packet, k: nat)
    requires WellFormed(p) && k < if p.Init? then 4 else Fixed(p)
    ensures MakePacket(TypeOf(p), Body(p)[..k]) == Refused(ShortPacket)
  {
    if p.Init? {
      CutInit(p, k);
    } else {
      hide WellFormed, Unmarshal, Body;
      FullCut(p);
      UnmarshalCut(p, k);
    }
  }

  // ---- the layouts of the draft ---------------------------------------------------------

  function ExtensionFields(es: seq<Extension>): seq<Field> {
    if es == [] then [] else [Str(es[0].name), Str(es[0].data)] + ExtensionFields(es[1..])
  }

  /** The fields of a request behind its type, as sections 4 and 6 of the draft list them. */
  function Fields(p: Packet): seq<Field> {
    match p
    case Init(version, extensions) => [U32(version)] + ExtensionFields(extensions)
    case Simple(_, id, arg) => [U32(id), Str(arg)]
    case Pair(k, id, first, second) =>
      if k == PosixRename then [U32(id), Str(Text("posix-rename@openssh.com")), Str(first), Str(second)]
      else if k == Hardlink then [U32(id), Str(Text("hardlink@openssh.com")), Str(first), Str(second)]
      else [U32(id), Str(first), Str(second)]
    case Open(id, path, pflags, flags) => [U32(id), Str(path), U32(pflags), U32(flags)]
    case Read(id, handle, offset, len) => [U32(id), Str(handle), U64(offset), U32(len)]
    case Write(id, handle, offset, _, data) => [U32(id), Str(handle), U64(offset), Str(data)]
    case Mkdir(id, path, flags) => [U32(id), Str(path), U32(flags)]
    case Setstat(id, path, flags, attrs) => [U32(id), Str(path), U32(flags), Raw(attrs)]
    case Fsetstat(id, handle, flags, attrs) => [U32(id), Str(handle), U32(flags), Raw(attrs)]
    case Statvfs(id, path) => [U32(id), Str(Text("statvfs@openssh.com")), Str(path)]
    case UnknownExtended(id, request) => [U32(id), Str(request)]
  }

  /** The requests that the draft gives each type. */
  predicate HasType(p: Packet, t: byte) {
    match t as int
    case 1 => p.Init?
    case 3 => p.Open?
    case 4 => p.Simple? && p.kind == Close
    case 5 => p.Read?
    case 6 => p.Write?
    case 7 => p.Simple? && p.kind == Lstat
    case 8 => p.Simple? && p.kind == Fstat
    case 9 => p.Setstat?
    case 10 => p.Fsetstat?
    case 11 => p.Simple? && p.kind == Opendir
    case 12 => p.Simple? && p.kind == Readdir
    case 13 => p.Simple? && p.kind == Remove
    case 14 => p.Mkdir?
    case 15 => p.Simple? && p.kind == Rmdir
    case 16 => p.Simple? && p.kind == Realpath
    case 17 => p.Simple? && p.kind == Stat
    case 18 => p.Pair? && p.pair == Rename
    case 19 => p.Simple? && p.kind == Readlink
    case 20 => p.Pair? && p.pair == Symlink
    case 200 => p.Statvfs? || p.UnknownExtended? || (p.Pair? && p.pair in {PosixRename, Hardlink})
    case _ => false
  }

  lemma TypeExactly(p: Packet, t: byte)
    ensures t == TypeOf(p) <==> HasType(p, t)
  {
    match p {
      case Simple(k, _, _) => match k { case _ => }
      case Pair(k, _, _, _) => match k { case _ => }
      case _ =>
    }
  }

  lemma PutThree(a: Field, b: Field, c: Field)
    ensures PutFields([a, b, c]) == PutField(a) + (PutField(b) + PutField(c))
  {
    hide PutField;
    PutTwo(b, c);
    assert [a, b, c][1..] == [b, c];
  }

  lemma PutFour(a: Field, b: Field, c: Field, d: Field)
    ensures PutFields([a, b, c, d]) == PutField(a) + (PutField(b) + (PutField(c) + PutField(d)))
  {
    hide PutField;
    PutThree(b, c, d);
    assert [a, b, c, d][1..] == [b, c, d];
  }

  lemma {:induction false} ExtensionsLaidOut(es: seq<Extension>)
    requires forall e | e in es :: Short(e.name) && Short(e.data)
    ensures PutFields(ExtensionFields(es)) == PutExtensions(es)
    ensures forall f | f in ExtensionFields(es) :: FieldFits(f)
  {
    if es != [] {
      ExtensionsLaidOut(es[1..]);
      var fs, rest := ExtensionFields(es), ExtensionFields(es[1..]);
      assert fs[1..] == [Str(es[0].data)] + rest && fs[1..][1..] == rest;
      assert forall f | f in fs :: f == Str(es[0].name) || f == Str(es[0].data) || f in rest;
    }
  }

  lemma InitLaidOut(p: Packet)
    requires WellFormed(p) && p.Init?
    ensures PutFields(Fields(p)) == Body(p) && forall f | f in Fields(p) :: FieldFits(f)
  {
    ExtensionsLaidOut(p.extensions);
    assert Fields(p)[1..] == ExtensionFields(p.extensions);
  }

  lemma PairLaidOut(p: Packet)
    requires WellFormed(p) && p.Pair?
    ensures PutFields(Fields(p)) == Body(p) && forall f | f in Fields(p) :: FieldFits(f)
  {
    hide Put32, Put64, PutFields;
    NamesApart();
    var Pair(k, id, first, second) := p;
    PutThree(U32(id), Str(first), Str(second));
    PutFour(U32(id), Str(POSIX_RENAME_NAME), Str(first), Str(second));
    PutFour(U32(id), Str(HARDLINK_NAME), Str(first), Str(second));
  }

  lemma BodyLaidOut(p: Packet)
    requires WellFormed(p)
    ensures PutFields(Fields(p)) == Body(p) && forall f | f in Fields(p) :: FieldFits(f)
  {
    hide Put32, Put64, PutFields;
    NamesApart();
    match p
    case Init(_, _) => InitLaidOut(p);
    case Simple(_, id, arg) => PutTwo(U32(id), Str(arg));
    case Pair(_, _, _, _) => PairLaidOut(p);
    case Open(id, path, pflags, flags) => PutFour(U32(id), Str(path), U32(pflags), U32(flags));
    case Read(id, handle, offset, len) => PutFour(U32(id), Str(handle), U64(offset), U32(len));
    case Write(id, handle, offset, _, data) => PutFour(U32(id), Str(handle), U64(offset), Str(data));
    case Mkdir(id, path, flags) => PutThree(U32(id), Str(path), U32(flags));
    case Setstat(id, path, flags, attrs) => PutFour(U32(id), Str(path), U32(flags), Raw(attrs));
    case Fsetstat(id, handle, flags, attrs) => PutFour(U32(id), Str(handle), U32(flags), Raw(attrs));
    case Statvfs(id, path) => PutThree(U32(id), Str(STATVFS_NAME), Str(path));
    case UnknownExtended(id, request) => PutTwo(U32(id), Str(request));
  }

  /** What a client sends for a request: exactly the bytes that the draft lays out, type first. */
  lemma LayoutExactly(p: Packet, b: bytes)
    requires WellFormed(p)
    ensures b == Marshal(p) <==> b != [] && HasType(p, b[0]) && LaidOut(b, 1, Fields(p))
  {
    hide WellFormed, Body, LaidOut, Fields, HasType, TypeOf;
    BodyLaidOut(p);
    if b != [] {
      TypeExactly(p, b[0]);
      LaidOutExactly(b, 1, Fields(p));
      assert b == [b[0]] + b[1..];
    }
  }

  // ---- INIT, the one packet without a fixed end -------------------------------------

  function ExtensionSize(e: Extension): nat {
    8 + |e.name| + |e.data|
  }

  /** How many whole extensions k bytes hold, if they end with one. */
  function Wholes(es: seq<Extension>, k: nat): (r: Option<nat>)
    ensures r.Some? ==> r.value <= |es|
  {
    if k == 0 then Some(0)
    else if es == [] || k < ExtensionSize(es[0]) then None
    else
      match Wholes(es[1..], k - ExtensionSize(es[0]))
      case None => None
      case Some(j) => Some(j + 1)
  }

  lemma FirstExtension(es: seq<Extension>)
    requires es != []
    ensures |PutExtensions(es)| == ExtensionSize(es[0]) + |PutExtensions(es[1..])|
  {
  }

  /** k bytes end with extension number j exactly when they are the encoding of the first j. */
  lemma {:induction false} WholesExactly(es: seq<Extension>, k: nat, j: nat)
    ensures Wholes(es, k) == Some(j) <==> j <= |es| && k == |PutExtensions(es[..j])|
  {
    if j == 0 {
      assert es[..0] == [];
    } else if es != [] && j <= |es| {
      FirstExtension(es[..j]);
      assert es[..j][1..] == es[1..][..j - 1];
    }
    if k > 0 && es != [] && k >= ExtensionSize(es[0]) && j > 0 {
      hide PutExtensions;
      WholesExactly(es[1..], k - ExtensionSize(es[0]), j - 1);
    }
  }

  /** The first extension of a cut encoding: it is either incomplete or read, and the rest is what was cut. */
  lemma CutFirst(e: Extension, tail: bytes, k: nat)
    requires Short(e.name) && Short(e.data) && 0 < k <= ExtensionSize(e) + |tail|
    ensures
      var r := GetExtensions((PutString(e.name) + (PutString(e.data) + tail))[..k]);
      if k < ExtensionSize(e) then r == Bad(ShortPacket)
      else
        match GetExtensions(tail[..k - ExtensionSize(e)])
        case Bad(f) => r == Bad(f)
        case Got(more, rest) => r == Got([Extension(e.name, e.data)] + more, rest)
  {
    var b := (PutString(e.name) + (PutString(e.data) + tail))[..k];
    assert b != [];
    hide GetString, PutString;
    CutString(e.name, PutString(e.data) + tail, k);
    if k >= 4 + |e.name| {
      CutString(e.data, tail, k - 4 - |e.name|);
    }
  }

  /** What GetExtensions makes of the first k bytes. */
  function FirstWholes(es: seq<Extension>, k: nat): Parsed<seq<Extension>> {
    match Wholes(es, k)
    case Some(j) => Got(es[..j], [])
    case None => Bad(ShortPacket)
  }

  lemma FirstWholesNext(es: seq<Extension>, k: nat)
    requires es != [] && k > 0
    ensures FirstWholes(es, k) ==
            if k < ExtensionSize(es[0]) then Bad(ShortPacket)
            else match FirstWholes(es[1..], k - ExtensionSize(es[0])) {
              case Bad(f) => Bad(f)
              case Got(more, rest) => Got([es[0]] + more, rest)
            }
  {
    if k >= ExtensionSize(es[0]) {
      var n := k - ExtensionSize(es[0]);
      if Wholes(es[1..], n).Some? {
        var j := Wholes(es[1..], n).value;
        assert [es[0]] + es[1..][..j] == es[..j + 1];
      }
    }
  }

  lemma {:induction false} CutExtensions(es: seq<Extension>, k: nat)
    requires (forall e | e in es :: Short(e.name) && Short(e.data)) && k <= |PutExtensions(es)|
    ensures GetExtensions(PutExtensions(es)[..k]) == FirstWholes(es, k)
  {
    if k == 0 {
      assert PutExtensions(es)[..0] == [] && es[..0] == [];
    } else if es != [] {
      var e, tail := es[0], PutExtensions(es[1..]);
      assert PutExtensions(es) == PutString(e.name) + (PutString(e.data) + tail);
      FirstExtension(es);
      hide GetExtensions, PutString, PutExtensions, FirstWholes, Wholes;
      CutFirst(e, tail, k);
      FirstWholesNext(es, k);
      assert Extension(e.name, e.data) == e;
      if k >= ExtensionSize(e) {
        CutExtensions(es[1..], k - ExtensionSize(e));
      }
    }
  }

  lemma CutInit(p: Packet, k: nat)
    requires WellFormed(p) && p.Init? && k <= |Body(p)|
    ensures MakePacket(TypeOf(p), Body(p)[..k]) ==
            if k < 4 then Refused(ShortPacket)
            else match FirstWholes(p.extensions, k - 4) {
              case Got(es, _) => Made(Init(p.version, es))
              case Bad(f) => Refused(f)
            }
  {
    var b := Body(p)[..k];
    assert Body(p) == Put32(p.version) + PutExtensions(p.extensions);
    assert forall e | e in p.extensions :: Short(e.name) && Short(e.data);
    InitUnmarshal(b);
    hide Unmarshal, GetExtensions, PutExtensions, FirstWholes, Wholes, Get32, Put32, WellFormed, Body;
    Cut32(p.version, PutExtensions(p.extensions), k);
    if k >= 4 {
      CutExtensions(p.extensions, k - 4);
    }
  }

  lemma InitUnmarshal(b: bytes)
    ensures Unmarshal(INIT, b) == GetInit(b)
  {
  }

  /**
    An INIT packet that lost its end is accepted exactly when what is left ends with a whole extension, and then it
    is the INIT packet with the extensions so far; anywhere else it is refused as too short.
   */
  lemma InitCutExactly(p: Packet, k: nat)
    requires WellFormed(p) && p.Init? && k <= |Body(p)|
    ensures
      var made := MakePacket(TypeOf(p), Body(p)[..k]);
      && (forall j | 0 <= j <= |p.extensions| ::
            made == Made(Init(p.version, p.extensions[..j])) <==> k == 4 + |PutExtensions(p.extensions[..j])|)
      && (made == Refused(ShortPacket) <==>
            forall j | 0 <= j <= |p.extensions| :: k != 4 + |PutExtensions(p.extensions[..j])|)
  {
    hide WellFormed, MakePacket, Body, PutExtensions, Wholes;
    CutInit(p, k);
    var es := p.extensions;
    if k >= 4 {
      forall j: nat ensures Wholes(es, k - 4) == Some(j) <==> j <= |es| && k - 4 == |PutExtensions(es[..j])| {
        WholesExactly(es, k - 4, j);
      }
      forall i, j | 0 <= i <= |es| && 0 <= j <= |es| && es[..i] == es[..j] ensures i == j {
        assert |es[..i]| == |es[..j]|;
      }
    }
  }
}
