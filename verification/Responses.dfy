/**
  Which response each server sends for which request: handlePacket of the file-system Server and packetWorker of
  the RequestServer. What the operating system or the handlers answer is a parameter.
 */
module Responses {
  import opened Prelude
  import opened Packets

  /** The code of a status does not matter here, its id does. */
  datatype Response =
    | Version
    | Status(id: nat)
    | Handle(id: nat)
    | Data(id: nat)
    | Name(id: nat)
    | Attrs(id: nat)
    | ExtendedReply(id: nat)

  /** INIT and VERSION have no id; id() is zero for both. */
  function RequestId(p: Packet): nat {
    if p.Init? then 0 else p.id
  }

  function ResponseId(r: Response): nat {
    if r.Version? then 0 else r.id
  }

  /** What section 7 of the draft allows in answer to a request. */
  predicate Legal(p: Packet, r: Response) {
    match p
    case Init(_, _) => r.Version?
    case Simple(Lstat, _, _) => r.Attrs? || r.Status?
    case Simple(Stat, _, _) => r.Attrs? || r.Status?
    case Simple(Fstat, _, _) => r.Attrs? || r.Status?
    case Simple(Opendir, _, _) => r.Handle? || r.Status?
    case Simple(Readdir, _, _) => r.Name? || r.Status?
    case Simple(Realpath, _, _) => r.Name? || r.Status?
    case Simple(Readlink, _, _) => r.Name? || r.Status?
    case Open(_, _, _, _) => r.Handle? || r.Status?
    case Read(_, _, _, _) => r.Data? || r.Status?
    case Statvfs(_, _) => r.ExtendedReply? || r.Status?
    case _ => r.Status?
  }

  /**
    The outside world's answers: handle known, call failed, failure was EOF, bytes or entries delivered, path is a
    directory.
   */
  datatype World = World(found: bool, failed: bool, eof: bool, n: nat, isDir: bool)

  // ---- Server -----------------------------------------------------------------------

  /** The worker's read-only check; the bit test on Pflags is SSH_FXF_WRITE. */
  predicate ReadOnlyPacket(p: Packet) {
    match p
    case Write(_, _, _, _, _) => false
    case Setstat(_, _, _, _) => false
    case Fsetstat(_, _, _, _) => false
    case Mkdir(_, _, _) => false
    case Simple(k, _, _) => k != Remove && k != Rmdir
    case Pair(k, _, _, _) => k == Hardlink
    case Open(_, _, pflags, _) => pflags / 2 % 2 == 0
    case _ => true
  }

  predicate Bit(pflags: nat, bit: nat)
    requires bit > 0
  {
    pflags / bit % 2 == 1
  }

  const FXF_READ: nat := 1
  const FXF_WRITE: nat := 2
  const FXF_APPEND: nat := 4
  const FXF_CREAT: nat := 8
  const FXF_TRUNC: nat := 16

  /** The requests that can change the file system when they are served. */
  predicate Changes(p: Packet) {
    match p
    case Write(_, _, _, _, _) => true
    case Setstat(_, _, _, _) => true
    case Fsetstat(_, _, _, _) => true
    case Mkdir(_, _, _) => true
    case Simple(k, _, _) => k == Remove || k == Rmdir
    case Pair(_, _, _, _) => true
    case Open(_, _, pflags, _) =>
      || Bit(pflags, FXF_WRITE)
      || (Bit(pflags, FXF_READ) && (Bit(pflags, FXF_CREAT) || Bit(pflags, FXF_TRUNC)))
    case _ => false
  }

  /** An open for reading only that asks for the file to be created or truncated. */
  predicate ChangesOnRead(p: Packet) {
    && p.Open? && Bit(p.pflags, FXF_READ) && !Bit(p.pflags, FXF_WRITE)
    && (Bit(p.pflags, FXF_CREAT) || Bit(p.pflags, FXF_TRUNC))
  }

  /**
    Read-only mode refuses exactly the changing requests, with two exceptions that it lets through: a hard link, and
    an open for reading that creates or truncates the file. What it refuses is answered with a status.
   */
  lemma ReadOnlyExactly(p: Packet, w: World)
    ensures !ReadOnlyPacket(p) <==> Changes(p) && !(p.Pair? && p.pair == Hardlink) && !ChangesOnRead(p)
    ensures ServerAnswer(true, p, w) == if ReadOnlyPacket(p) then HandlePacket(p, w) else Some(Status(RequestId(p)))
  {
    match p {
      case Simple(k, _, _) => match k { case _ => }
      case Pair(k, _, _, _) => match k { case _ => }
      case _ =>
    }
  }

  /** sshFxpOpenPacket.respond: some access flag must be set, and the open must succeed. */
  function RespondOpen(id: nat, pflags: nat, w: World): Response {
    if pflags % 4 == 0 || w.failed then Status(id) else Handle(id)
  }

  /** handlePacket; None stands for its error return, which sends nothing. */
  function HandlePacket(p: Packet, w: World): Option<Response> {
    match p
    case Init(_, _) => Some(Version)
    case Simple(Stat, id, _) => Some(if w.failed then Status(id) else Attrs(id))
    case Simple(Lstat, id, _) => Some(if w.failed then Status(id) else Attrs(id))
    case Simple(Fstat, id, _) => Some(if !w.found || w.failed then Status(id) else Attrs(id))
    case Simple(Rmdir, id, _) => Some(Status(id))
    case Simple(Remove, id, _) => Some(Status(id))
    case Simple(Close, id, _) => Some(Status(id))
    case Simple(Readlink, id, _) => Some(if w.failed then Status(id) else Name(id))
    case Simple(Realpath, id, _) => Some(if w.failed then Status(id) else Name(id))
    case Simple(Opendir, id, _) => Some(if w.failed || !w.isDir then Status(id) else RespondOpen(id, 1, w))
    case Simple(Readdir, id, _) => Some(if !w.found || w.failed then Status(id) else Name(id))
    case Pair(_, id, _, _) => Some(Status(id))
    case Open(id, _, pflags, _) => Some(RespondOpen(id, pflags, w))
    case Read(id, _, _, _) =>
      Some(if !w.found || (w.failed && (!w.eof || w.n == 0)) then Status(id) else Data(id))
    case Write(id, _, _, _, _) => Some(Status(id))
    case Mkdir(id, _, _) => Some(Status(id))
    case Setstat(id, _, _, _) => Some(Status(id))
    case Fsetstat(id, _, _, _) => Some(Status(id))
    case Statvfs(id, _) => Some(if w.failed then Status(id) else ExtendedReply(id))
    case UnknownExtended(id, _) => Some(Status(id))
  }

  function ServerAnswer(readOnly: bool, p: Packet, w: World): Option<Response> {
    if readOnly && !ReadOnlyPacket(p) then Some(Status(RequestId(p))) else HandlePacket(p, w)
  }

  // ---- RequestServer -------------------------------------------------------------------

  /** The method of an open request; it is fixed when the handle is opened, `Bad` when the open flags were. */
  datatype Method = Get | Put | List | Bad

  /** Request.call on an open handle: the method decides what happens, not the packet. */
  function Call(m: Method, id: nat, w: World): Response {
    match m
    case Get => if w.failed && (!w.eof || w.n == 0) then Status(id) else Data(id)
    case Put => Status(id)
    case List => if w.failed && (!w.eof || w.n == 0) then Status(id) else Name(id)
    case Bad => Status(id)
  }

  /** Request.call for the methods "Stat" and "Readlink". */
  function CallStat(id: nat, readlink: bool, w: World): Response {
    if (w.failed && !w.eof) || w.n == 0 then Status(id) else if readlink then Name(id) else Attrs(id)
  }

  function RequestServerAnswer(p: Packet, m: Method, w: World): Response {
    match p
    case Init(_, _) => Version
    case Simple(Close, id, _) => Status(id)
    case Simple(Realpath, id, _) => Name(id)
    case Simple(Opendir, id, _) => if w.failed then Status(id) else Handle(id)
    case Open(id, _, pflags, _) => if pflags % 32 == 0 || w.failed then Status(id) else Handle(id)
    case Simple(Fstat, id, _) => if w.found then CallStat(id, false, w) else Status(id)
    case Fsetstat(id, _, _, _) => Status(id)
    case Pair(PosixRename, id, _, _) => Status(id)
    case Read(id, _, _, _) => if w.found then Call(m, id, w) else Status(id)
    case Write(id, _, _, _, _) => if w.found then Call(m, id, w) else Status(id)
    case Simple(Readdir, id, _) => if w.found then Call(m, id, w) else Status(id)
    case Simple(Stat, id, _) => CallStat(id, false, w)
    case Simple(Lstat, id, _) => CallStat(id, false, w)
    case Simple(Readlink, id, _) => CallStat(id, true, w)
    case Simple(_, id, _) => Status(id)
    case Pair(_, id, _, _) => Status(id)
    case Mkdir(id, _, _) => Status(id)
    case Setstat(id, _, _, _) => Status(id)
    case Statvfs(id, _) => Status(id)
    case UnknownExtended(id, _) => Status(id)
  }

  // ---- both -------------------------------------------------------------------------------

  datatype Server = FileServer(readOnly: bool) | HandlerServer

  /** What a worker puts into the response channel for one request, if anything. */
  function Answer(srv: Server, p: Packet, m: Method, w: World): Option<Response> {
    match srv
    case FileServer(readOnly) => ServerAnswer(readOnly, p, w)
    case HandlerServer => Some(RequestServerAnswer(p, m, w))
  }

  /** Both servers answer every packet that makePacket lets through, and the answer carries the request's id. */
  lemma AnswersWithId(srv: Server, p: Packet, m: Method, w: World)
    ensures Answer(srv, p, m, w).Some?
    ensures ResponseId(Answer(srv, p, m, w).value) == RequestId(p)
  {
    match p {
      case Simple(k, _, _) => match k { case _ => }
      case Pair(k, _, _, _) => match k { case _ => }
      case _ =>
    }
  }

  // ---- success and failure ----------------------------------------------------------------

  /** The response that the draft has for a request that succeeds; None where that is a status. */
  function OnSuccess(p: Packet): Option<Response> {
    match p
    case Init(_, _) => Some(Version)
    case Simple(k, id, _) =>
      if k in {Stat, Lstat, Fstat} then Some(Attrs(id))
      else if k in {Readdir, Realpath, Readlink} then Some(Name(id))
      else if k == Opendir then Some(Handle(id))
      else None
    case Open(id, _, _, _) => Some(Handle(id))
    case Read(id, _, _, _) => Some(Data(id))
    case Statvfs(id, _) => Some(ExtendedReply(id))
    case _ => None
  }

  predicate NamesHandle(p: Packet) {
    p.Read? || p.Write? || p.Fsetstat? || (p.Simple? && p.kind in {Fstat, Readdir, Close})
  }

  /** A call that delivered something: at the end of a file or of a list, at least one byte or entry. */
  predicate Delivered(w: World) {
    !w.failed || (w.eof && w.n > 0)
  }

  /** What a request that names a handle gets from a handler: the method of the handle decides. */
  function FromHandle(m: Method, id: nat): Option<Response> {
    if m == Get then Some(Data(id)) else if m == List then Some(Name(id)) else None
  }

  /** The response other than a status that a server has for a request, if it has one. */
  function Positive(srv: Server, p: Packet, m: Method): Option<Response> {
    if srv == FileServer(true) && Changes(p) && !ChangesOnRead(p) then None
    else if srv.FileServer? then OnSuccess(p)
    else if p.Read? || p.Write? || (p.Simple? && p.kind == Readdir) then FromHandle(m, p.id)
    else if p.Statvfs? then None
    else OnSuccess(p)
  }

  /** When the server's work on a request succeeds. */
  predicate Succeeds(srv: Server, p: Packet, w: World) {
    && (NamesHandle(p) ==> w.found)
    && match p
       case Init(_, _) => true
       case Open(_, _, pflags, _) =>
         && !w.failed
         && (|| Bit(pflags, FXF_READ) || Bit(pflags, FXF_WRITE)
             || (srv.HandlerServer? && (Bit(pflags, FXF_APPEND) || Bit(pflags, FXF_CREAT) || Bit(pflags, FXF_TRUNC))))
       case Read(_, _, _, _) => Delivered(w)
       case Simple(Opendir, _, _) => !w.failed && (srv.HandlerServer? || w.isDir)
       case _ =>
         if srv.FileServer? then !w.failed
         else if p.Simple? && p.kind == Realpath then true
         else if p.Simple? && p.kind in {Stat, Lstat, Fstat, Readlink} then (!w.failed || w.eof) && w.n > 0
         else Delivered(w)
  }

  lemma NextBit(x: nat, n: nat)
    requires n > 0
    ensures x % (2 * n) == 0 <==> x % n == 0 && !Bit(x, n)
  {
    var q, h, b := x / n, x / n / 2, x / n % 2;
    var r := n * b + x % n;
    assert n * b == if b == 0 then 0 else n;
    assert x == n * q + x % n && q == 2 * h + b;
    assert n * q == (2 * n) * h + n * b;
    Remainder(x, 2 * n, h, r);
  }

  lemma Remainder(x: nat, m: nat, h: nat, r: nat)
    requires m > 0 && x == m * h + r && r < m
    ensures x % m == r
  {
    Multiples(m, x / m - h);
    assert m * (x / m - h) == r - x % m;
  }

  lemma Multiples(m: int, d: int)
    requires m > 0 && -m < m * d < m
    ensures d == 0
  {
  }

  lemma BitsOf(pflags: nat)
    ensures pflags % 4 == 0 <==> !Bit(pflags, 1) && !Bit(pflags, 2)
    ensures pflags % 32 == 0 <==>
            !Bit(pflags, 1) && !Bit(pflags, 2) && !Bit(pflags, 4) && !Bit(pflags, 8) && !Bit(pflags, 16)
  {
    NextBit(pflags, 1);
    NextBit(pflags, 2);
    NextBit(pflags, 4);
    NextBit(pflags, 8);
    NextBit(pflags, 16);
  }

  lemma FileServerExactly(readOnly: bool, p: Packet, m: Method, w: World)
    ensures
      var good := Positive(FileServer(readOnly), p, m);
      ServerAnswer(readOnly, p, w) ==
        Some(if good.Some? && Succeeds(FileServer(readOnly), p, w) then good.value else Status(RequestId(p)))
  {
    match p {
      case Open(_, _, pflags, _) => BitsOf(pflags);
      case Simple(k, _, _) => match k { case _ => }
      case Pair(k, _, _, _) => match k { case _ => }
      case _ =>
    }
  }

  lemma HandlerServerExactly(p: Packet, m: Method, w: World)
    ensures
      var good := Positive(HandlerServer, p, m);
      RequestServerAnswer(p, m, w) ==
        if good.Some? && Succeeds(HandlerServer, p, w) then good.value else Status(RequestId(p))
  {
    match p {
      case Open(_, _, pflags, _) => BitsOf(pflags);
      case Simple(k, _, _) => match k { case _ => }
      case Pair(k, _, _, _) => match k { case _ => }
      case _ =>
    }
  }

  /**
    Which response a request gets: the positive one exactly when the server has one for it and its work succeeded,
    and otherwise a status.
   */
  lemma AnsweredExactly(srv: Server, p: Packet, m: Method, w: World)
    ensures
      var good := Positive(srv, p, m);
      && (good.Some? && Succeeds(srv, p, w) <==> !Answer(srv, p, m, w).value.Status?)
      && (!Answer(srv, p, m, w).value.Status? ==> Answer(srv, p, m, w) == good)
      && (Answer(srv, p, m, w).value.Status? ==> Answer(srv, p, m, w) == Some(Status(RequestId(p))))
  {
    hide Positive, Succeeds, ServerAnswer, RequestServerAnswer, RequestId;
    AnswersWithId(srv, p, m, w);
    PositiveIsNoStatus(srv, p, m);
    match srv {
      case FileServer(readOnly) => FileServerExactly(readOnly, p, m, w);
      case HandlerServer => HandlerServerExactly(p, m, w);
    }
  }

  lemma PositiveIsNoStatus(srv: Server, p: Packet, m: Method)
    ensures Positive(srv, p, m).Some? ==> !Positive(srv, p, m).value.Status?
  {
  }

  /**
    The Server's answers are all of a kind the draft allows, except that read-only mode may refuse, which is a status
    too.
   */
  lemma ServerLegal(readOnly: bool, p: Packet, w: World)
    ensures Legal(p, ServerAnswer(readOnly, p, w).value)
  {
    match p {
      case Simple(k, _, _) => match k { case _ => }
      case Pair(k, _, _, _) => match k { case _ => }
      case _ =>
    }
  }

  /** Whether a handle opened with method m is used the way it was opened. */
  predicate Fits(p: Packet, m: Method) {
    match p
    case Read(_, _, _, _) => m != List
    case Write(_, _, _, _, _) => m != Get && m != List
    case Simple(Readdir, _, _) => m != Get
    case _ => true
  }

  /** The RequestServer keeps to the draft whatever the handlers do exactly when the handle's method fits the packet. */
  lemma RequestServerLegalExactly(p: Packet, m: Method)
    ensures (forall w :: Legal(p, RequestServerAnswer(p, m, w))) <==> Fits(p, m)
  {
    if !Fits(p, m) {
      var w := World(true, false, false, 1, false);
      assert !Legal(p, RequestServerAnswer(p, m, w));
    } else {
      forall w ensures Legal(p, RequestServerAnswer(p, m, w)) {
        match p {
          case Simple(k, _, _) => match k { case _ => }
          case Pair(k, _, _, _) => match k { case _ => }
          case _ =>
        }
      }
    }
  }

  predicate AnswersLegally(srv: Server, p: Packet, m: Method, w: World) {
    var answer := Answer(srv, p, m, w);
    answer.Some? && Legal(p, answer.value)
  }

  /** Which server keeps to the draft in answer to which packet, whatever the world does. */
  lemma LegalExactly(srv: Server, p: Packet, m: Method)
    ensures (forall w :: AnswersLegally(srv, p, m, w)) <==> srv.FileServer? || Fits(p, m)
  {
    hide ServerAnswer, RequestServerAnswer, Legal, Fits;
    match srv {
      case FileServer(readOnly) =>
        forall w ensures AnswersLegally(srv, p, m, w) {
          AnswersWithId(srv, p, m, w);
          ServerLegal(readOnly, p, w);
        }
      case HandlerServer =>
        RequestServerLegalExactly(p, m);
        assert forall w :: AnswersLegally(srv, p, m, w) <==> Legal(p, RequestServerAnswer(p, m, w));
    }
  }
}
