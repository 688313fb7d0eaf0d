/**
  Directory listing end to end: the request server pages a listing into NAME replies (section 7 of
  draft-ietf-secsh-filexfer-02), the client's ReadDir loop decodes them until EOF.
 */
module Directory {
  import opened Prelude
  import opened Wire
  import opened Attributes

  /** A directory entry on the server: name, `ls -l` line, attributes; the owner is known only for real files. */
  datatype Entry = Entry(name: bytes, longName: bytes, size: nat, mode: nat, mtime: nat, owner: Option<(nat, nat)>)

  predicate InBounds(e: Entry) {
    && |e.name| < TWO32 && |e.longName| < TWO32 && e.size < TWO64 && e.mode < TWO32 && e.mtime < TWO32
    && (e.owner.Some? ==> e.owner.value.0 < TWO32 && e.owner.value.1 < TWO32)
  }

  // ---- fileStatFromInfo, marshalFileInfo, sshFxpNamePacket.MarshalBinary ----------

  function FlagsOf(e: Entry): nat {
    SIZE + PERMISSIONS + ACMODTIME + if e.owner.Some? then UIDGID else 0
  }

  function StatOf(e: Entry): FileStat {
    var (uid, gid) := if e.owner.Some? then e.owner.value else (0, 0);
    FileStat(e.size, e.mode, e.mtime, e.mtime, uid, gid, [])
  }

  function MarshalFileInfo(e: Entry): bytes {
    var st := StatOf(e);
    Put32(FlagsOf(e)) + (Put64(st.size)
      + ((if e.owner.Some? then Put32(st.uid) + Put32(st.gid) else [])
         + (Put32(st.mode) + (Put32(st.atime) + Put32(st.mtime)))))
  }

  function PutEntries(es: seq<Entry>): bytes {
    if es == [] then []
    else PutString(es[0].name) + (PutString(es[0].longName) + (MarshalFileInfo(es[0]) + PutEntries(es[1..])))
  }

  /** The body of a NAME reply. */
  function NameReply(id: nat, es: seq<Entry>): bytes {
    Put32(id) + (Put32(|es|) + PutEntries(es))
  }

  // ---- the client's side -------------------------------------------------------------

  datatype FileInfo = FileInfo(name: bytes, stat: FileStat)

  predicate Dots(name: bytes) {
    name == [46] || name == [46, 46]
  }

  /** What ReadDir is to return for a listing: every entry in order except `.` and `..`. */
  function Listed(es: seq<Entry>): seq<FileInfo> {
    if es == [] then []
    else (if Dots(es[0].name) then [] else [FileInfo(es[0].name, StatOf(es[0]))]) + Listed(es[1..])
  }

  /** One turn of the client's decoding loop; None stands for the panic of an out-of-range slice. */
  function GetEntry(b: bytes): Option<(FileInfo, bytes)> {
    match GetString(b)
    case Bad(_) => None
    case Got(name, b1) =>
      match GetString(b1)
      case Bad(_) => None
      case Got(_, b2) =>
        match Get32(b2)
        case Bad(_) => None
        case Got(flags, b3) =>
          var (st, b4) := GetFileStat(flags, b3);
          Some((FileInfo(name, st), b4))
  }

  lemma FlagBits(e: Entry)
    ensures FlagsOf(e) < TWO32
    ensures Has(FlagsOf(e), SIZE) && Has(FlagsOf(e), PERMISSIONS) && Has(FlagsOf(e), ACMODTIME)
    ensures Has(FlagsOf(e), UIDGID) <==> e.owner.Some?
    ensures !Has(FlagsOf(e), EXTENDED)
  {
  }

  lemma InfoIsStat(e: Entry)
    ensures MarshalFileInfo(e) == Put32(FlagsOf(e)) + PutStat(FlagsOf(e), StatOf(e))
    ensures Masked(FlagsOf(e), StatOf(e)) == StatOf(e)
  {
    hide Put32, Put64, Has, FlagsOf;
    FlagBits(e);
    var st := StatOf(e);
    assert Put32(st.atime) + Put32(st.mtime) + [] == Put32(st.atime) + Put32(st.mtime);
  }

  lemma EntryRoundTrip(e: Entry, t: bytes)
    requires InBounds(e)
    ensures GetEntry(PutString(e.name) + (PutString(e.longName) + (MarshalFileInfo(e) + t)))
         == Some((FileInfo(e.name, StatOf(e)), t))
  {
    hide GetString, PutString, Get32, Put32, GetFileStat, PutStat, MarshalFileInfo, Masked, FlagsOf;
    GetStringOfPut(e.name, PutString(e.longName) + (MarshalFileInfo(e) + t));
    GetStringOfPut(e.longName, MarshalFileInfo(e) + t);
    InfoIsStat(e);
    FlagBits(e);
    var s := PutStat(FlagsOf(e), StatOf(e));
    assert Put32(FlagsOf(e)) + s + t == Put32(FlagsOf(e)) + (s + t);
    Get32OfPut(FlagsOf(e), s + t);
    StatRoundTrip(FlagsOf(e), StatOf(e), t);
  }

  /** The `count` entries of a NAME reply, without the dots. */
  function Decode(b: bytes, count: nat): Option<(seq<FileInfo>, bytes)>
    decreases count
  {
    if count == 0 then Some(([], b))
    else
      match GetEntry(b)
      case None => None
      case Some((info, b1)) => Prepend(Kept(info), Decode(b1, count - 1))
  }

  function Kept(info: FileInfo): seq<FileInfo> {
    if Dots(info.name) then [] else [info]
  }

  function Prepend(infos: seq<FileInfo>, o: Option<(seq<FileInfo>, bytes)>): Option<(seq<FileInfo>, bytes)> {
    if o.None? then None else Some((infos + o.value.0, o.value.1))
  }

  lemma {:induction false} EntriesRoundTrip(es: seq<Entry>, t: bytes)
    requires forall e | e in es :: InBounds(e)
    ensures Decode(PutEntries(es) + t, |es|) == Some((Listed(es), t))
  {
    hide GetEntry, PutString, MarshalFileInfo, StatOf;
    if es == [] {
      assert PutEntries(es) + t == t;
    } else {
      var e, tail := es[0], PutEntries(es[1..]) + t;
      assert PutEntries(es) + t == PutString(e.name) + (PutString(e.longName) + (MarshalFileInfo(e) + tail));
      EntryRoundTrip(e, tail);
      EntriesRoundTrip(es[1..], t);
    }
  }

  /** The client's loop over the entries of a NAME reply. */
  method DecodeEntries(data: bytes, count: nat) returns (r: Option<seq<FileInfo>>)
    ensures r == var d := Decode(data, count); if d.None? then None else Some(d.value.0)
  {
    hide GetEntry;
    var infos, rest, i := [], data, 0;
    while i < count
      invariant 0 <= i <= count
      invariant Decode(data, count).None? <==> Decode(rest, count - i).None?
      invariant Decode(rest, count - i).Some? ==> Decode(data, count).value.0 == infos + Decode(rest, count - i).value.0
    {
      var g := GetEntry(rest);
      if g.None? {
        return None;
      }
      var (info, rest') := g.value;
      if !Dots(info.name) {
        infos := infos + [info];
      }
      rest, i := rest', i + 1;
    }
    assert infos + [] == infos;
    return Some(infos);
  }

  // ---- paging ------------------------------------------------------------------------

  datatype Reply = Name(data: bytes) | StatusEof

  /** An open directory handle of the request server: the lister and how far READDIR has come. */
  class DirRequest {
    const listing: seq<Entry>
    const maxFilelist: nat
    var lsoffset: nat

    constructor (listing: seq<Entry>, maxFilelist: nat)
      ensures this.listing == listing && this.maxFilelist == maxFilelist && lsoffset == 0
    {
      this.listing, this.maxFilelist, lsoffset := listing, maxFilelist, 0;
    }

    ghost predicate Valid() {
      1 <= maxFilelist < TWO32 && forall e | e in listing :: InBounds(e)
    }

    /** listerat.ListAt: up to n entries from the offset on, and whether they reach the end. */
    function ListAt(n: nat, offset: nat): (r: (seq<Entry>, bool))
      ensures |r.0| <= n && r.0 <= From(listing, offset)
      ensures n >= 1 ==> (r.0 == [] <==> offset >= |listing|)
      ensures r.0 == [] && n >= 1 ==> r.1
    {
      if offset >= |listing| then ([], true)
      else
        var k := Min(n, |listing| - offset);
        (listing[offset..offset + k], k < n)
    }

    /** filelist: the next page as a NAME reply, or EOF once nothing is left. */
    method Filelist(id: nat) returns (reply: Reply, ghost page: seq<Entry>)
      requires Valid()
      modifies this`lsoffset
      ensures old(lsoffset) >= |listing| ==> reply == StatusEof && lsoffset == old(lsoffset) && page == []
      ensures old(lsoffset) < |listing| ==>
                && page != [] && |page| <= maxFilelist && lsoffset == old(lsoffset) + |page| <= |listing|
                && page == listing[old(lsoffset)..lsoffset] && reply == Name(NameReply(id, page))
    {
      var (found, eof) := ListAt(maxFilelist, lsoffset);
      page := found;
      lsoffset := lsoffset + |found|;
      if eof && found == [] {
        return StatusEof, [];
      }
      return Name(NameReply(id, found)), found;
    }
  }

  lemma {:induction false} ListedSplit(es: seq<Entry>, fs: seq<Entry>)
    ensures Listed(es + fs) == Listed(es) + Listed(fs)
  {
    hide StatOf, Dots;
    if es == [] {
      assert es + fs == fs;
    } else {
      ListedSplit(es[1..], fs);
      assert (es + fs)[1..] == es[1..] + fs && (es + fs)[0] == es[0];
      var first := if Dots(es[0].name) then [] else [FileInfo(es[0].name, StatOf(es[0]))];
      assert Listed(es + fs) == first + Listed(es[1..] + fs) && Listed(es) == first + Listed(es[1..]);
      hide Listed;
      Assoc(first, Listed(es[1..]), Listed(fs));
    }
  }

  lemma ReplyRoundTrip(id: nat, page: seq<Entry>)
    requires id < TWO32 && |page| < TWO32 && forall e | e in page :: InBounds(e)
    ensures
      var data := NameReply(id, page);
      && Get32(data) == Got(id, Put32(|page|) + PutEntries(page))
      && Get32(Put32(|page|) + PutEntries(page)) == Got(|page|, PutEntries(page))
      && Decode(PutEntries(page), |page|) == Some((Listed(page), []))
  {
    hide Put32, Decode, PutEntries;
    Get32OfPut(id, Put32(|page|) + PutEntries(page));
    Get32OfPut(|page|, PutEntries(page));
    assert PutEntries(page) + [] == PutEntries(page);
    EntriesRoundTrip(page, []);
  }

  // ---- the layout of a NAME reply, and what the entries become ----------------------------

  /** One entry of a NAME reply by the entry's own fields; 15 and 13 are the flags with and without an owner. */
  function EntryFields(e: Entry): seq<Field> {
    [Str(e.name), Str(e.longName)]
    + ([U32(if e.owner.Some? then 15 else 13), U64(e.size)]
       + ((if e.owner.Some? then [U32(e.owner.value.0), U32(e.owner.value.1)] else [])
          + ([U32(e.mode)] + [U32(e.mtime), U32(e.mtime)])))
  }

  function ListingFields(es: seq<Entry>): seq<Field> {
    if es == [] then [] else EntryFields(es[0]) + ListingFields(es[1..])
  }

  lemma EntryLaidOut(e: Entry)
    requires InBounds(e)
    ensures PutFields(EntryFields(e)) == PutString(e.name) + (PutString(e.longName) + MarshalFileInfo(e))
    ensures forall f | f in EntryFields(e) :: FieldFits(f)
  {
    hide PutFields, Put32, Put64, PutString;
    var owner := if e.owner.Some? then [U32(e.owner.value.0), U32(e.owner.value.1)] else [];
    var times := [U32(e.mtime), U32(e.mtime)];
    var head := [U32(if e.owner.Some? then 15 else 13), U64(e.size)];
    PutFieldsJoin([Str(e.name), Str(e.longName)], head + (owner + ([U32(e.mode)] + times)));
    PutFieldsJoin(head, owner + ([U32(e.mode)] + times));
    PutFieldsJoin(owner, [U32(e.mode)] + times);
    PutFieldsJoin([U32(e.mode)], times);
    PutTwo(Str(e.name), Str(e.longName));
    PutTwo(head[0], head[1]);
    PutOne(U32(e.mode));
    PutTwo(times[0], times[1]);
    OwnerLaidOut(e);
  }

  lemma OwnerLaidOut(e: Entry)
    ensures PutFields(if e.owner.Some? then [U32(e.owner.value.0), U32(e.owner.value.1)] else []) ==
            if e.owner.Some? then Put32(StatOf(e).uid) + Put32(StatOf(e).gid) else []
  {
    if e.owner.Some? {
      PutTwo(U32(e.owner.value.0), U32(e.owner.value.1));
    }
  }

  lemma {:induction false} EntriesLaidOut(es: seq<Entry>)
    requires forall e | e in es :: InBounds(e)
    ensures PutFields(ListingFields(es)) == PutEntries(es)
    ensures forall f | f in ListingFields(es) :: FieldFits(f)
  {
    if es != [] {
      hide PutFields, EntryFields, InBounds, FieldFits, PutString, MarshalFileInfo;
      var e, rest := es[0], ListingFields(es[1..]);
      EntriesLaidOut(es[1..]);
      EntryLaidOut(e);
      PutFieldsJoin(EntryFields(e), rest);
      assert forall f | f in ListingFields(es) :: f in EntryFields(e) || f in rest;
      var tail := PutEntries(es[1..]);
      Assoc(PutString(e.longName), MarshalFileInfo(e), tail);
      Assoc(PutString(e.name), PutString(e.longName) + MarshalFileInfo(e), tail);
    }
  }

  /** Which bytes are the NAME reply for a page: exactly those that section 7 of the draft lays out. */
  lemma ReplyLayoutExactly(id: nat, page: seq<Entry>, b: bytes)
    requires id < TWO32 && |page| < TWO32 && forall e | e in page :: InBounds(e)
    ensures b == NameReply(id, page) <==> LaidOut(b, 0, [U32(id), U32(|page|)] + ListingFields(page))
  {
    hide PutFields, LaidOut, ListingFields, InBounds, PutEntries, Put32;
    var head := [U32(id), U32(|page|)];
    EntriesLaidOut(page);
    PutTwo(head[0], head[1]);
    PutFieldsJoin(head, ListingFields(page));
    Assoc(Put32(id), Put32(|page|), PutEntries(page));
    LaidOutExactly(b, 0, head + ListingFields(page));
    assert b[0..] == b;
  }

  /** What the client shows of an entry. */
  ghost predicate Shows(info: FileInfo, e: Entry) {
    && info.name == e.name
    && info.stat.size == e.size && info.stat.mode == e.mode
    && info.stat.mtime == e.mtime && info.stat.atime == e.mtime && info.stat.extended == []
    && (if e.owner.Some? then info.stat.uid == e.owner.value.0 && info.stat.gid == e.owner.value.1
        else info.stat.uid == 0 && info.stat.gid == 0)
  }

  /** The infos show the entries at the places `at`, in order, and these are all but those called "." and "..". */
  ghost predicate ShownAt(infos: seq<FileInfo>, es: seq<Entry>, at: seq<nat>) {
    && |infos| == |at|
    && (forall k | 0 <= k < |at| :: at[k] < |es| && Shows(infos[k], es[at[k]]))
    && (forall j, k | 0 <= j < k < |at| :: at[j] < at[k])
    && (forall i: nat | i < |es| :: i in at <==> !Dotted(es[i].name))
  }

  /** The name "." or "..". */
  predicate Dotted(name: bytes) {
    |name| in {1, 2} && forall c | c in name :: c == '.' as int as byte
  }

  lemma DotsExactly(name: bytes)
    ensures Dots(name) <==> Dotted(name)
  {
    if |name| == 2 {
      assert name[0] in name && name[1] in name;
    } else if |name| == 1 {
      assert name[0] in name;
    }
  }

  lemma ShowsOne(e: Entry)
    ensures Listed([e]) == if Dotted(e.name) then [] else [FileInfo(e.name, StatOf(e))]
    ensures Shows(FileInfo(e.name, StatOf(e)), e)
  {
    DotsExactly(e.name);
    assert [e][1..] == [];
  }

  lemma ShownNext(infos: seq<FileInfo>, es: seq<Entry>, at: seq<nat>, info: FileInfo, e: Entry)
    requires ShownAt(infos, es, at) && Shows(info, e)
    ensures
      if Dotted(e.name) then ShownAt(infos, es + [e], at) else ShownAt(infos + [info], es + [e], at + [|es|])
  {
    hide Shows, Dotted;
    assert forall i | i in at :: i < |es|;
  }

  lemma {:induction false} ListedShows(es: seq<Entry>) returns (at: seq<nat>)
    ensures ShownAt(Listed(es), es, at)
  {
    if es == [] {
      return [];
    }
    var before, e := es[..|es| - 1], es[|es| - 1];
    at := ListedShows(before);
    assert es == before + [e];
    hide Listed, ShownAt;
    ListedSplit(before, [e]);
    ShowsOne(e);
    ShownNext(Listed(before), before, at, FileInfo(e.name, StatOf(e)), e);
    assert Listed(before) + [] == Listed(before);
    at := if Dotted(e.name) then at else at + [|before|];
  }

  /** Client.ReadDir on a freshly opened handle: READDIR until EOF. Request ids are whatever nextID hands out. */
  method ReadDir(d: DirRequest, firstId: nat) returns (attrs: seq<FileInfo>, failed: bool)
    requires d.Valid() && d.lsoffset == 0
    modifies d`lsoffset
    ensures !failed && attrs == Listed(d.listing)
    ensures exists at :: ShownAt(attrs, d.listing, at)
  {
    hide Decode, NameReply, Put32, Get32, PutEntries, StatOf, ShownAt;
    ghost var at := ListedShows(d.listing);
    attrs, failed := [], false;
    var done, id := false, firstId;
    assert d.listing[..0] == [];
    while !done
      invariant d.lsoffset <= |d.listing| && attrs == Listed(d.listing[..d.lsoffset]) && !failed
      invariant done ==> d.lsoffset == |d.listing|
      decreases !done, |d.listing| - d.lsoffset
    {
      id := (id + 1) % TWO32;
      ghost var before := d.lsoffset;
      var reply, page := d.Filelist(id);
      match reply
      case StatusEof => done := true;
      case Name(data) =>
        ReplyRoundTrip(id, page);
        var sid := Get32(data);
        var count := Get32(sid.rest);
        if sid.value != id {
          failed := true;
          return;
        }
        var infos := DecodeEntries(count.rest, count.value);
        ListedSplit(d.listing[..before], page);
        assert d.listing[..before] + page == d.listing[..d.lsoffset];
        attrs := attrs + infos.value;
    }
    assert d.listing[..d.lsoffset] == d.listing;
  }
}
