/**
  The parser of PuTTY private key files (version 2): headers, lines ended by LF, CR or CRLF, and base64 blobs.
  A byte of the file is a char here, and base64 decoding is a parameter.
 */
module Putty {
  import opened Prelude

  datatype Fault =
    | EndOfFile | UnexpectedNewline | MissingSpace | HeaderTooLong | WrongHeader | WrongVersion
    | WrongAlgorithm | WrongEncryption | NotANumber | TooManyLines | BadBlobLine | BadBase64

  /** What a reading function returns: a value and the unread rest of the file, or an error. */
  datatype Parsed<T> = Got(value: T, rest: string) | Bad(fault: Fault)

  datatype Result = Decoded(key: Key) | Refused(fault: Fault)

  datatype Key = Key(algo: string, encryption: string, comment: string, publicKey: string, privateKey: string,
                     privateMac: string)

  const NO_KEY := Key("", "", "", "", "", "")

  const MAX_HEADER_LENGTH: nat := 39
  const MAX_KEY_BLOB_LINES: nat := 262144 / 48

  predicate Newline(c: char) {
    c == '\r' || c == '\n'
  }

  predicate OneLine(s: string) {
    forall i | 0 <= i < |s| :: !Newline(s[i])
  }

  // ---- what is read --------------------------------------------------------------------

  /** A header of at most `room` further characters, up to ": ". */
  function Header(b: string, room: nat): Parsed<string> {
    if b == "" then Bad(EndOfFile)
    else if Newline(b[0]) then Bad(UnexpectedNewline)
    else if b[0] == ':' then
      if |b| == 1 then Bad(EndOfFile) else if b[1] != ' ' then Bad(MissingSpace) else Got("", b[2..])
    else if room == 0 then Bad(HeaderTooLong)
    else
      match Header(b[1..], room - 1)
      case Bad(f) => Bad(f)
      case Got(h, rest) => Got([b[0]] + h, rest)
  }

  /** What is left after the end of a line: a second newline character is dropped too. */
  function AfterNewline(b: string): string {
    if b != "" && Newline(b[0]) then b[1..] else b
  }

  /** A line and what is left after it. */
  function Body(b: string): (string, string) {
    if b == "" then ("", "")
    else if Newline(b[0]) then ("", AfterNewline(b[1..]))
    else
      var (line, rest) := Body(b[1..]);
      ([b[0]] + line, rest)
  }

  predicate BlobLine(s: string) {
    |s| % 4 == 0 && |s| <= 64
  }

  function Blob(b: string, nlines: int): Parsed<string>
    decreases nlines
  {
    if nlines <= 0 then Got("", b)
    else
      var (line, rest) := Body(b);
      if !BlobLine(line) then Bad(BadBlobLine)
      else
        match Blob(rest, nlines - 1)
        case Bad(f) => Bad(f)
        case Got(more, rest') => Got(line + more, rest')
  }

  predicate Digit(c: char) {
    '0' <= c <= '9'
  }

  function Value(s: string): nat
    requires forall i | 0 <= i < |s| :: Digit(s[i])
  {
    if s == "" then 0
    else
      var last := s[|s| - 1];
      assert Digit(last);
      Value(s[..|s| - 1]) * 10 + (last as int - '0' as int)
  }

  const MAX_INT: nat := 0x7fff_ffff_ffff_ffff

  /** strconv.Atoi: an optional sign, then decimal digits, within the range of a 64-bit integer. */
  function Atoi(s: string): Option<int> {
    var signed := s != "" && (s[0] == '-' || s[0] == '+');
    var digits := if signed then s[1..] else s;
    if digits == "" || exists i | 0 <= i < |digits| :: !Digit(digits[i]) then None
    else
      var n: int := Value(digits);
      if signed && s[0] == '-' then (if n > MAX_INT + 1 then None else Some(-n))
      else if n > MAX_INT then None else Some(n)
  }

  const FIELDS_ORDER: seq<string> :=
    ["PuTTY-User-Key-File-", "Encryption", "Comment", "Public-Lines", "Private-Lines", "Private-Hash", "Private-MAC"]

  predicate KnownAlgorithm(s: string) {
    || s == "ssh-rsa" || s == "ssh-dss" || s == "ecdsa-sha2-nistp256" || s == "ecdsa-sha2-nistp384"
    || s == "ecdsa-sha2-nistp521" || s == "ssh-ed25519"
  }

  predicate KnownEncryption(s: string) {
    s == "none" || s == "aes256-cbc"
  }

  type Decoder = string -> Option<string>

  function BlobValue(line: string, b: string, dec: Decoder): Parsed<string> {
    match Atoi(line)
    case None => Bad(NotANumber)
    case Some(n) =>
      if n >= MAX_KEY_BLOB_LINES then Bad(TooManyLines)
      else
        match Blob(b, n)
        case Bad(f) => Bad(f)
        case Got(text, rest) =>
          match dec(text)
          case None => Bad(BadBase64)
          case Some(data) => Got(data, rest)
  }

  /** The value of field i, once its header has been read and its line is `line`. */
  function FieldValue(i: nat, k: Key, line: string, b: string, dec: Decoder): Parsed<Key>
    requires i < 7 && i != 5
  {
    match i
    case 0 => if KnownAlgorithm(line) then Got(k.(algo := line), b) else Bad(WrongAlgorithm)
    case 1 => if KnownEncryption(line) then Got(k.(encryption := line), b) else Bad(WrongEncryption)
    case 2 => Got(k.(comment := line), b)
    case 3 =>
      (match BlobValue(line, b, dec)
       case Bad(f) => Bad(f)
       case Got(data, rest) => Got(k.(publicKey := data), rest))
    case 4 =>
      (match BlobValue(line, b, dec)
       case Bad(f) => Bad(f)
       case Got(data, rest) => Got(k.(privateKey := data), rest))
    case _ => Got(k.(privateMac := line), b)
  }

  function HeaderFault(i: nat, v: string): Option<Fault>
    requires i < 7
  {
    if i == 0 then
      if !(FIELDS_ORDER[0] <= v) then Some(WrongHeader)
      else if v != FIELDS_ORDER[0] + "2" then Some(WrongVersion)
      else None
    else if v != FIELDS_ORDER[i] then Some(WrongHeader) else None
  }

  function Field(i: nat, k: Key, b: string, dec: Decoder): Parsed<Key>
    requires i < 7 && i != 5
  {
    match Header(b, MAX_HEADER_LENGTH)
    case Bad(f) => Bad(f)
    case Got(v, b1) =>
      match HeaderFault(i, v)
      case Some(f) => Bad(f)
      case None =>
        var (line, b2) := Body(b1);
        FieldValue(i, k, line, b2, dec)
  }

  /** The fields from number i on. Field 5, the hash, belongs to version 1 files, which the first header refuses. */
  function Fields(i: nat, k: Key, b: string, dec: Decoder): Result
    requires i <= 7
    decreases 7 - i
  {
    if i == 7 then Decoded(k)
    else if i == 5 then Fields(6, k, b, dec)
    else
      match Field(i, k, b, dec)
      case Bad(f) => Refused(f)
      case Got(k', rest) => Fields(i + 1, k', rest, dec)
  }

  // ---- the reader and the functions that use it -----------------------------------------------

  class Reader {
    const data: string
    var pos: nat

    ghost predicate Valid()
      reads this
    {
      pos <= |data|
    }

    ghost function Rest(): string
      requires Valid()
      reads this
    {
      data[pos..]
    }

    constructor (bytes: string)
      ensures Valid() && Rest() == bytes && data == bytes
    {
      data, pos := bytes, 0;
    }

    /** ReadByte; None is io.EOF. */
    method ReadByte() returns (c: Option<char>)
      requires Valid()
      modifies this`pos
      ensures Valid() && pos >= old(pos)
      ensures old(Rest()) == "" ==> c == None && Rest() == ""
      ensures old(Rest()) != "" ==> c == Some(old(Rest())[0]) && Rest() == old(Rest())[1..] && pos == old(pos) + 1
    {
      if pos == |data| {
        return None;
      }
      c := Some(data[pos]);
      pos := pos + 1;
    }

    method UnreadByte()
      requires Valid() && pos > 0
      modifies this`pos
      ensures Valid() && pos == old(pos) - 1
    {
      pos := pos - 1;
    }

    method ReadHeader() returns (r: Parsed<string>)
      requires Valid()
      modifies this`pos
      ensures Valid()
      ensures r.Bad? ==> Header(old(Rest()), MAX_HEADER_LENGTH) == r
      ensures r.Got? ==> Header(old(Rest()), MAX_HEADER_LENGTH) == Got(r.value, Rest()) && r.rest == Rest()
    {
      var length: nat, buf := MAX_HEADER_LENGTH, "";
      PrefixedNone(Header(Rest(), MAX_HEADER_LENGTH));
      while true
        invariant Valid() && length + |buf| == MAX_HEADER_LENGTH
        invariant Prefixed(buf, Header(Rest(), length)) == Header(old(Rest()), MAX_HEADER_LENGTH)
        decreases length
      {
        ghost var rest := Rest();
        var c := ReadByte();
        if c == None {
          return Bad(EndOfFile);
        }
        if Newline(c.value) {
          return Bad(UnexpectedNewline);
        }
        if c.value == ':' {
          c := ReadByte();
          if c == None {
            return Bad(EndOfFile);
          }
          if c.value != ' ' {
            return Bad(MissingSpace);
          }
          assert buf + "" == buf && rest[1..][1..] == rest[2..];
          return Got(buf, data[pos..]);
        }
        if length == 0 {
          break;
        }
        HeaderNext(rest, length, buf);
        buf := buf + [c.value];
        length := length - 1;
      }
      return Bad(HeaderTooLong);
    }

    method ReadBody() returns (line: string)
      requires Valid()
      modifies this`pos
      ensures Valid() && Body(old(Rest())) == (line, Rest())
    {
      line := "";
      assert "" + Body(Rest()).0 == Body(Rest()).0;
      while true
        invariant Valid()
        invariant Body(old(Rest())) == (line + Body(Rest()).0, Body(Rest()).1)
        decreases |data| - pos
      {
        ghost var rest := Rest();
        assert Body(rest).0 == "" ==> line + Body(rest).0 == line;
        var c := ReadByte();
        if c == None {
          return;
        }
        if Newline(c.value) {
          c := ReadByte();
          if c.Some? && !Newline(c.value) {
            UnreadByte();
          }
          return;
        }
        Assoc(line, [c.value], Body(rest[1..]).0);
        line := line + [c.value];
      }
    }

    method ReadBlob(nlines: int) returns (r: Parsed<string>)
      requires Valid()
      modifies this`pos
      ensures Valid()
      ensures r.Bad? ==> Blob(old(Rest()), nlines) == r
      ensures r.Got? ==> Blob(old(Rest()), nlines) == Got(r.value, Rest()) && r.rest == Rest()
    {
      var buf, i := "", 0;
      PrefixedNone(Blob(Rest(), nlines));
      while i < nlines
        invariant Valid() && 0 <= i && (nlines >= 0 ==> i <= nlines)
        invariant Prefixed(buf, Blob(Rest(), nlines - i)) == Blob(old(Rest()), nlines)
      {
        ghost var rest := Rest();
        var line := ReadBody();
        if |line| % 4 != 0 || |line| > 64 {
          return Bad(BadBlobLine);
        }
        BlobNext(rest, nlines - i, buf);
        buf := buf + line;
        i := i + 1;
      }
      assert buf + "" == buf;
      return Got(buf, data[pos..]);
    }

    /** decodeFields. */
    method DecodeFields(dec: Decoder) returns (r: Result)
      requires Valid()
      modifies this`pos
      ensures r == Fields(0, NO_KEY, old(Rest()), dec)
    {
      var k := NO_KEY;
      for i := 0 to 7
        invariant Valid() && Fields(i, k, Rest(), dec) == Fields(0, NO_KEY, old(Rest()), dec)
      {
        if i == 5 {
          continue;
        }
        var header := ReadHeader();
        if header.Bad? {
          return Refused(header.fault);
        }
        var v := header.value;
        if (i == 0 && FIELDS_ORDER[0] <= v) || v == FIELDS_ORDER[i] {
          if i == 0 && v != FIELDS_ORDER[0] + "2" {
            return Refused(WrongVersion);
          }
          var b := ReadBody();
          match i {
            case 0 =>
              if !KnownAlgorithm(b) {
                return Refused(WrongAlgorithm);
              }
              k := k.(algo := b);
            case 1 =>
              if !KnownEncryption(b) {
                return Refused(WrongEncryption);
              }
              k := k.(encryption := b);
            case 2 =>
              k := k.(comment := b);
            case 6 =>
              k := k.(privateMac := b);
            case _ =>
              var n := Atoi(b);
              if n == None {
                return Refused(NotANumber);
              }
              if n.value >= MAX_KEY_BLOB_LINES {
                return Refused(TooManyLines);
              }
              var bs := ReadBlob(n.value);
              if bs.Bad? {
                return Refused(bs.fault);
              }
              var data := dec(bs.value);
              if data == None {
                return Refused(BadBase64);
              }
              k := if i == 3 then k.(publicKey := data.value) else k.(privateKey := data.value);
          }
        } else {
          return Refused(WrongHeader);
        }
      }
      return Decoded(k);
    }
  }

  /** The result of a reading function that has already collected buf. */
  function Prefixed(buf: string, r: Parsed<string>): Parsed<string> {
    if r.Bad? then r else Got(buf + r.value, r.rest)
  }

  lemma BlobNext(b: string, n: int, buf: string)
    requires n > 0 && BlobLine(Body(b).0)
    ensures Prefixed(buf, Blob(b, n)) == Prefixed(buf + Body(b).0, Blob(Body(b).1, n - 1))
  {
    var more := Blob(Body(b).1, n - 1);
    if more.Got? {
      Assoc(buf, Body(b).0, more.value);
    }
  }

  lemma PrefixedNone(r: Parsed<string>)
    ensures Prefixed("", r) == r
  {
    if r.Got? {
      assert "" + r.value == r.value;
    }
  }

  lemma HeaderNext(b: string, room: nat, buf: string)
    requires b != "" && !Newline(b[0]) && b[0] != ':' && room > 0
    ensures Prefixed(buf, Header(b, room)) == Prefixed(buf + [b[0]], Header(b[1..], room - 1))
  {
    var more := Header(b[1..], room - 1);
    if more.Got? {
      Assoc(buf, [b[0]], more.value);
    }
  }

  // ---- exactly what headers and lines are ------------------------------------------------------

  predicate HeaderText(h: string) {
    forall i | 0 <= i < |h| :: !Newline(h[i]) && h[i] != ':'
  }

  /** A header is read exactly when the input starts with a short enough text, a colon and a space. */
  lemma HeaderExactly(b: string, room: nat, h: string, rest: string)
    ensures Header(b, room) == Got(h, rest) <==> |h| <= room && HeaderText(h) && b == h + ": " + rest
  {
    if Header(b, room) == Got(h, rest) {
      HeaderFound(b, room);
    }
    if |h| <= room && HeaderText(h) && b == h + ": " + rest {
      HeaderRead(h, rest, room);
    }
  }

  lemma {:induction false} HeaderRead(h: string, rest: string, room: nat)
    requires |h| <= room && HeaderText(h)
    ensures Header(h + ": " + rest, room) == Got(h, rest)
  {
    var b := h + ": " + rest;
    if h == "" {
      assert b == ": " + rest;
    } else {
      assert b[0] == h[0] && b[1..] == h[1..] + ": " + rest;
      HeaderRead(h[1..], rest, room - 1);
      assert h == [h[0]] + h[1..];
    }
  }

  lemma {:induction false} HeaderFound(b: string, room: nat)
    requires Header(b, room).Got?
    ensures
      var r := Header(b, room);
      |r.value| <= room && HeaderText(r.value) && b == r.value + ": " + r.rest
  {
    if b[0] == ':' {
      assert b == "" + ": " + b[2..];
    } else {
      HeaderFound(b[1..], room - 1);
      var r := Header(b[1..], room - 1);
      assert b == [b[0]] + b[1..];
      assert [b[0]] + (r.value + ": " + r.rest) == ([b[0]] + r.value) + ": " + r.rest;
    }
  }

  /** The separator after a line: none at the end of the file, one newline character, or two. */
  predicate LineEnd(e: string, rest: string) {
    || (e == "" && rest == "")
    || (|e| == 1 && Newline(e[0]) && (rest == "" || !Newline(rest[0])))
    || (|e| == 2 && Newline(e[0]) && Newline(e[1]))
  }

  lemma {:induction false} BodyRead(line: string, e: string, rest: string)
    requires OneLine(line) && LineEnd(e, rest)
    ensures Body(line + e + rest) == (line, rest)
  {
    var b := line + e + rest;
    if line == "" {
      assert b == e + rest;
      assert |e| > 0 ==> b[1..] == e[1..] + rest;
      assert |e| == 1 ==> e[1..] + rest == rest;
      assert |e| == 2 ==> b[1..][0] == e[1] && b[1..][1..] == rest;
    } else {
      assert b[0] == line[0] && b[1..] == line[1..] + e + rest;
      BodyRead(line[1..], e, rest);
      assert line == [line[0]] + line[1..];
    }
  }

  lemma {:induction false} BodyFound(b: string) returns (e: string)
    ensures OneLine(Body(b).0) && LineEnd(e, Body(b).1) && b == Body(b).0 + e + Body(b).1
  {
    if b == "" {
      e := "";
    } else if Newline(b[0]) {
      e := if |b| > 1 && Newline(b[1]) then b[..2] else b[..1];
      assert b == "" + e + b[|e|..];
    } else {
      e := BodyFound(b[1..]);
      var (line, rest) := Body(b[1..]);
      assert b == [b[0]] + b[1..];
      assert [b[0]] + (line + e + rest) == ([b[0]] + line) + e + rest;
    }
  }

  /** A line is exactly the text up to the next newline character, one or two of which are dropped after it. */
  lemma BodyExactly(b: string, line: string, rest: string)
    ensures Body(b) == (line, rest) <==> OneLine(line) && exists e :: LineEnd(e, rest) && b == line + e + rest
  {
    if Body(b) == (line, rest) {
      var e := BodyFound(b);
      assert LineEnd(e, rest) && b == line + e + rest;
    }
    if e :| OneLine(line) && LineEnd(e, rest) && b == line + e + rest {
      BodyRead(line, e, rest);
    }
  }

  /** Why blob lines ended by LF or CR must not be empty: after any other line, such an empty line is swallowed. */
  lemma EmptyLineSwallowed(line: string, c: char, rest: string)
    requires OneLine(line) && Newline(c)
    ensures Body((line + [c]) + ("" + [c]) + rest) == (line, rest)
  {
    BodyRead(line, [c, c], rest);
    assert (line + [c]) + ("" + [c]) + rest == line + [c, c] + rest;
  }

  // ---- printing and reading back ----------------------------------------------------------------

  datatype Eol = LF | CR | CRLF

  function End(eol: Eol): string {
    match eol
    case LF => "\n"
    case CR => "\r"
    case CRLF => "\r\n"
  }

  function Lines(ls: seq<string>, eol: Eol): string {
    if ls == [] then "" else ls[0] + End(eol) + Lines(ls[1..], eol)
  }

  function Joined(ls: seq<string>): string {
    if ls == [] then "" else ls[0] + Joined(ls[1..])
  }

  /** A blob line; with a line end of a single character it must not be empty. */
  predicate GoodLine(l: string, eol: Eol) {
    OneLine(l) && BlobLine(l) && (l != "" || eol == CRLF)
  }

  /** What starts the next line does not look like a part of this one's end. */
  predicate Starts(b: string, eol: Eol) {
    b == "" || !Newline(b[0]) || eol == CRLF
  }

  lemma LineRead(line: string, eol: Eol, rest: string)
    requires OneLine(line) && Starts(rest, eol)
    ensures Body(line + End(eol) + rest) == (line, rest)
  {
    BodyRead(line, End(eol), rest);
  }

  lemma {:induction false} BlobRead(ls: seq<string>, eol: Eol, rest: string)
    requires (forall l | l in ls :: GoodLine(l, eol)) && Starts(rest, eol)
    ensures Starts(Lines(ls, eol) + rest, eol)
    ensures Blob(Lines(ls, eol) + rest, |ls|) == Got(Joined(ls), rest)
  {
    hide Body;
    if ls == [] {
      assert Lines(ls, eol) + rest == rest;
    } else {
      FirstIn(ls);
      BlobRead(ls[1..], eol, rest);
      var more := Lines(ls[1..], eol) + rest;
      assert Lines(ls, eol) + rest == ls[0] + End(eol) + more;
      LineRead(ls[0], eol, more);
    }
  }

  function DigitChar(d: nat): char
    requires d < 10
  {
    ('0' as int + d) as char
  }

  function Decimal(n: nat): string {
    if n < 10 then [DigitChar(n)] else Decimal(n / 10) + [DigitChar(n % 10)]
  }

  lemma {:induction false} DecimalValue(n: nat)
    ensures Decimal(n) != "" && (forall i | 0 <= i < |Decimal(n)| :: Digit(Decimal(n)[i])) && Value(Decimal(n)) == n
  {
    if n >= 10 {
      DecimalValue(n / 10);
      var s := Decimal(n);
      assert s[..|s| - 1] == Decimal(n / 10);
    } else {
      assert Decimal(n)[..0] == "";
    }
  }

  lemma AtoiDecimal(n: nat)
    requires n <= MAX_INT
    ensures Atoi(Decimal(n)) == Some(n) && OneLine(Decimal(n))
  {
    DecimalValue(n);
    assert Digit(Decimal(n)[0]);
    assert forall i | 0 <= i < |Decimal(n)| :: Digit(Decimal(n)[i]) && !Newline(Decimal(n)[i]);
  }

  /** A key together with the base64 lines its two blobs are printed as. */
  datatype KeyFile = KeyFile(key: Key, publicLines: seq<string>, privateLines: seq<string>)

  predicate WellFormed(f: KeyFile, eol: Eol, dec: Decoder) {
    && KnownAlgorithm(f.key.algo) && KnownEncryption(f.key.encryption)
    && OneLine(f.key.comment) && OneLine(f.key.privateMac)
    && |f.publicLines| < MAX_KEY_BLOB_LINES && |f.privateLines| < MAX_KEY_BLOB_LINES
    && (forall l | l in f.publicLines :: GoodLine(l, eol)) && (forall l | l in f.privateLines :: GoodLine(l, eol))
    && dec(Joined(f.publicLines)) == Some(f.key.publicKey) && dec(Joined(f.privateLines)) == Some(f.key.privateKey)
  }

  function Titled(header: string, line: string, eol: string, rest: string): string {
    header + ": " + (line + eol + rest)
  }

  /** The file from field i on. */
  function PrintFrom(i: nat, f: KeyFile, eol: Eol, last: string): string
    requires i <= 7
    decreases 7 - i
  {
    if i == 7 then ""
    else if i == 5 then PrintFrom(6, f, eol, last)
    else
      var more := PrintFrom(i + 1, f, eol, last);
      match i
      case 0 => Titled(FIELDS_ORDER[0] + "2", f.key.algo, End(eol), more)
      case 1 => Titled(FIELDS_ORDER[1], f.key.encryption, End(eol), more)
      case 2 => Titled(FIELDS_ORDER[2], f.key.comment, End(eol), more)
      case 3 => Titled(FIELDS_ORDER[3], Decimal(|f.publicLines|), End(eol), Lines(f.publicLines, eol) + more)
      case 4 => Titled(FIELDS_ORDER[4], Decimal(|f.privateLines|), End(eol), Lines(f.privateLines, eol) + more)
      case _ => Titled(FIELDS_ORDER[6], f.key.privateMac, last, more)
  }

  /** The key as far as fields 0 to i - 1 have been read. */
  function Partial(i: nat, k: Key): Key {
    Key(if i > 0 then k.algo else "", if i > 1 then k.encryption else "", if i > 2 then k.comment else "",
        if i > 3 then k.publicKey else "", if i > 4 then k.privateKey else "", if i > 6 then k.privateMac else "")
  }

  lemma TitledRead(i: nat, k: Key, header: string, line: string, e: string, rest: string, dec: Decoder)
    requires i < 7 && i != 5 && HeaderFault(i, header) == None && |header| <= MAX_HEADER_LENGTH && HeaderText(header)
    requires OneLine(line) && LineEnd(e, rest)
    ensures Field(i, k, Titled(header, line, e, rest), dec) == FieldValue(i, k, line, rest, dec)
  {
    hide Header, Body, FieldValue, HeaderFault;
    HeaderRead(header, line + e + rest, MAX_HEADER_LENGTH);
    BodyRead(line, e, rest);
  }

  lemma BlobValueRead(ls: seq<string>, eol: Eol, rest: string, dec: Decoder, data: string)
    requires (forall l | l in ls :: GoodLine(l, eol)) && |ls| < MAX_KEY_BLOB_LINES && Starts(rest, eol)
    requires dec(Joined(ls)) == Some(data)
    ensures BlobValue(Decimal(|ls|), Lines(ls, eol) + rest, dec) == Got(data, rest)
    ensures OneLine(Decimal(|ls|)) && Starts(Lines(ls, eol) + rest, eol)
  {
    hide Atoi, Blob, Decimal;
    AtoiDecimal(|ls|);
    BlobRead(ls, eol, rest);
  }

  function HeaderOf(i: nat): string
    requires i < 7
  {
    if i == 0 then FIELDS_ORDER[0] + "2" else FIELDS_ORDER[i]
  }

  lemma HeadersFine(i: nat)
    requires i < 7
    ensures 0 < |HeaderOf(i)| <= MAX_HEADER_LENGTH && HeaderText(HeaderOf(i)) && HeaderFault(i, HeaderOf(i)) == None
  {
    match i {
      case 0 => assert HeaderText(FIELDS_ORDER[0] + "2");
      case 1 => assert HeaderText("Encryption");
      case 2 => assert HeaderText("Comment");
      case 3 => assert HeaderText("Public-Lines");
      case 4 => assert HeaderText("Private-Lines");
      case 5 => assert HeaderText("Private-Hash");
      case _ => assert HeaderText("Private-MAC");
    }
  }

  lemma TitledStarts(i: nat, line: string, e: string, rest: string, eol: Eol)
    requires i < 7
    ensures Starts(Titled(HeaderOf(i), line, e, rest), eol)
  {
    HeadersFine(i);
    assert !Newline(HeaderOf(i)[0]);
    assert Titled(HeaderOf(i), line, e, rest)[0] == HeaderOf(i)[0];
  }

  lemma AlgorithmLine(s: string)
    requires KnownAlgorithm(s)
    ensures OneLine(s)
  {
    match s
    case "ssh-rsa" =>
    case "ssh-dss" =>
    case "ecdsa-sha2-nistp256" =>
    case "ecdsa-sha2-nistp384" =>
    case "ecdsa-sha2-nistp521" =>
    case _ =>
  }

  lemma EncryptionLine(s: string)
    requires KnownEncryption(s)
    ensures OneLine(s)
  {
    if s == "none" {
    } else {
    }
  }

  /** One field is read back, and the rest of the file is left. */
  lemma FieldRead(i: nat, f: KeyFile, eol: Eol, last: string, dec: Decoder)
    requires i < 7 && i != 5 && WellFormed(f, eol, dec) && LineEnd(last, "")
    requires Starts(PrintFrom(i + 1, f, eol, last), eol)
    ensures Field(i, Partial(i, f.key), PrintFrom(i, f, eol, last), dec)
         == Got(Partial(i + 1, f.key), PrintFrom(i + 1, f, eol, last))
    ensures Starts(PrintFrom(i, f, eol, last), eol)
  {
    hide Field, Titled, BlobValue, Decimal, OneLine, HeaderText, HeaderFault, Starts, Lines;
    var more := PrintFrom(i + 1, f, eol, last);
    var e, line, rest := End(eol), "", more;
    HeadersFine(i);
    AlgorithmLine(f.key.algo);
    EncryptionLine(f.key.encryption);
    match i {
      case 0 => line := f.key.algo;
      case 1 => line := f.key.encryption;
      case 2 => line := f.key.comment;
      case 3 =>
        line, rest := Decimal(|f.publicLines|), Lines(f.publicLines, eol) + more;
        BlobValueRead(f.publicLines, eol, more, dec, f.key.publicKey);
      case 4 =>
        line, rest := Decimal(|f.privateLines|), Lines(f.privateLines, eol) + more;
        BlobValueRead(f.privateLines, eol, more, dec, f.key.privateKey);
      case _ => line, e := f.key.privateMac, last;
    }
    assert PrintFrom(i, f, eol, last) == Titled(HeaderOf(i), line, e, rest);
    EndsLine(eol, rest);
    TitledRead(i, Partial(i, f.key), HeaderOf(i), line, e, rest, dec);
    TitledStarts(i, line, e, rest, eol);
  }

  lemma EndsLine(eol: Eol, rest: string)
    requires Starts(rest, eol)
    ensures LineEnd(End(eol), rest)
  {
  }

  lemma {:induction false} FieldsRead(i: nat, f: KeyFile, eol: Eol, last: string, dec: Decoder)
    requires i <= 7 && WellFormed(f, eol, dec) && LineEnd(last, "")
    ensures Starts(PrintFrom(i, f, eol, last), eol)
    ensures Fields(i, Partial(i, f.key), PrintFrom(i, f, eol, last), dec) == Decoded(f.key)
    decreases 7 - i
  {
    hide Field, WellFormed, LineEnd;
    if i < 7 {
      FieldsRead(i + 1, f, eol, last, dec);
      if i != 5 {
        FieldRead(i, f, eol, last, dec);
      }
    }
  }

  /** A well-formed key printed with any line ending, with or without one after the last line, is read back whole. */
  lemma KeyRoundTrip(f: KeyFile, eol: Eol, finalNewline: bool, dec: Decoder)
    requires WellFormed(f, eol, dec)
    ensures
      var last := if finalNewline then End(eol) else "";
      Fields(0, NO_KEY, PrintFrom(0, f, eol, last), dec) == Decoded(f.key)
  {
    hide WellFormed, Fields, PrintFrom;
    FieldsRead(0, f, eol, if finalNewline then End(eol) else "", dec);
  }

  // ---- exactly which files are accepted ------------------------------------------------------------

  /** The headers of a version 2 file. */
  function Title(i: nat): string
    requires i < 7 && i != 5
  {
    match i
    case 0 => "PuTTY-User-Key-File-2"
    case 1 => "Encryption"
    case 2 => "Comment"
    case 3 => "Public-Lines"
    case 4 => "Private-Lines"
    case _ => "Private-MAC"
  }

  /** A header is let through exactly when it is the one that is due; the first one must say version 2. */
  lemma HeadersExactly(i: nat, v: string)
    requires i < 7 && i != 5
    ensures HeaderFault(i, v) == None <==> v == Title(i)
    ensures HeaderText(Title(i)) && |Title(i)| <= MAX_HEADER_LENGTH
  {
    assert FIELDS_ORDER[0] + "2" == "PuTTY-User-Key-File-2";
    HeadersFine(i);
    assert HeaderOf(i) == Title(i);
  }

  /** The text starts with header number i and this line; `rest` is what comes after the line's end. */
  ghost predicate Line(i: nat, b: string, line: string, rest: string)
    requires i < 7 && i != 5
  {
    OneLine(line) && exists e :: LineEnd(e, rest) && b == Title(i) + ": " + (line + e + rest)
  }

  /** The line gives the number of base64 lines that follow it, fewer than 5461, and these decode to `data`. */
  ghost predicate BlobHolds(line: string, rest: string, rest': string, dec: Decoder, data: string) {
    exists n: int, text ::
      Atoi(line) == Some(n) && n < 5461 && Blob(rest, n) == Got(text, rest') && dec(text) == Some(data)
  }

  /** The line of field i, with what follows it up to `rest'`, says what the key says. */
  ghost predicate Says(i: nat, k: Key, line: string, rest: string, rest': string, dec: Decoder)
    requires i < 7 && i != 5
  {
    match i
    case 0 =>
      && line == k.algo && rest' == rest
      && line in {"ssh-rsa", "ssh-dss", "ecdsa-sha2-nistp256", "ecdsa-sha2-nistp384", "ecdsa-sha2-nistp521",
                  "ssh-ed25519"}
    case 1 => line == k.encryption && rest' == rest && line in {"none", "aes256-cbc"}
    case 2 => line == k.comment && rest' == rest
    case 3 => BlobHolds(line, rest, rest', dec, k.publicKey)
    case 4 => BlobHolds(line, rest, rest', dec, k.privateKey)
    case _ => line == k.privateMac && rest' == rest
  }

  ghost predicate LineSays(i: nat, k: Key, b: string, line: string, rest: string, rest': string, dec: Decoder)
    requires i < 7 && i != 5
  {
    Line(i, b, line, rest) && Says(i, k, line, rest, rest', dec)
  }

  /** The text holds the key's fields from number i on, in order. */
  ghost predicate Holds(i: nat, k: Key, b: string, dec: Decoder)
    requires i <= 7
    decreases 7 - i
  {
    if i == 7 then true
    else if i == 5 then Holds(6, k, b, dec)
    else exists line, rest, rest' :: LineSays(i, k, b, line, rest, rest', dec) && Holds(i + 1, k, rest', dec)
  }

  lemma LineExactly(i: nat, b: string, line: string, rest: string, b1: string)
    requires i < 7 && i != 5 && b == Title(i) + ": " + b1
    ensures Body(b1) == (line, rest) <==> Line(i, b, line, rest)
  {
    hide Body, OneLine, LineEnd, Title;
    BodyExactly(b1, line, rest);
    if Line(i, b, line, rest) {
      var e :| LineEnd(e, rest) && b == Title(i) + ": " + (line + e + rest);
      assert b[|Title(i)| + 2..] == b1 && b[|Title(i)| + 2..] == line + e + rest;
    }
  }

  /** Field number i is read exactly when its header and line are there and the value is accepted. */
  lemma FieldExactly(i: nat, k: Key, b: string, dec: Decoder, k': Key, rest': string)
    requires i < 7 && i != 5
    ensures Field(i, k, b, dec) == Got(k', rest') <==>
            exists line, rest :: Line(i, b, line, rest) && FieldValue(i, k, line, rest, dec) == Got(k', rest')
  {
    hide Header, Body, Line, FieldValue, HeaderFault, HeaderText, Title;
    HeadersExactly(i, Title(i));
    if Field(i, k, b, dec) == Got(k', rest') {
      var v, b1 := Header(b, MAX_HEADER_LENGTH).value, Header(b, MAX_HEADER_LENGTH).rest;
      HeaderExactly(b, MAX_HEADER_LENGTH, v, b1);
      HeadersExactly(i, v);
      LineExactly(i, b, Body(b1).0, Body(b1).1, b1);
    }
    if line, rest :| Line(i, b, line, rest) && FieldValue(i, k, line, rest, dec) == Got(k', rest') {
      var b1 := TitleRead(i, b, line, rest);
      LineExactly(i, b, line, rest, b1);
    }
  }

  lemma TitleRead(i: nat, b: string, line: string, rest: string) returns (b1: string)
    requires i < 7 && i != 5 && Line(i, b, line, rest)
    ensures b == Title(i) + ": " + b1 && Header(b, MAX_HEADER_LENGTH) == Got(Title(i), b1)
  {
    hide Header, Title, OneLine, LineEnd;
    var e :| LineEnd(e, rest) && b == Title(i) + ": " + (line + e + rest);
    b1 := line + e + rest;
    HeadersExactly(i, Title(i));
    HeaderExactly(b, MAX_HEADER_LENGTH, Title(i), b1);
  }

  lemma BlobExactly(line: string, b: string, dec: Decoder, data: string, rest: string)
    ensures BlobValue(line, b, dec) == Got(data, rest) <==> BlobHolds(line, b, rest, dec, data)
  {
    hide Atoi, Blob;
    if BlobValue(line, b, dec) == Got(data, rest) {
      var n := Atoi(line).value;
      assert Blob(b, n) == Got(Blob(b, n).value, rest);
    }
  }

  /** Key k0 with field i taken from k. */
  function With(i: nat, k0: Key, k: Key): Key {
    match i
    case 0 => k0.(algo := k.algo)
    case 1 => k0.(encryption := k.encryption)
    case 2 => k0.(comment := k.comment)
    case 3 => k0.(publicKey := k.publicKey)
    case 4 => k0.(privateKey := k.privateKey)
    case 5 => k0
    case _ => k0.(privateMac := k.privateMac)
  }

  /** The two keys agree on the fields before number i. */
  predicate Agree(i: nat, k0: Key, k: Key) {
    && (i > 0 ==> k0.algo == k.algo) && (i > 1 ==> k0.encryption == k.encryption)
    && (i > 2 ==> k0.comment == k.comment) && (i > 3 ==> k0.publicKey == k.publicKey)
    && (i > 4 ==> k0.privateKey == k.privateKey) && (i > 6 ==> k0.privateMac == k.privateMac)
  }

  lemma ValueExactly(i: nat, k0: Key, k: Key, line: string, rest: string, rest': string, dec: Decoder)
    requires i < 7 && i != 5
    ensures Says(i, k, line, rest, rest', dec) <==> FieldValue(i, k0, line, rest, dec) == Got(With(i, k0, k), rest')
  {
    hide BlobValue, BlobHolds;
    BlobExactly(line, rest, dec, k.publicKey, rest');
    BlobExactly(line, rest, dec, k.privateKey, rest');
  }

  /** Reading field i sets that field and no other. */
  lemma ValueSets(i: nat, k0: Key, k: Key, k1: Key, line: string, rest: string, rest': string, dec: Decoder)
    requires i < 7 && i != 5 && FieldValue(i, k0, line, rest, dec) == Got(k1, rest')
    ensures Agree(i + 1, k1, k) <==> Agree(i, k0, k) && k1 == With(i, k0, k)
  {
    hide BlobValue;
  }

  lemma {:induction false} FieldsExactly(i: nat, k0: Key, b: string, dec: Decoder, k: Key)
    requires i <= 7
    ensures Fields(i, k0, b, dec) == Decoded(k) <==> Agree(i, k0, k) && Holds(i, k, b, dec)
    decreases 7 - i
  {
    if i == 5 {
      FieldsExactly(6, k0, b, dec, k);
    } else if i < 7 {
      var r := Field(i, k0, b, dec);
      if r.Got? && Fields(i + 1, r.value, r.rest, dec) == Decoded(k) {
        FieldsExactly(i + 1, r.value, r.rest, dec, k);
        FieldAccepted(i, k0, b, dec, k);
      }
      if Agree(i, k0, k) && Holds(i, k, b, dec) {
        FieldHeld(i, k0, b, dec, k);
        FieldsExactly(i + 1, With(i, k0, k), Field(i, k0, b, dec).rest, dec, k);
      }
    }
  }

  lemma FieldAccepted(i: nat, k0: Key, b: string, dec: Decoder, k: Key)
    requires i < 7 && i != 5
    requires
      var r := Field(i, k0, b, dec);
      r.Got? && Agree(i + 1, r.value, k) && Holds(i + 1, k, r.rest, dec)
    ensures Agree(i, k0, k) && Holds(i, k, b, dec)
  {
    hide Field, FieldValue, Says, Line, Agree;
    var r := Field(i, k0, b, dec);
    FieldExactly(i, k0, b, dec, r.value, r.rest);
    var line, rest :| Line(i, b, line, rest) && FieldValue(i, k0, line, rest, dec) == Got(r.value, r.rest);
    ValueSets(i, k0, k, r.value, line, rest, r.rest, dec);
    ValueExactly(i, k0, k, line, rest, r.rest, dec);
    assert LineSays(i, k, b, line, rest, r.rest, dec);
  }

  lemma FieldHeld(i: nat, k0: Key, b: string, dec: Decoder, k: Key)
    requires i < 7 && i != 5 && Agree(i, k0, k) && Holds(i, k, b, dec)
    ensures
      var r := Field(i, k0, b, dec);
      r.Got? && r.value == With(i, k0, k) && Agree(i + 1, r.value, k) && Holds(i + 1, k, r.rest, dec)
  {
    hide Field, FieldValue, Says, Line, Agree, With;
    var line, rest, rest' :| LineSays(i, k, b, line, rest, rest', dec) && Holds(i + 1, k, rest', dec);
    ValueExactly(i, k0, k, line, rest, rest', dec);
    FieldExactly(i, k0, b, dec, With(i, k0, k), rest');
    ValueSets(i, k0, k, With(i, k0, k), line, rest, rest', dec);
  }

  /**
    Exactly which texts are accepted, and as which key: those with the six fields of a version 2 file in order, an
    algorithm and an encryption that are known, and as many base64 lines as announced.
   */
  lemma AcceptedExactly(b: string, dec: Decoder, k: Key)
    ensures Fields(0, NO_KEY, b, dec) == Decoded(k) <==> Holds(0, k, b, dec)
  {
    hide Fields, Holds;
    FieldsExactly(0, NO_KEY, b, dec, k);
  }
}
