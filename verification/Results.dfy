/**
  What a reading File call takes out of its result channel, and the error it keeps.
 */
module Results {
  import opened Prelude

  /** A reply to one of the requests, or a result that carries an error of its own. */
  datatype Reply =
    | Data(id: nat, data: seq<byte>)
    | Status(id: nat, err: Error)
    | Lost(err: Error)

  /** An error and the file offset it belongs to. */
  datatype OffsetErr = OffsetErr(offset: nat, err: Error)

  /** The error with the lowest offset so far. */
  function Lowest(firstErr: OffsetErr, offset: nat, e: Error): OffsetErr {
    if firstErr.err == Ok || offset < firstErr.offset then OffsetErr(offset, e) else firstErr
  }

  // ---- which error a call returns --------------------------------------------------------

  /**
    What can go wrong in one turn: the server refuses the request for an offset, or something that stops the call,
    that is a result which belongs to no request or a write that failed.
   */
  datatype Note = Denied(offset: nat, err: Error) | Stop(err: Error)

  function Added(notes: seq<Note>, note: Option<Note>): seq<Note> {
    if note.Some? then notes + [note.value] else notes
  }

  function LastStop(notes: seq<Note>): Option<Error> {
    if notes == [] then None
    else
      var x := notes[|notes| - 1];
      if x.Stop? then Some(x.err) else LastStop(notes[..|notes| - 1])
  }

  /** The error came with a refusal, and no refusal was for a lower offset. */
  ghost predicate LowestDenial(notes: seq<Note>, offset: nat, err: Error) {
    Denied(offset, err) in notes && forall x | x in notes :: x.Denied? && offset <= x.offset
  }

  /**
    The error that a call has to report when all this went wrong, in this order: that of the last thing that stopped
    it, and if nothing did, that of the refused request with the lowest offset; nil if nothing went wrong.
   */
  ghost predicate Blames(notes: seq<Note>, err: Error) {
    match LastStop(notes)
    case Some(e) => err == e
    case None => if notes == [] then err == Ok else exists offset :: LowestDenial(notes, offset, err)
  }

  /** `firstErr` after all this went wrong. */
  ghost predicate Noted(notes: seq<Note>, firstErr: OffsetErr) {
    match LastStop(notes)
    case Some(e) => firstErr.err == e && e != Ok
    case None =>
      if firstErr.err == Ok then notes == [] else LowestDenial(notes, firstErr.offset, firstErr.err)
  }

  /** One turn's effect on `firstErr`. */
  ghost predicate Keeps(notes: seq<Note>, firstErr: OffsetErr, note: Option<Note>, firstErr': OffsetErr) {
    match note
    case None => firstErr' == firstErr
    case Some(Stop(e)) => firstErr'.err == e && e != Ok
    case Some(Denied(o, e)) =>
      && firstErr' == Lowest(firstErr, o, e) && e != Ok
      && (LastStop(notes).Some? ==> firstErr.offset <= o)
  }

  lemma NotedStep(notes: seq<Note>, firstErr: OffsetErr, note: Option<Note>, firstErr': OffsetErr)
    requires Noted(notes, firstErr) && Keeps(notes, firstErr, note, firstErr')
    ensures Noted(Added(notes, note), firstErr')
    ensures LastStop(Added(notes, note)).Some? <==> LastStop(notes).Some? || (note.Some? && note.value.Stop?)
  {
    if note.Some? {
      assert (notes + [note.value])[..|notes|] == notes;
    }
  }

  lemma NotedBlames(notes: seq<Note>, firstErr: OffsetErr)
    requires Noted(notes, firstErr)
    ensures Blames(notes, firstErr.err)
    ensures firstErr.err == Ok ==> notes == []
  {
  }

  /** When nothing stopped the call, all that went wrong are refusals. */
  lemma {:induction false} NoStop(notes: seq<Note>)
    ensures LastStop(notes) == None <==> forall x | x in notes :: x.Denied?
  {
    if notes != [] {
      var rest, x := notes[..|notes| - 1], notes[|notes| - 1];
      assert notes == rest + [x] && x in notes;
      assert forall y :: y in notes <==> y in rest || y == x;
      NoStop(rest);
    }
  }
}
