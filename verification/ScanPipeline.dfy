/**
  The scan-and-move pipeline: the scavenger hands a batch of uploaded files to a notifier goroutine, which offers
  them one by one to the overlord; the overlord has each one scanned by a goroutine of its own and then moves it.
  The goroutines meet on four unbuffered channels; every rendezvous is one step.
 */
module ScanPipeline {
  import opened Prelude

  type Path = string
  type Disk = map<Path, seq<byte>>

  // ---- one scan ---------------------------------------------------------------------

  datatype ScanStatus = OK | Virus | Error

  /** What clamd came back with: a status line, or no connection. */
  datatype Clamd = Reply(status: string) | Unreachable

  datatype ScanResult = ScanResult(path: Path, status: ScanStatus, virusFound: bool, error: bool)

  function ConvertStatus(status: string): (ScanStatus, bool) {
    if status == "OK" then (OK, false)
    else if status == "FOUND" then (Virus, true)
    else (Error, false)
  }

  function ScanFile(path: Path, enabled: bool, clamd: Clamd): ScanResult {
    if !enabled then ScanResult(path, ConvertStatus("OK").0, false, false)
    else
      match clamd
      case Unreachable => ScanResult(path, ConvertStatus("ERROR").0, ConvertStatus("ERROR").1, true)
      case Reply(status) => ScanResult(path, ConvertStatus(status).0, ConvertStatus(status).1, false)
  }

  // ---- where a file goes -----------------------------------------------------------------

  /** strings.Replace(s, old, new, -1). */
  function Replace(s: string, old': string, new': string): string
    decreases |s|
  {
    if old' == "" then
      if s == "" then new' else new' + [s[0]] + Replace(s[1..], old', new')
    else if s == "" then ""
    else if old' <= s then new' + Replace(s[|old'|..], old', new')
    else [s[0]] + Replace(s[1..], old', new')
  }

  datatype Config = Config(staging: Path, clean: Path, quarantine: Path, enableVirusScan: bool)

  function Destination(c: Config, virusFound: bool, path: Path): Path {
    Replace(path, c.staging, if virusFound then c.quarantine else c.clean)
  }

  /** The destination that the flags choose; a scan error leaves the file where it is. */
  function Route(c: Config, r: ScanResult): Option<Path> {
    if r.error then None else Some(Destination(c, r.virusFound, r.path))
  }

  /**
    Exactly which files go where. Only an unreachable scanner holds a file back: any status line other than
    FOUND, an ERROR included, sends the file on to the clean directory.
   */
  lemma RoutedExactly(c: Config, path: Path, clamd: Clamd)
    ensures
      var r := ScanFile(path, c.enableVirusScan, clamd);
      && (Route(c, r) == None <==> c.enableVirusScan && clamd == Unreachable)
      && (r.virusFound <==> c.enableVirusScan && clamd == Reply("FOUND"))
      && (!r.error && !r.virusFound <==> !c.enableVirusScan || (clamd.Reply? && clamd.status != "FOUND"))
  {
  }

  // ---- the move ------------------------------------------------------------------------------

  /** Which of the file-system calls fail; a copy can fail after any number of bytes. */
  datatype Faults = Faults(open: bool, create: bool, copied: Option<nat>, remove: bool)

  const NO_FAULTS := Faults(false, false, None, false)

  class FileSystem {
    var files: Disk

    /** moveFileBetweenDrives. */
    method MoveFileBetweenDrives(src: Path, dest: Path, faults: Faults) returns (ok: bool)
      modifies this
      ensures files == AfterMove(old(files), src, dest, faults)
      ensures ok && src in old(files) && src != dest ==> files == old(files)[dest := old(files)[src]] - {src}
      ensures src !in old(files) ==> ok && files == old(files)
    {
      if src !in files {
        return true;
      }
      if faults.create {
        return false;
      }
      files := files[dest := []];
      if faults.open {
        return false;
      }
      var content := files[src];
      match faults.copied {
        case Some(n) =>
          files := files[dest := content[..Min(n, |content|)]];
          return false;
        case None =>
          files := files[dest := content];
      }
      if faults.remove {
        return false;
      }
      files := files - {src};
      return true;
    }
  }

  /** The disk after a move; os.Create empties the destination before anything is read from the source. */
  function AfterMove(d: Disk, src: Path, dest: Path, faults: Faults): Disk {
    if src !in d || faults.create then d
    else
      var created := d[dest := []];
      if faults.open then created
      else
        var content := created[src];
        match faults.copied
        case Some(n) => created[dest := content[..Min(n, |content|)]]
        case None => if faults.remove then created[dest := content] else created[dest := content] - {src}
  }

  /** The content that was at src is still whole, there or at dest. */
  predicate Kept(before: Disk, after: Disk, src: Path, dest: Path)
    requires src in before
  {
    || (src in after && after[src] == before[src])
    || (dest in after && after[dest] == before[src])
  }

  lemma MoveKeeps(d: Disk, src: Path, dest: Path, faults: Faults)
    requires src in d && src != dest
    ensures Kept(d, AfterMove(d, src, dest, faults), src, dest)
    ensures forall p | p != src && p != dest :: p in d <==> p in AfterMove(d, src, dest, faults)
    ensures forall p | p != src && p != dest && p in d :: AfterMove(d, src, dest, faults)[p] == d[p]
  {
  }

  /** Whichever step fails, a move loses nothing, exactly when source and destination differ. */
  lemma MoveKeepsExactly(d: Disk, src: Path, dest: Path)
    requires src in d
    ensures (forall faults :: Kept(d, AfterMove(d, src, dest, faults), src, dest)) <==> src != dest
  {
    if src == dest {
      assert src !in AfterMove(d, src, dest, NO_FAULTS);
      assert !Kept(d, AfterMove(d, src, dest, NO_FAULTS), src, dest);
    } else {
      forall faults ensures Kept(d, AfterMove(d, src, dest, faults), src, dest) {
        MoveKeeps(d, src, dest, faults);
      }
    }
  }

  /** Every path's content is still whole where it was, or, for the source, at the destination. */
  ghost predicate AllKept(before: Disk, after: Disk, src: Path, dest: Path) {
    forall p | p in before ::
      || (p in after && after[p] == before[p])
      || (p == src && dest in after && after[dest] == before[p])
  }

  /**
    Whichever step fails, a move destroys no content of any path exactly when source and destination differ and
    nothing was at the destination. (Only an empty file that is replaced by an empty one makes no difference.)
   */
  lemma MoveDestroysNothingExactly(d: Disk, src: Path, dest: Path)
    requires src in d
    ensures (forall faults :: AllKept(d, AfterMove(d, src, dest, faults), src, dest))
       <==> src != dest && (dest in d ==> d[dest] == [] && d[src] == [])
  {
    if src == dest {
      MoveOntoItself(d, src);
    } else if dest in d && d[dest] != d[src] {
      Overwrites(d, src, dest);
    } else if dest in d && d[dest] != [] {
      assert AfterMove(d, src, dest, NO_FAULTS.(open := true))[dest] == [];
      assert !AllKept(d, AfterMove(d, src, dest, NO_FAULTS.(open := true)), src, dest);
    } else {
      forall faults ensures AllKept(d, AfterMove(d, src, dest, faults), src, dest) {
        MoveKeeps(d, src, dest, faults);
      }
    }
  }

  lemma MoveOntoItself(d: Disk, src: Path)
    requires src in d
    ensures !AllKept(d, AfterMove(d, src, src, NO_FAULTS), src, src)
  {
    assert src !in AfterMove(d, src, src, NO_FAULTS);
  }

  /** The file that was at the destination is gone, even when nothing fails. */
  lemma Overwrites(d: Disk, src: Path, dest: Path)
    requires src in d && dest in d && src != dest && d[dest] != d[src]
    ensures !AllKept(d, AfterMove(d, src, dest, NO_FAULTS), src, dest)
    ensures AfterMove(d, src, dest, NO_FAULTS) == d[dest := d[src]] - {src}
  {
    assert AfterMove(d, src, dest, NO_FAULTS)[dest] == d[src];
  }

  // ---- which files are ready -------------------------------------------------------------------

  const UPLOAD_TIME_LIMIT_MIN := 120

  /** An open upload: None when its modification time cannot be read, else its idle time in minutes. */
  type Uploads = map<Path, Option<int>>

  predicate Ready(opens: Uploads, f: Path) {
    f in opens ==> opens[f].Some? && opens[f].value >= UPLOAD_TIME_LIMIT_MIN
  }

  function ReadyOnes(opens: Uploads, files: seq<Path>): (r: seq<Path>)
    ensures forall f :: f in r <==> f in files && Ready(opens, f)
  {
    if files == [] then []
    else
      var n := |files| - 1;
      assert files == files[..n] + [files[n]];
      ReadyOnes(opens, files[..n]) + if Ready(opens, files[n]) then [files[n]] else []
  }

  /** A file that nobody has open, or that is open but was not written to for two hours, as far as can be told. */
  predicate Due(opens: Uploads, f: Path) {
    f !in opens || (match opens[f] case None => false case Some(idle) => idle >= 120)
  }

  /** The batch holds the files at the places `at`, in order, and these are all that are due. */
  ghost predicate TakenAt(opens: Uploads, files: seq<Path>, batch: seq<Path>, at: seq<nat>) {
    && |batch| == |at|
    && (forall k | 0 <= k < |at| :: at[k] < |files| && batch[k] == files[at[k]])
    && (forall j, k | 0 <= j < k < |at| :: at[j] < at[k])
    && (forall i: nat | i < |files| :: i in at <==> Due(opens, files[i]))
  }

  lemma TakesNext(opens: Uploads, files: seq<Path>, batch: seq<Path>, at: seq<nat>, f: Path)
    requires TakenAt(opens, files, batch, at)
    ensures if Due(opens, f) then TakenAt(opens, files + [f], batch + [f], at + [|files|])
            else TakenAt(opens, files + [f], batch, at)
  {
    hide Due;
    assert forall i | i in at :: i < |files|;
  }

  lemma ReadyNext(opens: Uploads, files: seq<Path>, f: Path)
    ensures ReadyOnes(opens, files + [f]) == ReadyOnes(opens, files) + if Due(opens, f) then [f] else []
  {
    var all, n := files + [f], |files|;
    assert all[..n] == files && all[n] == f;
    assert ReadyOnes(opens, all) == ReadyOnes(opens, all[..n]) + if Ready(opens, all[n]) then [all[n]] else [];
  }

  lemma NoneTaken(opens: Uploads)
    ensures TakenAt(opens, [], ReadyOnes(opens, []), [])
  {
  }

  lemma {:induction false} BatchExactly(opens: Uploads, files: seq<Path>) returns (at: seq<nat>)
    ensures TakenAt(opens, files, ReadyOnes(opens, files), at)
  {
    hide TakenAt, ReadyOnes, Due, Ready;
    if files == [] {
      NoneTaken(opens);
      at := [];
    } else {
      var before, f := files[..|files| - 1], files[|files| - 1];
      assert files == before + [f];
      at := BatchExactly(opens, before);
      TakesNext(opens, before, ReadyOnes(opens, before), at, f);
      ReadyNext(opens, before, f);
      assert ReadyOnes(opens, before) + [] == ReadyOnes(opens, before);
      at := if Due(opens, f) then at + [|before|] else at;
    }
  }

  method CheckScavengedFilesUploadState(files: seq<Path>, opens: Uploads) returns (closeds: seq<Path>, ok: bool)
    ensures closeds == ReadyOnes(opens, files)
    ensures exists at :: TakenAt(opens, files, closeds, at)
    ensures ok <==> closeds != [] || opens == map[]
  {
    hide TakenAt;
    ghost var at := BatchExactly(opens, files);
    if |opens| == 0 {
      AllReady(opens, files);
      return files, true;
    }
    closeds := [];
    for i := 0 to |files|
      invariant closeds == ReadyOnes(opens, files[..i])
    {
      assert files[..i + 1][..i] == files[..i];
      var f := files[i];
      if f in opens {
        if opens[f].None? {
          continue;
        }
        if opens[f].value >= UPLOAD_TIME_LIMIT_MIN {
          closeds := closeds + [f];
        }
      } else {
        closeds := closeds + [f];
      }
    }
    assert files[..|files|] == files;
    ok := |closeds| > 0;
  }

  lemma {:induction false} AllReady(opens: Uploads, files: seq<Path>)
    requires opens == map[]
    ensures ReadyOnes(opens, files) == files
  {
    if files != [] {
      var n := |files| - 1;
      AllReady(opens, files[..n]);
      assert ReadyOnes(opens, files) == ReadyOnes(opens, files[..n]) + [files[n]];
      hide ReadyOnes;
      assert files == files[..n] + [files[n]];
    }
  }

  // ---- the goroutines ---------------------------------------------------------------------------

  datatype Scavenger = Walking | WaitingForBatch

  /**
    A notifier offers the first of its files, waits for that one's ScanDone, or with none left reports the batch done.
   */
  datatype Notifier = Offering(rest: seq<Path>) | Awaiting(f: Path, rest: seq<Path>)

  datatype Scanner = Scanning(path: Path) | Reporting(r: ScanResult)

  datatype Overlord = Selecting | Handling(r: ScanResult) | Announcing(path: Path)

  /**
    `handed` records every file of every batch so far, `scans` every scan made, both in order, and `looked` the content
    each scan was made of, if the file was there.
   */
  datatype State = State(scavenger: Scavenger, notifiers: seq<Notifier>, scanners: seq<Scanner>, overlord: Overlord,
                         disk: Disk, handed: seq<Path>, scans: seq<ScanResult>, looked: seq<Option<seq<byte>>>)

  datatype Step =
    | Scavenge(found: seq<Path>, opens: Uploads)
    | Offer(n: nat)
    | Scan(k: nat, clamd: Clamd)
    | Report(k: nat)
    | Handle(faults: Faults)
    | ScanDone(n: nat)
    | BatchDone(n: nat)
    | Upload(path: Path, content: seq<byte>)

  function Start(disk: Disk): State {
    State(Walking, [], [], Selecting, disk, [], [], [])
  }

  predicate Enabled(s: State, step: Step) {
    match step
    case Scavenge(found, opens) => s.scavenger == Walking && ReadyOnes(opens, found) != []
    case Offer(n) =>
      n < |s.notifiers| && s.notifiers[n].Offering? && s.notifiers[n].rest != [] && s.overlord == Selecting
    case Scan(k, _) => k < |s.scanners| && s.scanners[k].Scanning?
    case Report(k) => k < |s.scanners| && s.scanners[k].Reporting? && s.overlord == Selecting
    case Handle(_) => s.overlord.Handling?
    case ScanDone(n) => n < |s.notifiers| && s.notifiers[n].Awaiting? && s.overlord.Announcing?
    case BatchDone(n) => n < |s.notifiers| && s.notifiers[n] == Offering([]) && s.scavenger == WaitingForBatch
    case Upload(_, _) => true
  }

  function Without<T>(s: seq<T>, k: nat): seq<T>
    requires k < |s|
  {
    s[..k] + s[k + 1..]
  }

  function ContentAt(d: Disk, p: Path): Option<seq<byte>> {
    if p in d then Some(d[p]) else None
  }

  function Next(c: Config, s: State, step: Step): State
    requires Enabled(s, step)
  {
    match step
    case Scavenge(found, opens) =>
      var batch := ReadyOnes(opens, found);
      s.(scavenger := WaitingForBatch, notifiers := s.notifiers + [Offering(batch)], handed := s.handed + batch)
    case Offer(n) =>
      var f, rest := s.notifiers[n].rest[0], s.notifiers[n].rest[1..];
      s.(notifiers := s.notifiers[n := Awaiting(f, rest)], scanners := s.scanners + [Scanning(f)])
    case Scan(k, clamd) =>
      var r := ScanFile(s.scanners[k].path, c.enableVirusScan, clamd);
      s.(scanners := s.scanners[k := Reporting(r)], scans := s.scans + [r],
         looked := s.looked + [ContentAt(s.disk, s.scanners[k].path)])
    case Report(k) => s.(overlord := Handling(s.scanners[k].r), scanners := Without(s.scanners, k))
    case Handle(faults) =>
      var r := s.overlord.r;
      match Route(c, r) {
        case None => s.(overlord := Announcing(r.path))
        case Some(dest) => s.(overlord := Announcing(r.path), disk := AfterMove(s.disk, r.path, dest, faults))
      }
    case ScanDone(n) => s.(overlord := Selecting, notifiers := s.notifiers[n := Offering(s.notifiers[n].rest)])
    case BatchDone(n) => s.(scavenger := Walking, notifiers := Without(s.notifiers, n))
    case Upload(path, content) => s.(disk := s.disk[path := content])
  }

  function Paths(scans: seq<ScanResult>): seq<Path> {
    seq(|scans|, i requires 0 <= i < |scans| => scans[i].path)
  }

  /** The file between hand-off and ScanDone, in whichever goroutine's hands it is. */
  ghost predicate InHand(f: Path, rest: seq<Path>, scanners: seq<Scanner>, overlord: Overlord, handed: seq<Path>,
                         scans: seq<ScanResult>) {
    || (scanners == [Scanning(f)] && overlord == Selecting && Paths(scans) + [f] + rest == handed)
    || (&& Paths(scans) + rest == handed && scans != [] && scans[|scans| - 1].path == f
        && ((scanners == [Reporting(scans[|scans| - 1])] && overlord == Selecting)
            || (scanners == [] && (overlord == Handling(scans[|scans| - 1]) || overlord == Announcing(f)))))
  }

  ghost predicate Inv(s: State) {
    if s.scavenger == Walking then
      s.notifiers == [] && s.scanners == [] && s.overlord == Selecting && Paths(s.scans) == s.handed
    else
      && |s.notifiers| == 1
      && match s.notifiers[0]
         case Offering(rest) => s.scanners == [] && s.overlord == Selecting && Paths(s.scans) + rest == s.handed
         case Awaiting(f, rest) => InHand(f, rest, s.scanners, s.overlord, s.handed, s.scans)
  }

  lemma PathsGrow(scans: seq<ScanResult>, r: ScanResult)
    ensures Paths(scans + [r]) == Paths(scans) + [r.path]
  {
  }

  lemma OnlyOne<T>(s: seq<T>, x: T)
    requires s == [x]
    ensures Without(s, 0) == []
  {
  }

  lemma StepKeepsInv(c: Config, s: State, step: Step)
    requires Inv(s) && Enabled(s, step)
    ensures Inv(Next(c, s, step))
  {
    hide Paths, ReadyOnes, Route, AfterMove;
    match step {
      case Scavenge(found, opens) =>
        assert [] + [Offering(ReadyOnes(opens, found))] == [Offering(ReadyOnes(opens, found))];
      case Offer(n) =>
        var rest := s.notifiers[0].rest;
        assert Paths(s.scans) + rest == Paths(s.scans) + [rest[0]] + rest[1..];
      case Scan(k, clamd) => PathsGrow(s.scans, ScanFile(s.scanners[k].path, c.enableVirusScan, clamd));
      case Report(k) => OnlyOne(s.scanners, s.scanners[0]);
      case BatchDone(n) => OnlyOne(s.notifiers, s.notifiers[0]);
      case _ =>
    }
  }

  // ---- every run ------------------------------------------------------------------------------------

  ghost predicate IsRun(c: Config, s: State, steps: seq<Step>, s': State)
    decreases |steps|
  {
    if steps == [] then s == s' else Enabled(s, steps[0]) && IsRun(c, Next(c, s, steps[0]), steps[1..], s')
  }

  lemma {:induction false} RunKeepsInv(c: Config, s: State, steps: seq<Step>, s': State)
    requires Inv(s) && IsRun(c, s, steps, s')
    ensures Inv(s')
    decreases |steps|
  {
    hide Inv, Next, Enabled;
    if steps != [] {
      StepKeepsInv(c, s, steps[0]);
      RunKeepsInv(c, Next(c, s, steps[0]), steps[1..], s');
    }
  }

  lemma Reached(c: Config, disk: Disk, steps: seq<Step>, s: State)
    requires IsRun(c, Start(disk), steps, s)
    ensures Inv(s)
  {
    hide IsRun;
    RunKeepsInv(c, Start(disk), steps, s);
  }

  /**
    In every run there is at most one notifier, and at most one file between hand-off and ScanDone: the one it waits
    for.
   */
  lemma OneFileAtATime(c: Config, disk: Disk, steps: seq<Step>, s: State)
    requires IsRun(c, Start(disk), steps, s)
    ensures |s.notifiers| <= 1
    ensures |s.scanners| + (if s.overlord == Selecting then 0 else 1) <= 1
    ensures |s.scanners| > 0 || s.overlord != Selecting ==> |s.notifiers| == 1 && s.notifiers[0].Awaiting?
    ensures forall k | 0 <= k < |s.scanners| && s.scanners[k].Scanning? :: s.notifiers[0].f == s.scanners[k].path
    ensures s.overlord.Handling? ==>
              s.scans != [] && s.overlord.r == s.scans[|s.scans| - 1] && s.notifiers[0].f == s.overlord.r.path
  {
    hide IsRun, Paths;
    Reached(c, disk, steps, s);
  }

  /**
    In every run the files are scanned in the order they were handed over, and all of them before the batch is
    reported done.
   */
  lemma ScannedOnceInOrder(c: Config, disk: Disk, steps: seq<Step>, s: State)
    requires IsRun(c, Start(disk), steps, s)
    ensures Paths(s.scans) <= s.handed
    ensures s.scavenger == Walking || s.notifiers == [Offering([])] ==> Paths(s.scans) == s.handed
  {
    hide IsRun, Paths;
    Reached(c, disk, steps, s);
    assert Paths(s.scans) + [] == Paths(s.scans);
  }

  /** Steps of the pipeline itself: neither a new batch nor an upload. */
  predicate Internal(step: Step) {
    !step.Scavenge? && !step.Upload?
  }

  /** In every reachable state some goroutine can go on, unless the scavenger is looking for the next batch. */
  lemma NeverStuck(s: State) returns (step: Step)
    requires Inv(s) && s.scavenger != Walking
    ensures Internal(step) && Enabled(s, step)
  {
    hide Paths;
    match s.notifiers[0]
    case Offering(rest) => return if rest == [] then BatchDone(0) else Offer(0);
    case Awaiting(f, rest) =>
      match s.overlord
      case Selecting => return if s.scanners[0].Scanning? then Scan(0, Unreachable) else Report(0);
      case Handling(_) => return Handle(NO_FAULTS);
      case Announcing(_) => return ScanDone(0);
  }

  /** The number of steps until the batch is done. */
  ghost function StepsLeft(s: State): nat {
    if s.scavenger == Walking || s.notifiers == [] then 0
    else
      match s.notifiers[0]
      case Offering(rest) => 5 * |rest| + 1
      case Awaiting(_, rest) =>
        5 * |rest| + 1 +
        match s.overlord {
          case Selecting => if |s.scanners| > 0 && s.scanners[0].Scanning? then 4 else 3
          case Handling(_) => 2
          case Announcing(_) => 1
        }
  }

  lemma StepCounts(c: Config, s: State, step: Step)
    requires Inv(s) && Enabled(s, step) && Internal(step)
    ensures StepsLeft(Next(c, s, step)) == StepsLeft(s) - 1
  {
    hide Paths, Route, AfterMove;
    match step {
      case Report(k) => OnlyOne(s.scanners, s.scanners[0]);
      case BatchDone(n) => OnlyOne(s.notifiers, s.notifiers[0]);
      case _ =>
    }
  }

  lemma {:induction false} RunCounts(c: Config, s: State, steps: seq<Step>, s': State)
    requires Inv(s) && IsRun(c, s, steps, s') && forall x | x in steps :: Internal(x)
    ensures StepsLeft(s') == StepsLeft(s) - |steps|
    decreases |steps|
  {
    hide Inv, Next, Enabled, StepsLeft;
    if steps != [] {
      FirstIn(steps);
      StepKeepsInv(c, s, steps[0]);
      StepCounts(c, s, steps[0]);
      RunCounts(c, Next(c, s, steps[0]), steps[1..], s');
    }
  }

  /** A batch takes five steps a file and one to report, whatever the schedule, and then every file has been scanned. */
  lemma BatchEnds(c: Config, disk: Disk, before: seq<Step>, s: State, after: seq<Step>, s': State)
    requires IsRun(c, Start(disk), before, s)
    requires IsRun(c, s, after, s') && forall x | x in after :: Internal(x)
    ensures |after| <= StepsLeft(s)
    ensures (forall step | Internal(step) :: !Enabled(s', step)) ==>
              s'.scavenger == Walking && Paths(s'.scans) == s'.handed
  {
    hide IsRun, Next, Enabled, StepsLeft, Paths;
    Reached(c, disk, before, s);
    RunCounts(c, s, after, s');
    RunKeepsInv(c, s, after, s');
    if s'.scavenger != Walking {
      var step := NeverStuck(s');
    }
  }

  // ---- nothing is lost -------------------------------------------------------------------------------

  /** Whether a scan can have this outcome: without scanning no virus is ever found. */
  predicate Possible(c: Config, virusFound: bool) {
    virusFound ==> c.enableVirusScan
  }

  /**
    Of the files handed over, none is moved onto path p, and none but p itself onto a destination of p, which in turn
    is none of the files.
   */
  ghost predicate Clear(c: Config, files: set<Path>, p: Path) {
    && (forall v, f | Possible(c, v) && f in files :: Destination(c, v, f) != p)
    && (p in files ==>
          && (forall v | Possible(c, v) :: Destination(c, v, p) !in files)
          && (forall v, w, f | Possible(c, v) && Possible(c, w) && f in files && f != p ::
                Destination(c, w, f) != Destination(c, v, p)))
  }

  /** An upload reuses neither the name p nor a destination of p. */
  ghost predicate LeavesAlone(c: Config, files: set<Path>, p: Path, step: Step) {
    step.Upload? ==>
      step.path != p && (p in files ==> forall v | Possible(c, v) :: Destination(c, v, p) != step.path)
  }

  ghost predicate AllPossible(c: Config, scans: seq<ScanResult>) {
    forall r | r in scans :: Possible(c, r.virusFound)
  }

  /** The content of path p has been moved to where scan r sent it. */
  ghost predicate SentTo(c: Config, r: ScanResult, p: Path, content: seq<byte>, now: Disk) {
    r.path == p && !r.error && Destination(c, r.virusFound, p) in now && now[Destination(c, r.virusFound, p)] == content
  }

  /** The content is still at p, or whole at the destination that a scan of p chose. */
  ghost predicate Safe(c: Config, files: set<Path>, p: Path, content: seq<byte>, now: Disk, scans: seq<ScanResult>) {
    || (p in now && now[p] == content)
    || (p in files && p !in now && exists r :: r in scans && SentTo(c, r, p, content, now))
  }

  lemma MoveSafe(c: Config, files: set<Path>, p: Path, content: seq<byte>, now: Disk, scans: seq<ScanResult>,
                 r: ScanResult, faults: Faults)
    requires Clear(c, files, p) && r.path in files && Safe(c, files, p, content, now, scans)
    requires r in scans && !r.error && AllPossible(c, scans)
    ensures Safe(c, files, p, content, AfterMove(now, r.path, Destination(c, r.virusFound, r.path), faults), scans)
  {
    hide Destination;
    var f, dest := r.path, Destination(c, r.virusFound, r.path);
    var after := AfterMove(now, f, dest, faults);
    if f in now {
      if f == p {
        MoveKeeps(now, f, dest, faults);
        if p !in after {
          assert SentTo(c, r, p, content, after);
        }
      } else {
        OthersStay(now, f, dest, faults);
        if p !in now {
          var q :| q in scans && SentTo(c, q, p, content, now);
          assert Destination(c, q.virusFound, p) != dest && Destination(c, q.virusFound, p) != f;
          assert SentTo(c, q, p, content, after);
        }
      }
    }
  }

  lemma OthersStay(d: Disk, src: Path, dest: Path, faults: Faults)
    ensures forall p | p != src && p != dest :: p in d <==> p in AfterMove(d, src, dest, faults)
    ensures forall p | p != src && p != dest && p in d :: AfterMove(d, src, dest, faults)[p] == d[p]
  {
  }

  lemma UploadSafe(c: Config, files: set<Path>, p: Path, content: seq<byte>, now: Disk, scans: seq<ScanResult>,
                   step: Step)
    requires step.Upload? && Safe(c, files, p, content, now, scans) && LeavesAlone(c, files, p, step)
    requires AllPossible(c, scans)
    ensures Safe(c, files, p, content, now[step.path := step.content], scans)
  {
    hide Destination;
    if p !in now {
      var q :| q in scans && SentTo(c, q, p, content, now);
      assert Destination(c, q.virusFound, p) != step.path;
      assert SentTo(c, q, p, content, now[step.path := step.content]);
    }
  }

  lemma ScanSafe(c: Config, files: set<Path>, p: Path, content: seq<byte>, now: Disk, scans: seq<ScanResult>,
                 r: ScanResult)
    requires Safe(c, files, p, content, now, scans)
    ensures Safe(c, files, p, content, now, scans + [r])
  {
    hide Destination, SentTo;
  }

  lemma LastScanned(s: State)
    requires Inv(s) && s.overlord.Handling?
    ensures s.overlord.r in s.scans && s.overlord.r.path in s.handed
  {
    var r := s.overlord.r;
    assert Paths(s.scans)[|s.scans| - 1] == r.path;
    assert r.path in Paths(s.scans);
  }

  lemma ScansPossible(c: Config, s: State, step: Step)
    requires Enabled(s, step) && AllPossible(c, s.scans)
    ensures AllPossible(c, Next(c, s, step).scans)
  {
    hide ReadyOnes, Route, AfterMove;
  }

  lemma StepSafe(c: Config, files: set<Path>, p: Path, content: seq<byte>, s: State, step: Step)
    requires Clear(c, files, p) && LeavesAlone(c, files, p, step) && Safe(c, files, p, content, s.disk, s.scans)
    requires Inv(s) && Enabled(s, step) && AllPossible(c, s.scans) && forall f | f in s.handed :: f in files
    ensures Safe(c, files, p, content, Next(c, s, step).disk, Next(c, s, step).scans)
    ensures AllPossible(c, Next(c, s, step).scans)
  {
    ScansPossible(c, s, step);
    hide AllPossible, Safe, Clear, LeavesAlone, Destination, AfterMove, ReadyOnes, Inv, ScanFile;
    match step {
      case Scan(k, clamd) =>
        ScanSafe(c, files, p, content, s.disk, s.scans, ScanFile(s.scanners[k].path, c.enableVirusScan, clamd));
      case Handle(faults) =>
        LastScanned(s);
        if !s.overlord.r.error {
          MoveSafe(c, files, p, content, s.disk, s.scans, s.overlord.r, faults);
        }
      case Upload(_, _) => UploadSafe(c, files, p, content, s.disk, s.scans, step);
      case _ =>
    }
  }

  lemma {:induction false} RunSafe(c: Config, files: set<Path>, p: Path, content: seq<byte>, s: State, steps: seq<Step>,
                                   s': State)
    requires Clear(c, files, p) && (forall x | x in steps :: LeavesAlone(c, files, p, x))
    requires Safe(c, files, p, content, s.disk, s.scans) && Inv(s) && AllPossible(c, s.scans) && IsRun(c, s, steps, s')
    requires forall f | f in s'.handed :: f in files
    ensures Safe(c, files, p, content, s'.disk, s'.scans)
    decreases |steps|
  {
    hide Clear, LeavesAlone, Safe, Inv, Enabled, Next, AllPossible;
    if steps != [] {
      var t := Next(c, s, steps[0]);
      FirstIn(steps);
      StepKeepsInv(c, s, steps[0]);
      HandedGrows(c, s, steps[0]);
      HandedRuns(c, t, steps[1..], s');
      StepSafe(c, files, p, content, s, steps[0]);
      RunSafe(c, files, p, content, t, steps[1..], s');
    }
  }

  lemma HandedGrows(c: Config, s: State, step: Step)
    requires Enabled(s, step)
    ensures s.handed <= Next(c, s, step).handed
  {
    hide ReadyOnes, Route, AfterMove, ScanFile;
  }

  lemma {:induction false} HandedRuns(c: Config, s: State, steps: seq<Step>, s': State)
    requires IsRun(c, s, steps, s')
    ensures s.handed <= s'.handed
    decreases |steps|
  {
    hide Enabled, Next;
    if steps != [] {
      HandedGrows(c, s, steps[0]);
      HandedRuns(c, Next(c, s, steps[0]), steps[1..], s');
    }
  }

  ghost function Handed(s: State): set<Path> {
    set f | f in s.handed
  }

  /** The content once at path p is whole at p, or at the destination that some scan of p chose. */
  ghost predicate StillThere(c: Config, p: Path, content: seq<byte>, s: State) {
    || (p in s.disk && s.disk[p] == content)
    || (exists r :: r in s.scans && SentTo(c, r, p, content, s.disk))
  }

  lemma {:induction false} RunPossible(c: Config, s: State, steps: seq<Step>, s': State)
    requires IsRun(c, s, steps, s') && AllPossible(c, s.scans)
    ensures AllPossible(c, s'.scans)
    decreases |steps|
  {
    hide Enabled, Next, AllPossible;
    if steps != [] {
      ScansPossible(c, s, steps[0]);
      RunPossible(c, Next(c, s, steps[0]), steps[1..], s');
    }
  }

  lemma KeptFrom(c: Config, p: Path, content: seq<byte>, s: State, steps: seq<Step>, s': State)
    requires Inv(s) && AllPossible(c, s.scans) && p in s.disk && s.disk[p] == content && IsRun(c, s, steps, s')
    requires Clear(c, Handed(s'), p) && forall x | x in steps :: LeavesAlone(c, Handed(s'), p, x)
    ensures StillThere(c, p, content, s')
  {
    hide IsRun, Clear, LeavesAlone, SentTo, Inv;
    RunSafe(c, Handed(s'), p, content, s, steps, s');
  }

  /**
    Over a whole run, whatever the scanner says and whichever file-system calls fail: the content of every file
    that was there at the start is still whole, at its own path or at the destination that some scan of it chose.
   */
  lemma NothingLost(c: Config, disk: Disk, steps: seq<Step>, s: State, p: Path)
    requires IsRun(c, Start(disk), steps, s) && p in disk
    requires Clear(c, Handed(s), p) && forall x | x in steps :: LeavesAlone(c, Handed(s), p, x)
    ensures StillThere(c, p, disk[p], s)
  {
    hide IsRun, Clear, LeavesAlone, StillThere;
    KeptFrom(c, p, disk[p], Start(disk), steps, s);
  }

  lemma {:induction false} RunSplit(c: Config, s: State, steps: seq<Step>, s': State, i: nat) returns (t: State)
    requires IsRun(c, s, steps, s') && i <= |steps|
    ensures IsRun(c, s, steps[..i], t) && IsRun(c, t, steps[i..], s')
    decreases |steps|
  {
    hide Enabled, Next;
    if i == 0 {
      t := s;
      assert steps[0..] == steps;
    } else {
      t := RunSplit(c, Next(c, s, steps[0]), steps[1..], s', i - 1);
      assert steps[1..][..i - 1] == steps[..i][1..] && steps[1..][i - 1..] == steps[i..];
    }
  }

  /** The same for what is uploaded: the content of every upload whose name is not used again is never lost. */
  lemma UploadKept(c: Config, disk: Disk, steps: seq<Step>, s: State, i: nat)
    requires IsRun(c, Start(disk), steps, s) && i < |steps| && steps[i].Upload?
    requires Clear(c, Handed(s), steps[i].path)
    requires forall x | x in steps[i + 1..] :: LeavesAlone(c, Handed(s), steps[i].path, x)
    ensures StillThere(c, steps[i].path, steps[i].content, s)
  {
    hide Clear, LeavesAlone, StillThere;
    var t := RunSplit(c, Start(disk), steps, s, i);
    Reached(c, disk, steps[..i], t);
    RunPossible(c, Start(disk), steps[..i], t);
    assert steps[i..][0] == steps[i] && steps[i..][1..] == steps[i + 1..];
    StepKeepsInv(c, t, steps[i]);
    hide IsRun, Inv;
    KeptFrom(c, steps[i].path, steps[i].content, Next(c, t, steps[i]), steps[i + 1..], s);
  }

  // ---- when destinations are separate -------------------------------------------------------------------

  predicate Occurs(t: string, s: string)
    decreases |s|
  {
    t <= s || (s != "" && Occurs(t, s[1..]))
  }

  /** Neither directory path begins with the other. */
  predicate Apart(a: Path, b: Path) {
    !(a <= b) && !(b <= a)
  }

  lemma {:induction false} ReplaceNone(s: string, old': string, new': string)
    requires old' != "" && !Occurs(old', s)
    ensures Replace(s, old', new') == s
    decreases |s|
  {
    if s != "" {
      ReplaceNone(s[1..], old', new');
      assert s == [s[0]] + s[1..];
    }
  }

  /** Where it does occur, replacing it changes the text. */
  lemma {:induction false} ReplaceSome(s: string, old': string, new': string)
    requires old' != "" && Apart(old', new') && Occurs(old', s)
    ensures Replace(s, old', new') != s
    decreases |s|
  {
    if old' <= s {
      BelowBoth(old', new', Replace(s[|old'|..], old', new'));
    } else {
      ReplaceSome(s[1..], old', new');
      assert s == [s[0]] + s[1..];
      assert ([s[0]] + Replace(s[1..], old', new'))[1..] == Replace(s[1..], old', new');
    }
  }

  function Target(c: Config, v: bool): Path {
    if v then c.quarantine else c.clean
  }

  /** The leading directory is replaced, and so is every further occurrence of its path. */
  lemma DestinationBelow(c: Config, v: bool, p: Path)
    requires c.staging != "" && c.staging <= p
    ensures Destination(c, v, p) == Target(c, v) + Replace(p[|c.staging|..], c.staging, Target(c, v))
  {
  }

  /** The folder structure below the staging directory is kept exactly when the staging path does not occur in it. */
  lemma DestinationOf(c: Config, v: bool, p: Path)
    requires Directories(c) && c.staging <= p
    ensures Destination(c, v, p) == Target(c, v) + p[|c.staging|..] <==> !Occurs(c.staging, p[|c.staging|..])
  {
    var rest := p[|c.staging|..];
    DestinationBelow(c, v, p);
    hide Destination;
    if Occurs(c.staging, rest) {
      ReplaceSome(rest, c.staging, Target(c, v));
      if Destination(c, v, p) == Target(c, v) + rest {
        CommonPath(Target(c, v), Target(c, v), Replace(rest, c.staging, Target(c, v)), rest);
      }
    } else {
      ReplaceNone(rest, c.staging, Target(c, v));
    }
  }

  lemma CommonPath(a: Path, b: Path, x: string, y: string)
    requires a + x == b + y
    ensures a <= b || b <= a
    ensures a == b ==> x == y
  {
    assert a == (a + x)[..|a|] && b == (b + y)[..|b|];
    assert x == (a + x)[|a|..] && y == (b + y)[|b|..];
  }

  lemma BelowBoth(a: Path, b: Path, x: string)
    ensures a <= b + x ==> a <= b || b <= a
  {
  }

  /** Three directories, none of which lies in or beside another under a common name. */
  predicate Directories(c: Config) {
    && c.staging != ""
    && Apart(c.staging, c.clean) && Apart(c.staging, c.quarantine) && Apart(c.clean, c.quarantine)
  }

  lemma DestinationsOutside(c: Config, v: bool, f: Path)
    requires Directories(c) && c.staging <= f
    ensures !(c.staging <= Destination(c, v, f))
  {
    DestinationBelow(c, v, f);
    hide Destination;
    BelowBoth(c.staging, Target(c, v), Replace(f[|c.staging|..], c.staging, Target(c, v)));
  }

  /** A clean file and a quarantined one never meet. */
  lemma TargetsApart(c: Config, f: Path, g: Path)
    requires Directories(c) && c.staging <= f && c.staging <= g
    ensures Destination(c, false, f) != Destination(c, true, g)
  {
    DestinationBelow(c, false, f);
    DestinationBelow(c, true, g);
    hide Destination;
    if Destination(c, false, f) == Destination(c, true, g) {
      CommonPath(c.clean, c.quarantine, Replace(f[|c.staging|..], c.staging, c.clean),
                 Replace(g[|c.staging|..], c.staging, c.quarantine));
    }
  }

  /** Two files that a scan of each can send to the same place. */
  ghost predicate SharesDestination(c: Config, f: Path, g: Path) {
    exists v :: Possible(c, v) && Destination(c, v, f) == Destination(c, v, g)
  }

  ghost predicate Alone(c: Config, files: set<Path>, p: Path) {
    p in files ==> forall f | f in files && f != p :: !SharesDestination(c, f, p)
  }

  /** Every file lies below the staging directory. */
  ghost predicate AllStaged(c: Config, files: set<Path>) {
    forall f | f in files :: c.staging <= f
  }

  /**
    With such directories, and all files below the staging directory, the way is clear for a file in staging exactly
    when no other file shares a destination with it.
   */
  lemma DirectoriesClear(c: Config, files: set<Path>, p: Path)
    requires Directories(c) && AllStaged(c, files) && c.staging <= p
    ensures Clear(c, files, p) <==> Alone(c, files, p)
    ensures forall step: Step | step.Upload? && c.staging <= step.path && step.path != p ::
              LeavesAlone(c, files, p, step)
  {
    hide Directories, Destination;
    forall v, f | f in files ensures !(c.staging <= Destination(c, v, f)) {
      DestinationsOutside(c, v, f);
    }
    forall v, w, f, g | f in files && g in files && v != w ensures Destination(c, v, f) != Destination(c, w, g) {
      TargetsApart(c, if v then g else f, if v then f else g);
    }
    forall v, f | Possible(c, v) && Destination(c, v, f) == Destination(c, v, p) ensures SharesDestination(c, f, p) {
    }
  }

  /** Uploads go to the staging directory. */
  ghost predicate UploadsStaged(c: Config, steps: seq<Step>) {
    forall x | x in steps && x.Upload? :: c.staging <= x.path
  }

  /** A run that uploads below staging, hands over only these files, and uploads p in step i for the last time. */
  ghost predicate UploadRun(c: Config, files: set<Path>, p: Path, disk: Disk, steps: seq<Step>, s: State, i: nat) {
    && IsRun(c, Start(disk), steps, s) && UploadsStaged(c, steps) && Handed(s) <= files
    && i < |steps| && steps[i].Upload? && steps[i].path == p
    && forall x | x in steps[i + 1..] && x.Upload? :: x.path != p
  }

  /**
    An upload under a name not used again is never lost when no other file handed over shares a destination with it.
   */
  lemma StagedUploadKept(c: Config, files: set<Path>, p: Path, disk: Disk, steps: seq<Step>, s: State, i: nat)
    requires UploadRun(c, files, p, disk, steps, s, i)
    requires Directories(c) && AllStaged(c, files) && Alone(c, files, p)
    ensures StillThere(c, p, steps[i].content, s)
  {
    hide IsRun, StillThere, Directories, Clear, SharesDestination;
    assert steps[i] in steps;
    DirectoriesClear(c, Handed(s), p);
    forall x | x in steps[i + 1..] ensures LeavesAlone(c, Handed(s), p, x) {
      assert x in steps;
    }
    UploadKept(c, disk, steps, s, i);
  }

  // ---- when they are not ------------------------------------------------------------------------------

  lemma {:induction false} RunThen(c: Config, s: State, a: seq<Step>, t: State, b: seq<Step>, u: State)
    requires IsRun(c, s, a, t) && IsRun(c, t, b, u)
    ensures IsRun(c, s, a + b, u)
    decreases |a|
  {
    hide Enabled, Next;
    if a == [] {
      assert a + b == b;
    } else {
      RunThen(c, Next(c, s, a[0]), a[1..], t, b, u);
      assert (a + b)[1..] == a[1..] + b;
    }
  }

  /** Between two batches. */
  predicate Resting(s: State) {
    s.scavenger == Walking && s.notifiers == [] && s.scanners == [] && s.overlord == Selecting
  }

  /** The scanner's answer that sends a file where v says. */
  function AnswerFor(v: bool): Clamd {
    Reply(if v then "FOUND" else "OK")
  }

  lemma AnswerRoutes(c: Config, v: bool, f: Path)
    requires Possible(c, v)
    ensures
      var r := ScanFile(f, c.enableVirusScan, AnswerFor(v));
      r.path == f && r.virusFound == v && Route(c, r) == Some(Destination(c, v, f))
  {
    hide Destination;
  }

  /** A batch of the one file f under way, begun in state s. */
  function Under(s: State, f: Path, n: Notifier, scanners: seq<Scanner>, overlord: Overlord): State {
    s.(scavenger := WaitingForBatch, notifiers := [n], scanners := scanners, overlord := overlord,
       handed := s.handed + [f])
  }

  lemma BatchBegins(c: Config, s: State, f: Path)
    requires Resting(s)
    ensures IsRun(c, s, [Scavenge([f], map[]), Offer(0)], Under(s, f, Awaiting(f, []), [Scanning(f)], Selecting))
  {
    AllReady(map[], [f]);
    assert [f][1..] == [];
    var s1 := Under(s, f, Offering([f]), [], Selecting);
    assert Next(c, s, Scavenge([f], map[])) == s1;
    NextOnly(c, s1, Offer(0), Under(s, f, Awaiting(f, []), [Scanning(f)], Selecting));
    assert [Scavenge([f], map[]), Offer(0)][1..] == [Offer(0)];
  }

  lemma NextOnly(c: Config, s: State, step: Step, t: State)
    requires Enabled(s, step) && Next(c, s, step) == t
    ensures IsRun(c, s, [step], t)
  {
    assert [step][1..] == [];
  }

  /** The scan with result r has been made of what was there. */
  function Looked(s: State, r: ScanResult): State {
    s.(scans := s.scans + [r], looked := s.looked + [ContentAt(s.disk, r.path)])
  }

  lemma BatchScans(c: Config, s: State, f: Path, clamd: Clamd)
    ensures
      var r := ScanFile(f, c.enableVirusScan, clamd);
      IsRun(c, Under(s, f, Awaiting(f, []), [Scanning(f)], Selecting), [Scan(0, clamd), Report(0)],
            Looked(Under(s, f, Awaiting(f, []), [], Handling(r)), r))
  {
    var r := ScanFile(f, c.enableVirusScan, clamd);
    assert r.path == f;
    hide ScanFile;
    var s2 := Under(s, f, Awaiting(f, []), [Scanning(f)], Selecting);
    var s3 := Looked(Under(s, f, Awaiting(f, []), [Reporting(r)], Selecting), r);
    assert Next(c, s2, Scan(0, clamd)) == s3;
    OnlyOne([Reporting(r)], Reporting(r));
    NextOnly(c, s3, Report(0), Looked(Under(s, f, Awaiting(f, []), [], Handling(r)), r));
    assert [Scan(0, clamd), Report(0)][1..] == [Report(0)];
  }

  lemma BatchMoves(c: Config, s: State, f: Path, r: ScanResult, dest: Path)
    requires r.path == f && Route(c, r) == Some(dest)
    ensures
      var disk := AfterMove(s.disk, f, dest, NO_FAULTS);
      IsRun(c, Under(s, f, Awaiting(f, []), [], Handling(r)), [Handle(NO_FAULTS), ScanDone(0)],
            Under(s, f, Offering([]), [], Selecting).(disk := disk))
  {
    hide Route, AfterMove;
    var disk := AfterMove(s.disk, f, dest, NO_FAULTS);
    var s4 := Under(s, f, Awaiting(f, []), [], Handling(r));
    var s5 := Under(s, f, Awaiting(f, []), [], Announcing(f)).(disk := disk);
    assert Next(c, s4, Handle(NO_FAULTS)) == s5;
    NextOnly(c, s5, ScanDone(0), Under(s, f, Offering([]), [], Selecting).(disk := disk));
    assert [Handle(NO_FAULTS), ScanDone(0)][1..] == [ScanDone(0)];
  }

  lemma BatchReports(c: Config, s: State, f: Path)
    requires Resting(s)
    ensures IsRun(c, Under(s, f, Offering([]), [], Selecting), [BatchDone(0)], s.(handed := s.handed + [f]))
  {
    OnlyOne([Offering([])], Offering([]));
    NextOnly(c, Under(s, f, Offering([]), [], Selecting), BatchDone(0), s.(handed := s.handed + [f]));
  }

  /** A batch of one file in which nothing fails. */
  lemma BatchOfOne(c: Config, s: State, f: Path, v: bool) returns (steps: seq<Step>, s': State)
    requires Resting(s) && Possible(c, v) && f in s.disk && Destination(c, v, f) != f
    ensures IsRun(c, s, steps, s') && forall x | x in steps :: !x.Upload?
    ensures
      s' == s.(disk := s.disk[Destination(c, v, f) := s.disk[f]] - {f}, handed := s.handed + [f],
               scans := s.scans + [ScanFile(f, c.enableVirusScan,
                                            AnswerFor(v))], looked := s.looked + [Some(s.disk[f])])
  {
    hide IsRun, Destination, ScanFile, Route;
    AnswerRoutes(c, v, f);
    var dest, clamd := Destination(c, v, f), AnswerFor(v);
    var r := ScanFile(f, c.enableVirusScan, clamd);
    var t := Looked(s, r);
    var u := t.(disk := AfterMove(s.disk, f, dest, NO_FAULTS));
    assert u.disk == s.disk[dest := s.disk[f]] - {f};
    hide AfterMove;
    var s2, s4, s6 := Under(s, f, Awaiting(f, []), [Scanning(f)], Selecting),
                      Under(t, f, Awaiting(f, []), [], Handling(r)),
                      Under(u, f, Offering([]), [], Selecting);
    steps, s' := [Scavenge([f], map[]), Offer(0)], u.(handed := s.handed + [f]);
    BatchBegins(c, s, f);
    BatchScans(c, s, f, clamd);
    RunThen(c, s, steps, s2, [Scan(0, clamd), Report(0)], s4);
    steps := steps + [Scan(0, clamd), Report(0)];
    BatchMoves(c, t, f, r, dest);
    RunThen(c, s, steps, s4, [Handle(NO_FAULTS), ScanDone(0)], s6);
    steps := steps + [Handle(NO_FAULTS), ScanDone(0)];
    BatchReports(c, u, f);
    RunThen(c, s, steps, s6, [BatchDone(0)], s');
    steps := steps + [BatchDone(0)];
  }

  /** An upload, and then a batch of the uploaded file alone. */
  lemma UploadAndMove(c: Config, s: State, f: Path, content: seq<byte>, v: bool) returns (steps: seq<Step>, s': State)
    requires Resting(s) && Possible(c, v) && Destination(c, v, f) != f
    ensures IsRun(c, s, steps, s') && |steps| > 0 && steps[0] == Upload(f, content)
    ensures forall x | x in steps && x.Upload? :: x.path == f
    ensures forall x | x in steps[1..] :: !x.Upload?
    ensures
      s' == s.(disk := s.disk[f := content][Destination(c, v, f) := content] - {f}, handed := s.handed + [f],
               scans := s.scans + [ScanFile(f, c.enableVirusScan, AnswerFor(v))], looked := s.looked + [Some(content)])
  {
    hide IsRun, Destination, ScanFile;
    var t := s.(disk := s.disk[f := content]);
    NextOnly(c, s, Upload(f, content), t);
    var rest;
    rest, s' := BatchOfOne(c, t, f, v);
    RunThen(c, s, [Upload(f, content)], t, rest, s');
    steps := [Upload(f, content)] + rest;
    assert steps[1..] == rest;
  }

  /**
    Two files that share a destination, each uploaded under a name of its own and moved in a batch of its own, with
    nothing failing: the content of the first is gone.
   */
  lemma SharedDestinationLoses(c: Config, p: Path, f: Path)
    returns (steps: seq<Step>, s: State)
    requires Directories(c) && c.staging <= p && c.staging <= f && f != p && SharesDestination(c, f, p)
    ensures UploadRun(c, {f, p}, p, map[], steps, s, 0) && !StillThere(c, p, steps[0].content, s)
  {
    hide IsRun, Destination, Directories;
    var v :| Possible(c, v) && Destination(c, v, f) == Destination(c, v, p);
    var dest := Destination(c, v, p);
    DestinationsOutside(c, v, p);
    DestinationsOutside(c, v, f);
    var more, t;
    steps, t := UploadAndMove(c, Start(map[]), p, [0], v);
    more, s := UploadAndMove(c, t, f, [1], v);
    RunThen(c, Start(map[]), steps, t, more, s);
    var first := steps;
    steps := steps + more;
    assert steps[1..] == first[1..] + more;
    LosesIt(c, p, f, v, s);
  }

  lemma LosesIt(c: Config, p: Path, f: Path, v: bool, s: State)
    requires Possible(c, v) && p != f && Destination(c, v, p) in s.disk && s.disk[Destination(c, v, p)] == [1]
    requires p !in s.disk
    requires s.scans == [ScanFile(p, c.enableVirusScan, AnswerFor(v)), ScanFile(f, c.enableVirusScan, AnswerFor(v))]
    ensures !StillThere(c, p, [0], s)
  {
    hide Destination;
    AnswerRoutes(c, v, p);
    AnswerRoutes(c, v, f);
    hide ScanFile;
    assert forall r | r in s.scans && r.path == p :: r.virusFound == v;
  }

  /** Whatever may happen, an upload of p under a name not used again is kept in runs over these files. */
  ghost predicate AlwaysKept(c: Config, files: set<Path>, p: Path) {
    forall disk: Disk, steps: seq<Step>, s: State, i: nat | UploadRun(c, files, p, disk, steps, s, i) ::
      StillThere(c, p, steps[i].content, s)
  }

  /**
    When an upload to staging under a name not used again can be lost: exactly when some other file of the run shares
    a destination with it. Different names are not enough, because every occurrence of the staging path is replaced.
   */
  lemma UploadKeptExactly(c: Config, files: set<Path>, p: Path)
    requires Directories(c) && AllStaged(c, files) && c.staging <= p
    ensures AlwaysKept(c, files, p) <==> Alone(c, files, p)
  {
    hide Directories, SharesDestination, StillThere, UploadRun;
    if Alone(c, files, p) {
      forall disk: Disk, steps: seq<Step>, s: State, i: nat | UploadRun(c, files, p, disk, steps, s, i)
        ensures i < |steps| && steps[i].Upload? && StillThere(c, p, steps[i].content, s)
      {
        MoreFiles(c, files, files, p, disk, steps, s, i);
        StagedUploadKept(c, files, p, disk, steps, s, i);
      }
    } else {
      var f :| f in files && f != p && SharesDestination(c, f, p);
      var steps, s := SharedDestinationLoses(c, p, f);
      MoreFiles(c, {f, p}, files, p, map[], steps, s, 0);
    }
  }

  lemma MoreFiles(c: Config, some: set<Path>, files: set<Path>, p: Path, disk: Disk, steps: seq<Step>, s: State, i: nat)
    requires UploadRun(c, some, p, disk, steps, s, i) && some <= files
    ensures UploadRun(c, files, p, disk, steps, s, i) && i < |steps| && steps[i].Upload?
  {
  }

  /**
    Such files exist under every configuration whose clean path does not contain the staging path: a copy of the staging
    path below staging, and a copy of the clean path beside it, with the same file name y in both.
   */
  lemma NamesThatMeet(c: Config, y: string)
    requires Directories(c) && !Occurs(c.staging, y) && !Occurs(c.staging, c.clean + y)
    ensures
      var p, f := c.staging + (c.staging + y), c.staging + (c.clean + y);
      p != f && SharesDestination(c, f, p) && Destination(c, false, p) == c.clean + (c.clean + y)
  {
    var p, f := c.staging + (c.staging + y), c.staging + (c.clean + y);
    assert p[|c.staging|..] == c.staging + y && f[|c.staging|..] == c.clean + y;
    DestinationBelow(c, false, p);
    DestinationBelow(c, false, f);
    assert (c.staging + y)[|c.staging|..] == y;
    ReplaceNone(y, c.staging, c.clean);
    ReplaceNone(c.clean + y, c.staging, c.clean);
    assert Replace(c.staging + y, c.staging, c.clean) == c.clean + y;
    hide Destination, Occurs, Replace;
    assert Possible(c, false);
    if p == f {
      CommonPath(c.staging, c.clean, y, y);
    }
  }

  lemma Differ(a: string, b: string, i: nat)
    requires i < |a| && i < |b| && a[i] != b[i]
    ensures Apart(a, b)
  {
  }

  /** The losing run with directories as they may be configured. */
  lemma LosingRun() returns (c: Config, p: Path, f: Path, steps: seq<Step>, s: State)
    ensures Directories(c) && c.staging <= p && c.staging <= f && p != f
    ensures UploadRun(c, {f, p}, p, map[], steps, s, 0) && !StillThere(c, p, steps[0].content, s)
  {
    c := Config("/s", "/c", "/q", true);
    Differ("/s", "/c", 1);
    Differ("/s", "/q", 1);
    Differ("/c", "/q", 1);
    var y := "/y";
    p, f := c.staging + (c.staging + y), c.staging + (c.clean + y);
    assert y[1..] == "y" && "y"[1..] == "";
    assert !Occurs("/s", y) by {
      Differ("/s", y, 1);
    }
    assert c.clean + y == "/c/y" && "/c/y"[1..] == "c/y" && "c/y"[1..] == y;
    assert !Occurs("/s", "/c/y") by {
      Differ("/s", "/c/y", 1);
      Differ("/s", "c/y", 0);
    }
    hide Occurs, Directories, UploadRun, StillThere, SharesDestination, Destination;
    NamesThatMeet(c, y);
    steps, s := SharedDestinationLoses(c, p, f);
  }

  // ---- only what was scanned moves on ---------------------------------------------------------------------

  /** What the scanner says of a content. */
  type Verdict = seq<byte> -> Clamd

  /** The result of a scan of path is on its way: reported but not yet acted upon. */
  predicate OnItsWay(s: State, path: Path) {
    || (s.overlord.Handling? && s.overlord.r.path == path)
    || (exists k | 0 <= k < |s.scanners| :: s.scanners[k].Reporting? && s.scanners[k].r.path == path)
  }

  /**
    The scanner judges what is there, uploads go to staging, and no file is uploaded again between its scan and its
    move.
   */
  ghost predicate Careful(c: Config, verdict: Verdict, s: State, step: Step)
    requires Enabled(s, step)
  {
    match step
    case Scan(k, clamd) => s.scanners[k].path in s.disk ==> clamd == verdict(s.disk[s.scanners[k].path])
    case Upload(path, _) => c.staging <= path && !OnItsWay(s, path)
    case _ => true
  }

  ghost predicate CarefulRun(c: Config, verdict: Verdict, s: State, steps: seq<Step>, s': State)
    decreases |steps|
  {
    if steps == [] then s == s'
    else
      && Enabled(s, steps[0]) && Careful(c, verdict, s, steps[0])
      && CarefulRun(c, verdict, Next(c, s, steps[0]), steps[1..], s')
  }

  /** Scan number i of the run was made of content x, says what the scanner says of x, and sends it to d. */
  ghost predicate Vouches(c: Config, verdict: Verdict, s: State, i: nat, x: seq<byte>, d: Path) {
    && i < |s.scans| == |s.looked| && s.looked[i] == Some(x)
    && s.scans[i] == ScanFile(s.scans[i].path, c.enableVirusScan, verdict(x)) && Route(c, s.scans[i]) == Some(d)
    && c.staging <= s.scans[i].path
  }

  /**
    The content is one that a scan of this run was made of and sent to d, or, unless all copies are whole, its
    beginning.
   */
  ghost predicate VettedAt(c: Config, verdict: Verdict, s: State, d: Path, content: seq<byte>, whole: bool) {
    exists i: nat, x :: Vouches(c, verdict, s, i, x, d) && content <= x && (whole ==> content == x)
  }

  ghost predicate Vetted(c: Config, verdict: Verdict, disk: Disk, s: State, whole: bool) {
    forall d | d in s.disk && !(c.staging <= d) ::
      (d in disk && s.disk[d] == disk[d]) || VettedAt(c, verdict, s, d, s.disk[d], whole)
  }

  /** No copy of this step is cut short. */
  predicate CopiesWhole(step: Step) {
    step.Handle? ==> !step.faults.open && step.faults.copied.None?
  }

  /** A result on its way is that of the last scan, and that scan was made of what the file still holds. */
  ghost predicate Current(c: Config, verdict: Verdict, s: State, r: ScanResult) {
    && |s.scans| == |s.looked| > 0 && r == s.scans[|s.scans| - 1]
    && s.looked[|s.scans| - 1] == ContentAt(s.disk, r.path)
    && (r.path in s.disk ==> r == ScanFile(r.path, c.enableVirusScan, verdict(s.disk[r.path])))
  }

  ghost predicate AllCurrent(c: Config, verdict: Verdict, s: State) {
    && |s.scans| == |s.looked|
    && (s.overlord.Handling? ==> Current(c, verdict, s, s.overlord.r))
    && (forall k | 0 <= k < |s.scanners| && s.scanners[k].Reporting? :: Current(c, verdict, s, s.scanners[k].r))
  }

  /** What a move leaves at the destination: what was there, or a beginning of the source's content. */
  lemma MovedContent(d: Disk, src: Path, dest: Path, faults: Faults)
    requires src in d && src != dest
    ensures
      var after := AfterMove(d, src, dest, faults);
      dest in after ==>
        || (dest in d && after[dest] == d[dest])
        || (after[dest] <= d[src] && (CopiesWhole(Handle(faults)) ==> after[dest] == d[src]))
  {
  }

  /** What was vouched for stays so as the run goes on. */
  lemma VouchesOn(c: Config, verdict: Verdict, s: State, s': State, d: Path, content: seq<byte>, whole: bool)
    requires VettedAt(c, verdict, s, d, content, whole)
    requires |s'.scans| == |s'.looked| && s.scans <= s'.scans && s.looked <= s'.looked
    ensures VettedAt(c, verdict, s', d, content, whole)
  {
    var i: nat, x :| Vouches(c, verdict, s, i, x, d) && content <= x && (whole ==> content == x);
    assert Vouches(c, verdict, s, i, x, d);
    assert s'.scans[i] == s.scans[i] && s'.looked[i] == s.looked[i];
    hide ScanFile, Route;
    assert Vouches(c, verdict, s', i, x, d);
  }

  lemma MoveVetted(c: Config, verdict: Verdict, disk: Disk, s: State, dest: Path, faults: Faults, whole: bool)
    requires Directories(c) && Vetted(c, verdict, disk, s, whole)
    requires s.overlord.Handling? && Current(c, verdict, s, s.overlord.r) && c.staging <= s.overlord.r.path
    requires Route(c, s.overlord.r) == Some(dest) && (whole ==> CopiesWhole(Handle(faults)))
    ensures Vetted(c, verdict, disk, Next(c, s, Handle(faults)), whole)
  {
    var r, last := s.overlord.r, |s.scans| - 1;
    DestinationsOutside(c, r.virusFound, r.path);
    var s' := Next(c, s, Handle(faults));
    OthersStay(s.disk, r.path, dest, faults);
    if r.path in s.disk {
      assert Vouches(c, verdict, s', last, s.disk[r.path], dest);
      MovedContent(s.disk, r.path, dest, faults);
    }
    assert s'.disk == AfterMove(s.disk, r.path, dest, faults) && s'.scans == s.scans && s'.looked == s.looked;
    hide Destination, Directories, ScanFile, AfterMove, Route, Vouches, Next;
    forall d | d in s'.disk && !(c.staging <= d)
      ensures (d in disk && s'.disk[d] == disk[d]) || VettedAt(c, verdict, s', d, s'.disk[d], whole)
    {
      if d in s.disk && s'.disk[d] == s.disk[d] && VettedAt(c, verdict, s, d, s.disk[d], whole) {
        VouchesOn(c, verdict, s, s', d, s.disk[d], whole);
      }
    }
  }

  /** Steps that move nothing outside staging. */
  lemma OthersVetted(c: Config, verdict: Verdict, disk: Disk, s: State, step: Step, whole: bool)
    requires Enabled(s, step) && !step.Handle? && Careful(c, verdict, s, step) && |s.scans| == |s.looked|
    requires Vetted(c, verdict, disk, s, whole)
    ensures Vetted(c, verdict, disk, Next(c, s, step), whole)
  {
    hide ReadyOnes, VettedAt, ScanFile;
    var s' := Next(c, s, step);
    assert s.scans <= s'.scans && s.looked <= s'.looked && |s'.scans| == |s'.looked|;
    assert forall d | d in s'.disk && !(c.staging <= d) :: d in s.disk && s'.disk[d] == s.disk[d];
    hide Next;
    forall d | d in s'.disk && !(c.staging <= d)
      ensures (d in disk && s'.disk[d] == disk[d]) || VettedAt(c, verdict, s', d, s'.disk[d], whole)
    {
      if VettedAt(c, verdict, s, d, s.disk[d], whole) {
        VouchesOn(c, verdict, s, s', d, s.disk[d], whole);
      }
    }
  }

  lemma ScannedPath(c: Config, p: Path, clamd: Clamd)
    ensures ScanFile(p, c.enableVirusScan, clamd).path == p
  {
  }

  lemma CurrentKept(c: Config, verdict: Verdict, s: State, step: Step)
    requires Inv(s) && Enabled(s, step) && Careful(c, verdict, s, step) && AllCurrent(c, verdict, s)
    ensures AllCurrent(c, verdict, Next(c, s, step))
  {
    hide ReadyOnes, Destination, ScanFile, Paths, Route, AfterMove;
    if step.Scan? {
      ScannedPath(c, s.scanners[step.k].path, step.clamd);
    }
  }

  lemma StepVetted(c: Config, verdict: Verdict, disk: Disk, s: State, step: Step, whole: bool)
    requires Inv(s) && Enabled(s, step) && Careful(c, verdict, s, step) && (whole ==> CopiesWhole(step))
    requires Directories(c) && AllStaged(c, Handed(s))
    requires Vetted(c, verdict, disk, s, whole) && AllCurrent(c, verdict, s)
    ensures Vetted(c, verdict, disk, Next(c, s, step), whole) && AllCurrent(c, verdict, Next(c, s, step))
  {
    CurrentKept(c, verdict, s, step);
    if step.Handle? {
      LastScanned(s);
      var r := s.overlord.r;
      assert r.path in Handed(s);
      if r.error {
        hide VettedAt, ScanFile;
        var s' := Next(c, s, step);
        forall d | d in s.disk && VettedAt(c, verdict, s, d, s.disk[d], whole)
          ensures VettedAt(c, verdict, s', d, s.disk[d], whole)
        {
          VouchesOn(c, verdict, s, s', d, s.disk[d], whole);
        }
      } else {
        hide Directories, Destination, Vetted, Next, Inv;
        MoveVetted(c, verdict, disk, s, Destination(c, r.virusFound, r.path), step.faults, whole);
      }
    } else {
      hide Vetted, Next, Careful, Inv;
      OthersVetted(c, verdict, disk, s, step, whole);
    }
  }

  lemma StagedBefore(c: Config, s: State, s': State)
    requires s.handed <= s'.handed && AllStaged(c, Handed(s'))
    ensures AllStaged(c, Handed(s))
  {
    forall f | f in Handed(s) ensures c.staging <= f {
      assert f in Handed(s');
    }
  }

  lemma {:induction false} RunVetted(c: Config, verdict: Verdict, disk: Disk, s: State, steps: seq<Step>, s': State,
                                     whole: bool)
    requires Inv(s) && CarefulRun(c, verdict, s, steps, s') && Directories(c) && AllStaged(c, Handed(s'))
    requires Vetted(c, verdict, disk, s, whole) && AllCurrent(c, verdict, s)
    requires whole ==> forall x | x in steps :: CopiesWhole(x)
    ensures Vetted(c, verdict, disk, s', whole)
    decreases |steps|
  {
    hide Inv, Enabled, Next, Careful, Vetted, AllCurrent, Directories, CopiesWhole;
    if steps != [] {
      var t := Next(c, s, steps[0]);
      FirstIn(steps);
      CarefulIsRun(c, verdict, t, steps[1..], s');
      HandedGrows(c, s, steps[0]);
      HandedRuns(c, t, steps[1..], s');
      StepKeepsInv(c, s, steps[0]);
      StagedBefore(c, s, s');
      StepVetted(c, verdict, disk, s, steps[0], whole);
      RunVetted(c, verdict, disk, t, steps[1..], s', whole);
    }
  }

  lemma {:induction false} CarefulIsRun(c: Config, verdict: Verdict, s: State, steps: seq<Step>, s': State)
    requires CarefulRun(c, verdict, s, steps, s')
    ensures IsRun(c, s, steps, s')
    decreases |steps|
  {
    hide Enabled, Next, Careful;
    if steps != [] {
      CarefulIsRun(c, verdict, Next(c, s, steps[0]), steps[1..], s');
    }
  }

  ghost predicate NoVirus(verdict: Verdict, x: seq<byte>) {
    verdict(x).Reply? && verdict(x).status != "FOUND"
  }

  /**
    In every such run: outside staging there is only what was there before and what a scan of the run was made of and
    sent there, or, where a copy failed, the beginning of it. As long as no copy fails, whatever is new in the clean
    directory is itself content in which the scanner finds no virus.
   */
  lemma OnlyScannedMoves(c: Config, verdict: Verdict, disk: Disk, steps: seq<Step>, s: State, d: Path)
    requires CarefulRun(c, verdict, Start(disk), steps, s) && Directories(c) && AllStaged(c, Handed(s))
    requires d in s.disk && !(c.staging <= d) && !(d in disk && s.disk[d] == disk[d])
    ensures
      var whole := forall x | x in steps :: CopiesWhole(x);
      && VettedAt(c, verdict, s, d, s.disk[d], whole)
      && (whole && c.clean <= d && c.enableVirusScan ==> NoVirus(verdict, s.disk[d]))
  {
    hide CarefulRun, Directories, AllStaged, VettedAt, CopiesWhole, NoVirus;
    var whole := forall x | x in steps :: CopiesWhole(x);
    RunVetted(c, verdict, disk, Start(disk), steps, s, whole);
    if whole && c.clean <= d && c.enableVirusScan {
      CleanMeansClean(c, verdict, s, d, s.disk[d]);
    }
  }

  lemma CleanMeansClean(c: Config, verdict: Verdict, s: State, d: Path, content: seq<byte>)
    requires Directories(c) && c.clean <= d && c.enableVirusScan && VettedAt(c, verdict, s, d, content, true)
    ensures NoVirus(verdict, content)
  {
    var i: nat, x :| Vouches(c, verdict, s, i, x, d) && content <= x && content == x;
    assert Vouches(c, verdict, s, i, x, d);
    var p, r := s.scans[i].path, s.scans[i];
    RoutedExactly(c, p, verdict(x));
    assert d == Destination(c, r.virusFound, p);
    if r.virusFound {
      DestinationBelow(c, true, p);
      hide Destination, ScanFile;
      BelowBoth(c.clean, c.quarantine, Replace(p[|c.staging|..], c.staging, c.quarantine));
    }
  }

  lemma {:induction false} CarefulThen(c: Config, verdict: Verdict, s: State, a: seq<Step>, t: State, b: seq<Step>,
                                       u: State)
    requires CarefulRun(c, verdict, s, a, t) && CarefulRun(c, verdict, t, b, u)
    ensures CarefulRun(c, verdict, s, a + b, u)
    decreases |a|
  {
    hide Enabled, Next, Careful;
    if a == [] {
      assert a + b == b;
    } else {
      CarefulThen(c, verdict, Next(c, s, a[0]), a[1..], t, b, u);
      assert (a + b)[1..] == a[1..] + b;
    }
  }

  /** Only scans and uploads need care. */
  lemma {:induction false} CarefulAnyway(c: Config, verdict: Verdict, s: State, steps: seq<Step>, s': State)
    requires IsRun(c, s, steps, s') && forall x | x in steps :: !x.Scan? && !x.Upload?
    ensures CarefulRun(c, verdict, s, steps, s')
    decreases |steps|
  {
    hide Enabled, Next;
    if steps != [] {
      FirstIn(steps);
      CarefulAnyway(c, verdict, Next(c, s, steps[0]), steps[1..], s');
    }
  }

  lemma CarefulScan(c: Config, verdict: Verdict, s: State, f: Path, y: seq<byte>)
    requires f in s.disk && s.disk[f] == y
    ensures
      var r := ScanFile(f, c.enableVirusScan, verdict(y));
      CarefulRun(c, verdict, Under(s, f, Awaiting(f, []), [Scanning(f)], Selecting), [Scan(0, verdict(y)), Report(0)],
                 Looked(Under(s, f, Awaiting(f, []), [], Handling(r)), r))
  {
    hide ScanFile;
    BatchScans(c, s, f, verdict(y));
    var s2 := Under(s, f, Awaiting(f, []), [Scanning(f)], Selecting);
    assert [Scan(0, verdict(y)), Report(0)][1..] == [Report(0)];
    assert Careful(c, verdict, s2, Scan(0, verdict(y)));
    var s3 := Next(c, s2, Scan(0, verdict(y)));
    CarefulAnyway(c, verdict, s3, [Report(0)],
                  Looked(Under(s, f, Awaiting(f, []), [], Handling(ScanFile(f, c.enableVirusScan, verdict(y)))),
                         ScanFile(f, c.enableVirusScan, verdict(y))));
  }

  /** A run up to the move: p is uploaded with content y, handed over, and scanned. */
  lemma UpToTheMove(c: Config, verdict: Verdict, p: Path, y: seq<byte>) returns (steps: seq<Step>, s: State)
    requires c.staging <= p && c.enableVirusScan && NoVirus(verdict, y)
    ensures CarefulRun(c, verdict, Start(map[]), steps, s) && IsRun(c, Start(map[]), steps, s)
    ensures UploadsStaged(c, steps) && forall x | x in steps :: !x.Handle?
    ensures
      var r := ScanFile(p, true, verdict(y));
      && s == Looked(Under(Start(map[p := y]), p, Awaiting(p, []), [], Handling(r)), r)
      && r.path == p && Route(c, r) == Some(Destination(c, false, p))
  {
    var r := ScanFile(p, true, verdict(y));
    assert r.path == p && Route(c, r) == Some(Destination(c, false, p));
    var s0, s1 := Start(map[]), Start(map[p := y]);
    var s2 := Under(s1, p, Awaiting(p, []), [Scanning(p)], Selecting);
    assert map[][p := y] == map[p := y];
    assert Careful(c, verdict, s0, Upload(p, y)) && Next(c, s0, Upload(p, y)) == s1;
    assert CarefulRun(c, verdict, s0, [Upload(p, y)], s1) by {
      assert [Upload(p, y)][1..] == [];
    }
    hide IsRun, CarefulRun, Destination, ScanFile, Route;
    s := Looked(Under(s1, p, Awaiting(p, []), [], Handling(r)), r);
    BatchBegins(c, s1, p);
    CarefulAnyway(c, verdict, s1, [Scavenge([p], map[]), Offer(0)], s2);
    CarefulScan(c, verdict, s1, p, y);
    steps := [Upload(p, y)] + [Scavenge([p], map[]), Offer(0)];
    CarefulThen(c, verdict, s0, [Upload(p, y)], s1, [Scavenge([p], map[]), Offer(0)], s2);
    CarefulThen(c, verdict, s0, steps, s2, [Scan(0, verdict(y)), Report(0)], s);
    steps := steps + [Scan(0, verdict(y)), Report(0)];
    CarefulIsRun(c, verdict, s0, steps, s);
  }

  /** What OnlyScannedMoves says of path d with whole copies. */
  ghost predicate Sound(c: Config, verdict: Verdict, s: State, d: Path)
    requires d in s.disk
  {
    VettedAt(c, verdict, s, d, s.disk[d], true) && (c.clean <= d && c.enableVirusScan ==> NoVirus(verdict, s.disk[d]))
  }

  lemma OneScan(c: Config, verdict: Verdict, s: State, y: seq<byte>, d: Path)
    requires s.looked == [Some(y)] && d in s.disk && s.disk[d] != y
    ensures !VettedAt(c, verdict, s, d, s.disk[d], true)
  {
    hide ScanFile, Route;
  }

  /**
    The condition on uploads is needed: for any content x in which a virus is found, and any other content y of the
    same file, x takes the place of y between scan and move, no copy fails, and x lies in the clean directory.
   */
  lemma LateUploadMovesUnscanned(c: Config, verdict: Verdict, p: Path, y: seq<byte>, x: seq<byte>)
    returns (steps: seq<Step>, s: State)
    requires Directories(c) && c.staging <= p && c.enableVirusScan && NoVirus(verdict, y) && !NoVirus(verdict, x)
    ensures IsRun(c, Start(map[]), steps, s) && UploadsStaged(c, steps) && forall z | z in steps :: CopiesWhole(z)
    ensures
      var d := Destination(c, false, p);
      d in s.disk && s.disk[d] == x && c.clean <= d && !(c.staging <= d) && !Sound(c, verdict, s, d)
  {
    var d, r := Destination(c, false, p), ScanFile(p, true, verdict(y));
    DestinationsOutside(c, false, p);
    DestinationBelow(c, false, p);
    var s4;
    steps, s4 := UpToTheMove(c, verdict, p, y);
    hide IsRun, Destination, ScanFile, Route, Directories;
    var s5 := s4.(disk := s4.disk[p := x]);
    NextOnly(c, s4, Upload(p, x), s5);
    RunThen(c, Start(map[]), steps, s4, [Upload(p, x)], s5);
    steps := steps + [Upload(p, x)];
    s := s5.(overlord := Announcing(p), disk := AfterMove(s5.disk, p, d, NO_FAULTS));
    NextOnly(c, s5, Handle(NO_FAULTS), s);
    RunThen(c, Start(map[]), steps, s5, [Handle(NO_FAULTS)], s);
    steps := steps + [Handle(NO_FAULTS)];
    OneScan(c, verdict, s, y, d);
  }

  /**
    So are whole copies for the second half: a copy that fails after n bytes leaves a file in the clean directory of
    which the scanner may say anything, though nothing was uploaded in between.
   */
  lemma FailedCopyUnscanned(c: Config, verdict: Verdict, p: Path, y: seq<byte>, n: nat)
    returns (steps: seq<Step>, s: State)
    requires Directories(c) && c.staging <= p && c.enableVirusScan && n < |y| && NoVirus(verdict, y)
    requires !NoVirus(verdict, y[..n])
    ensures CarefulRun(c, verdict, Start(map[]), steps, s)
    ensures
      var d := Destination(c, false, p);
      d in s.disk && s.disk[d] == y[..n] && c.clean <= d && !(c.staging <= d) && !Sound(c, verdict, s, d)
  {
    var d, faults := Destination(c, false, p), NO_FAULTS.(copied := Some(n));
    DestinationsOutside(c, false, p);
    DestinationBelow(c, false, p);
    var s4;
    steps, s4 := UpToTheMove(c, verdict, p, y);
    hide IsRun, CarefulRun, Destination, ScanFile, Route, Directories;
    s := s4.(overlord := Announcing(p), disk := AfterMove(s4.disk, p, d, faults));
    NextOnly(c, s4, Handle(faults), s);
    CarefulAnyway(c, verdict, s4, [Handle(faults)], s);
    CarefulThen(c, verdict, Start(map[]), steps, s4, [Handle(faults)], s);
    steps := steps + [Handle(faults)];
    OneScan(c, verdict, s, y, d);
  }
}
