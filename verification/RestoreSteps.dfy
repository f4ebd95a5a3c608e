/**
 * The steps of `restoreDatabaseAt`, and what holds of every state of the disk on the way: it shows
 * either the old content or the backup's main file. Connections of other sessions, which close after
 * those sessions have let go of their locks, may close between the steps; of the inner backup, after it.
 */
module RestoreSteps {
  import opened Wrappers
  import opened Sidecar
  import opened Disk
  import Backup

  /** The calls that can fail, in the order in which they run. */
  datatype Step =
    | StatBackup | VerifyBackup | CheckBackup | OpenTarget | ConnectTarget | SameFile | StatTarget | LockTarget | CheckTarget
    | PreRestore | Checkpoint | Busy | CloseTarget | CreateStaged | CopyStaged | Compare | CheckStaged
    | RemoveWal | RemoveShm | Replace | SyncRestored | CheckRestored

  datatype Result = Ok(preRestore: string, verified: bool) | Err(step: Step)

  /** What is restored where: the target is `dir + name`. */
  datatype Job = Job(dir: string, name: string, backup: string, checksum: string, stamp: string, temp: string) {
    function Target(): string { dir + name }
    function Pre(): string { Target() + ".pre-restore-" + stamp + ".db" }
    function Staged(): string { dir + "." + name + ".restore-" + temp }

    /** All files that a restore may create, change or remove. */
    function Paths(): set<string> {
      {Target(), Wal(Target()), Shm(Target()), Pre(), Backup.SidecarPath(Pre()), Staged()}
    }

    lemma PathsDiffer()
      ensures Wal(Target()) != Target() && Shm(Target()) != Target() && Shm(Target()) != Wal(Target())
      ensures Pre() !in {Target(), Wal(Target()), Shm(Target())}
      ensures Backup.SidecarPath(Pre()) !in {Target(), Wal(Target()), Shm(Target()), Pre()}
      ensures Staged() !in {Target(), Wal(Target()), Shm(Target())}
    {
      var n := |Target()|;
      assert |Wal(Target())| == n + 4 && |Shm(Target())| == n + 4;
      assert Wal(Target())[n + 1] == 'w' && Shm(Target())[n + 1] == 's';
      assert |Pre()| >= n + 16 && |Backup.SidecarPath(Pre())| == |Pre()| + 7 && |Staged()| >= n + 10;
    }
  }

  /** The content that is restored: the backup's main file, without the backup's own log if it has one. */
  function NewContent(base: Files, job: Job): Option<Image> {
    if job.backup in base && base[job.backup].Main? then Some(base[job.backup].image) else None
  }

  /** A validated copy of the old content, with its checksum, is on disk. */
  ghost predicate HasPreRestore(s: Files, base: Files, env: Environment, job: Job) {
    && Logical(base, job.Target()).Some? && ChecksOut(base, env, job.Target())
    && var main := Main(Logical(base, job.Target()).value);
       && job.Pre() in s && s[job.Pre()] == main
       && Backup.SidecarPath(job.Pre()) in s
       && s[Backup.SidecarPath(job.Pre())] == Text(SidecarText(env.sha(main), job.Pre()))
  }

  /** The target shows the old content. */
  ghost predicate ShowsOld(s: Files, base: Files, job: Job) {
    ChangesOnly(s, base, job.Paths()) && Logical(s, job.Target()) == Logical(base, job.Target())
  }

  /** The target shows the backup, and the old content is kept aside. */
  ghost predicate ShowsNew(s: Files, base: Files, env: Environment, job: Job) {
    ChangesOnly(s, base, job.Paths()) && Replaced(s, base, env, job)
  }

  ghost predicate Safe(s: Files, base: Files, env: Environment, job: Job) {
    ShowsOld(s, base, job) || ShowsNew(s, base, env, job)
  }

  /** The old content in place, the pre-restore backup beside it, the backup not damaged. */
  ghost predicate Prepared(s: Files, base: Files, env: Environment, job: Job) {
    && ChangesOnly(s, base, job.Paths())
    && Logical(s, job.Target()) == Logical(base, job.Target())
    && HasPreRestore(s, base, env, job)
    && (job.backup in s && s[job.backup].Main? ==> NewContent(base, job) == Some(s[job.backup].image))
  }

  ghost predicate OldFrom(trail: seq<Files>, n: nat, base: Files, job: Job) {
    forall i :: n <= i < |trail| ==> ShowsOld(trail[i], base, job)
  }

  ghost predicate NewFrom(trail: seq<Files>, n: nat, base: Files, env: Environment, job: Job) {
    forall i :: n <= i < |trail| ==> ShowsNew(trail[i], base, env, job)
  }

  ghost predicate SwitchesAt(trail: seq<Files>, n: nat, k: nat, base: Files, env: Environment, job: Job) {
    n <= k <= |trail| && OldFrom(trail[..k], n, base, job) && NewFrom(trail, k, base, env, job)
  }

  /** From state `n` on, the target shows the old content, then the backup: it switches at most once, and never to a third. */
  ghost predicate SwitchesOnce(trail: seq<Files>, n: nat, base: Files, env: Environment, job: Job) {
    exists k: nat :: SwitchesAt(trail, n, k, base, env, job)
  }

  lemma NoSwitch(trail: seq<Files>, n: nat, base: Files, env: Environment, job: Job)
    requires n <= |trail| && OldFrom(trail, n, base, job)
    ensures SwitchesOnce(trail, n, base, env, job)
  {
    assert SwitchesAt(trail, n, |trail|, base, env, job);
  }

  /** Old states before a run that switches once. */
  lemma OldThenSwitch(trail: seq<Files>, n: nat, m: nat, base: Files, env: Environment, job: Job)
    requires n <= m <= |trail| && OldFrom(trail[..m], n, base, job) && SwitchesOnce(trail, m, base, env, job)
    ensures SwitchesOnce(trail, n, base, env, job)
  {
    var k: nat :| SwitchesAt(trail, m, k, base, env, job);
    forall i | n <= i < k ensures ShowsOld(trail[..k][i], base, job) {
      if i < m {
        assert trail[..m][i] == trail[i];
      }
    }
    assert SwitchesAt(trail, n, k, base, env, job);
  }

  lemma OldThenNew(trail: seq<Files>, n: nat, m: nat, base: Files, env: Environment, job: Job)
    requires n <= m <= |trail| && OldFrom(trail[..m], n, base, job) && NewFrom(trail, m, base, env, job)
    ensures SwitchesOnce(trail, n, base, env, job)
  {
    assert SwitchesAt(trail, n, m, base, env, job);
  }

  /** A step that leaves the target's content as it was. */
  method Place(d: Drive, ghost base: Files, ghost env: Environment, ghost job: Job, path: string, file: File)
    requires d.Recorded() && Prepared(d.files[path := file], base, env, job)
    modifies d
    ensures d.Recorded() && d.files == old(d.files)[path := file] && d.trail == old(d.trail) + [d.files]
    ensures Prepared(d.files, base, env, job) && OldFrom(d.trail, |old(d.trail)|, base, job)
  {
    d.Put(path, file);
  }

  method Discard(d: Drive, ghost base: Files, ghost env: Environment, ghost job: Job, path: string)
    requires d.Recorded() && Prepared(d.files - {path}, base, env, job)
    modifies d
    ensures d.Recorded() && d.files == old(d.files) - {path} && d.trail == old(d.trail) + [d.files]
    ensures Prepared(d.files, base, env, job) && OldFrom(d.trail, |old(d.trail)|, base, job)
  {
    d.Remove(path);
  }

  // --------------------------------------------------- connections that close late

  /** A foreign connection that closes now does no harm, as long as the old content is in place. */
  lemma PreparedStays(a: Files, b: Files, base: Files, env: Environment, job: Job)
    requires Prepared(a, base, env, job) && Closer(a, b, job.Target()) && job.backup != job.Target()
    ensures Prepared(b, base, env, job) && (Frames(a, job.Target()) == [] ==> Frames(b, job.Target()) == [])
    ensures job.Staged() in a <==> job.Staged() in b
    ensures job.Staged() in a ==> b[job.Staged()] == a[job.Staged()]
  {
    job.PathsDiffer();
    CloserFrames(a, b, job.Target());
  }

  /** Nor does it once the backup has taken its place. */
  lemma ReplacedStays(a: Files, b: Files, base: Files, env: Environment, job: Job)
    requires Replaced(a, base, env, job) && Closer(a, b, job.Target())
    ensures Replaced(b, base, env, job)
    ensures job.Staged() in a <==> job.Staged() in b
  {
    job.PathsDiffer();
  }

  lemma OldAfterClosing(trail: seq<Files>, n: nat, a: Files, base: Files, job: Job)
    requires n <= |trail| && ShowsOld(a, base, job) && CloserFrom(trail, n, a, job.Target())
    ensures OldFrom(trail, n, base, job)
  {
    job.PathsDiffer();
  }

  lemma NewStays(a: Files, b: Files, base: Files, env: Environment, job: Job)
    requires ShowsNew(a, base, env, job) && Closer(a, b, job.Target())
    ensures ShowsNew(b, base, env, job) && (job.Staged() in a <==> job.Staged() in b)
  {
    job.PathsDiffer();
    ReplacedStays(a, b, base, env, job);
  }

  lemma NewAfterClosing(trail: seq<Files>, n: nat, a: Files, base: Files, env: Environment, job: Job)
    requires n <= |trail| && ShowsNew(a, base, env, job) && CloserFrom(trail, n, a, job.Target())
    ensures NewFrom(trail, n, base, env, job)
  {
    forall i | n <= i < |trail| ensures ShowsNew(trail[i], base, env, job) {
      NewStays(a, trail[i], base, env, job);
    }
  }

  /** Connections that close at the end of a run do not switch the content back. */
  lemma SwitchThenClose(trail: seq<Files>, n: nat, m: nat, last: Files, base: Files, env: Environment, job: Job)
    requires n <= m <= |trail| && SwitchesOnce(trail[..m], n, base, env, job) && Safe(last, base, env, job)
    requires m > n ==> last == trail[m - 1]
    requires CloserFrom(trail, m, last, job.Target())
    ensures SwitchesOnce(trail, n, base, env, job)
  {
    var k: nat :| SwitchesAt(trail[..m], n, k, base, env, job);
    if k < m {
      assert trail[..m][m - 1] == last;
      NewAfterClosing(trail, m, last, base, env, job);
      assert trail[..m][..k] == trail[..k];
      forall i | k <= i < |trail| ensures ShowsNew(trail[i], base, env, job) {
        assert i < m ==> trail[..m][i] == trail[i];
      }
      assert SwitchesAt(trail, n, k, base, env, job);
    } else {
      assert trail[..m][..k] == trail[..m];
      if ShowsOld(last, base, job) {
        OldAfterClosing(trail, m, last, base, job);
        NoSwitch(trail, m, base, env, job);
        OldThenSwitch(trail, n, m, base, env, job);
      } else {
        NewAfterClosing(trail, m, last, base, env, job);
        OldThenNew(trail, n, m, base, env, job);
      }
    }
  }

  /** Other sessions' connections close while the old content is in place. */
  method Interfere(d: Drive, ghost base: Files, ghost env: Environment, job: Job)
    requires d.Recorded() && Prepared(d.files, base, env, job) && job.backup != job.Target()
    modifies d
    ensures d.Recorded() && old(d.trail) <= d.trail && OldFrom(d.trail, |old(d.trail)|, base, job)
    ensures Prepared(d.files, base, env, job) && Closer(old(d.files), d.files, job.Target())
    ensures Frames(old(d.files), job.Target()) == [] ==> Frames(d.files, job.Target()) == []
    ensures job.Staged() in old(d.files) <==> job.Staged() in d.files
    ensures job.Staged() in old(d.files) ==> d.files[job.Staged()] == old(d.files)[job.Staged()]
  {
    CloseConnections(d, job.Target());
    PreparedStays(old(d.files), d.files, base, env, job);
    OldAfterClosing(d.trail, |old(d.trail)|, old(d.files), base, job);
  }

  // ------------------------------------------------------------ SQLite's part

  lemma CloserIsPrepared(s: Files, b: Files, base: Files, env: Environment, job: Job)
    requires Prepared(s, base, env, job) && job.backup != job.Target() && Closer(s, b, job.Target())
    ensures Prepared(b, base, env, job) && job.Target() in b && b[job.Target()].Main?
  {
    PreparedStays(s, b, base, env, job);
  }

  /** Copies the first `n` frames of the log into the main file. */
  method CopyFrames(d: Drive, ghost base: Files, ghost env: Environment, job: Job, n: nat)
    requires d.Recorded() && Prepared(d.files, base, env, job) && job.backup != job.Target()
    requires n <= |Frames(d.files, job.Target())|
    modifies d
    ensures d.Recorded() && d.trail == old(d.trail) + [d.files] && OldFrom(d.trail, |old(d.trail)|, base, job)
    ensures Prepared(d.files, base, env, job) && Frames(d.files, job.Target()) == Frames(old(d.files), job.Target())
    ensures job.Target() in old(d.files) && old(d.files)[job.Target()].Main?
    ensures d.files == old(d.files)[job.Target() :=
                         Main(Apply(old(d.files)[job.Target()].image, Frames(old(d.files), job.Target())[..n]))]
  {
    var t := job.Target();
    DatabaseFilesDiffer(t);
    CopiedIsCloser(d.files, t, n);
    CloserIsPrepared(d.files, d.files[t := Main(Apply(d.files[t].image, Frames(d.files, t)[..n]))], base, env, job);
    Place(d, base, env, job, t, Main(Apply(d.files[t].image, Frames(d.files, t)[..n])));
  }

  /** Empties the log, once the main file has every frame. */
  method EmptyLog(d: Drive, ghost base: Files, ghost env: Environment, job: Job)
    requires d.Recorded() && Prepared(d.files, base, env, job) && job.backup != job.Target()
    requires d.files[job.Target()] == Main(Logical(d.files, job.Target()).value)
    modifies d
    ensures d.Recorded() && old(d.trail) <= d.trail && OldFrom(d.trail, |old(d.trail)|, base, job)
    ensures Prepared(d.files, base, env, job) && d.files.Keys == old(d.files).Keys
    ensures Frames(d.files, job.Target()) == []
  {
    var w := Wal(job.Target());
    if w in d.files {
      EmptiedIsPrepared(d.files, base, env, job);
      Place(d, base, env, job, w, Disk.Log([]));
    }
  }

  lemma EmptiedIsPrepared(s: Files, base: Files, env: Environment, job: Job)
    requires Prepared(s, base, env, job) && job.backup != job.Target()
    requires s[job.Target()] == Main(Logical(s, job.Target()).value)
    ensures Prepared(s[Wal(job.Target()) := Disk.Log([])], base, env, job)
  {
    job.PathsDiffer();
    assert Apply(s[job.Target()].image, []) == s[job.Target()].image;
  }

  /** With every frame copied, the main file alone is the logical content. */
  lemma WholeLog(s: Files, t: string, image: Image, frames: seq<Frame>)
    requires t in s && s[t] == Main(Apply(image, frames)) && Frames(s, t) == frames
    ensures s[t] == Main(Logical(s, t).value)
  {
    PartialCheckpointKeepsContent(image, frames, |frames|);
    assert frames[..|frames|] == frames;
  }

  /**
   * `PRAGMA wal_checkpoint(TRUNCATE)`. It may stop after any number of frames, with an error or
   * because a reader keeps it busy; when it succeeds the log is empty. SQLite lets nobody else
   * checkpoint meanwhile.
   */
  method CheckpointTarget(d: Drive, ghost base: Files, ghost env: Environment, job: Job, copied: nat, faults: set<Step>)
    returns (stop: Option<Step>)
    requires d.Recorded() && Prepared(d.files, base, env, job) && job.backup != job.Target()
    modifies d
    ensures d.Recorded() && old(d.trail) <= d.trail && OldFrom(d.trail, |old(d.trail)|, base, job)
    ensures Prepared(d.files, base, env, job) && d.files.Keys == old(d.files).Keys
    ensures stop == if Checkpoint in faults then Some(Checkpoint) else if Busy in faults then Some(Busy) else None
    ensures stop.None? ==> Frames(d.files, job.Target()) == []
  {
    var t := job.Target();
    var frames := Frames(d.files, t);
    if Checkpoint in faults || Busy in faults {
      CopyFrames(d, base, env, job, if copied <= |frames| then copied else |frames|);
      return Some(if Checkpoint in faults then Checkpoint else Busy);
    }
    ghost var image := d.files[t].image;
    CopyFrames(d, base, env, job, |frames|);
    assert frames[..|frames|] == frames;
    WholeLog(d.files, t, image, frames);
    EmptyLog(d, base, env, job);
    return None;
  }

  // ------------------------------------------------------------------- staging

  /** The temporary name is unlike every other file that matters: `os.CreateTemp` picks an unused one. */
  ghost predicate FreshTemp(base: Files, job: Job) {
    job.Staged() !in base && job.Staged() != job.Pre() && job.Staged() != Backup.SidecarPath(job.Pre())
  }

  lemma StagedIsApart(s: Files, base: Files, env: Environment, job: Job, file: File)
    requires Prepared(s, base, env, job) && FreshTemp(base, job) && job.backup != job.Staged()
    ensures Prepared(s[job.Staged() := file], base, env, job)
    ensures Frames(s[job.Staged() := file], job.Target()) == Frames(s, job.Target())
    ensures Prepared(s - {job.Staged()}, base, env, job)
    ensures Frames(s - {job.Staged()}, job.Target()) == Frames(s, job.Target())
  {
    job.PathsDiffer();
  }

  function StageStop(files: Files, job: Job, faults: set<Step>): Option<Step> {
    if CreateStaged in faults then Some(CreateStaged)
    else if CopyStaged in faults || job.backup !in files then Some(CopyStaged)
    else None
  }

  /** The files with a copy of the backup beside the target. */
  function Staged(files: Files, job: Job): Files
    requires job.backup in files
  {
    files[job.Staged() := files[job.backup]]
  }

  method PlaceStaged(d: Drive, ghost base: Files, ghost env: Environment, job: Job, file: File)
    requires d.Recorded() && Prepared(d.files, base, env, job) && FreshTemp(base, job) && job.backup != job.Staged()
    modifies d
    ensures d.Recorded() && d.files == old(d.files)[job.Staged() := file] && d.trail == old(d.trail) + [d.files]
    ensures Prepared(d.files, base, env, job) && OldFrom(d.trail, |old(d.trail)|, base, job)
    ensures Frames(d.files, job.Target()) == Frames(old(d.files), job.Target())
  {
    StagedIsApart(d.files, base, env, job, file);
    Place(d, base, env, job, job.Staged(), file);
  }

  method DiscardStaged(d: Drive, ghost base: Files, ghost env: Environment, job: Job)
    requires d.Recorded() && Prepared(d.files, base, env, job) && FreshTemp(base, job) && job.backup != job.Staged()
    modifies d
    ensures d.Recorded() && d.files == old(d.files) - {job.Staged()} && d.trail == old(d.trail) + [d.files]
    ensures Prepared(d.files, base, env, job) && OldFrom(d.trail, |old(d.trail)|, base, job)
    ensures Frames(d.files, job.Target()) == Frames(old(d.files), job.Target())
  {
    StagedIsApart(d.files, base, env, job, Text(""));
    Discard(d, base, env, job, job.Staged());
  }

  /** `stageRestoreFile`: on failure its own cleanup removes the temporary file. */
  method StageRestoreFile(d: Drive, ghost base: Files, ghost env: Environment, job: Job, faults: set<Step>)
    returns (stop: Option<Step>)
    requires d.Recorded() && Prepared(d.files, base, env, job) && Frames(d.files, job.Target()) == []
    requires FreshTemp(base, job) && job.backup != job.Staged() && job.Staged() !in d.files
    modifies d
    ensures d.Recorded() && old(d.trail) <= d.trail && OldFrom(d.trail, |old(d.trail)|, base, job)
    ensures Prepared(d.files, base, env, job) && Frames(d.files, job.Target()) == []
    ensures stop == StageStop(old(d.files), job, faults)
    ensures stop.Some? ==> job.Staged() !in d.files
    ensures stop.None? ==> d.files == Staged(old(d.files), job)
  {
    if CreateStaged in faults {
      return Some(CreateStaged);
    }
    PlaceStaged(d, base, env, job, Text(""));
    if CopyStaged in faults || job.backup !in d.files {
      PlaceStaged(d, base, env, job, Text("partial"));
      DiscardStaged(d, base, env, job);
      return Some(CopyStaged);
    }
    PlaceStaged(d, base, env, job, d.files[job.backup]);
    return None;
  }

  function CopyStop(files: Files, env: Environment, job: Job, verified: bool, faults: set<Step>): Option<Step> {
    if verified && (Compare in faults || job.backup !in files) then Some(Compare)
    else if CheckStaged in faults || !ChecksOut(files, env, job.Staged()) then Some(CheckStaged)
    else None
  }

  /** Compares the staged copy with the backup, when a checksum was verified, and validates it. */
  method CheckCopy(d: Drive, env: Environment, job: Job, verified: bool, faults: set<Step>) returns (stop: Option<Step>)
    requires job.Staged() in d.files && (job.backup in d.files ==> d.files[job.Staged()] == d.files[job.backup])
    ensures stop == CopyStop(d.files, env, job, verified, faults)
  {
    if verified {
      if Compare in faults || job.backup !in d.files || env.sha(d.files[job.Staged()]) != env.sha(d.files[job.backup]) {
        return Some(Compare);
      }
    }
    if CheckStaged in faults || !ChecksOut(d.files, env, job.Staged()) {
      return Some(CheckStaged);
    }
    return None;
  }

  // ----------------------------------------------------------------- replacing

  ghost predicate Replaced(s: Files, base: Files, env: Environment, job: Job) {
    && NewContent(base, job).Some? && Logical(s, job.Target()) == NewContent(base, job)
    && HasPreRestore(s, base, env, job)
  }

  /** The staged copy is ready to become the database. */
  ghost predicate CopyReady(s: Files, base: Files, job: Job) {
    job.Staged() in s && s[job.Staged()].Main? && NewContent(base, job) == Some(s[job.Staged()].image)
  }

  /** The rename is the one step that changes the content. */
  lemma ReplaceIsSafe(s: Files, base: Files, env: Environment, job: Job)
    requires Prepared(s, base, env, job) && Wal(job.Target()) !in s && CopyReady(s, base, job) && FreshTemp(base, job)
    ensures var after := s[job.Target() := s[job.Staged()]] - {job.Staged()};
      ShowsNew(after, base, env, job)
  {
    job.PathsDiffer();
    assert Apply(s[job.Staged()].image, []) == s[job.Staged()].image;
  }

  function SwapStop(faults: set<Step>): Option<Step> {
    if RemoveWal in faults then Some(RemoveWal)
    else if RemoveShm in faults then Some(RemoveShm)
    else if Replace in faults then Some(Replace)
    else None
  }

  /** Removing an empty log, or the shared-memory file, never changes the content. */
  lemma SidecarsAreEmpty(s: Files, base: Files, env: Environment, job: Job, path: string)
    requires Prepared(s, base, env, job) && Frames(s, job.Target()) == [] && path in {Wal(job.Target()), Shm(job.Target())}
    ensures Prepared(s - {path}, base, env, job) && Frames(s - {path}, job.Target()) == []
  {
    job.PathsDiffer();
  }

  /** Removes one sidecar; then other connections may close. */
  method RemoveSidecar(d: Drive, ghost base: Files, ghost env: Environment, job: Job, path: string)
    requires d.Recorded() && Prepared(d.files, base, env, job) && Frames(d.files, job.Target()) == []
    requires CopyReady(d.files, base, job) && job.backup != job.Target() && path in {Wal(job.Target()), Shm(job.Target())}
    modifies d
    ensures d.Recorded() && old(d.trail) <= d.trail && OldFrom(d.trail, |old(d.trail)|, base, job)
    ensures Prepared(d.files, base, env, job) && Frames(d.files, job.Target()) == [] && CopyReady(d.files, base, job)
    ensures path !in d.files && (Wal(job.Target()) !in old(d.files) ==> Wal(job.Target()) !in d.files)
  {
    job.PathsDiffer();
    SidecarsAreEmpty(d.files, base, env, job, path);
    Discard(d, base, env, job, path);
    Interfere(d, base, env, job);
  }

  /** The atomic rename; then other connections may close. */
  method RenameStaged(d: Drive, ghost base: Files, ghost env: Environment, job: Job)
    requires d.Recorded() && Prepared(d.files, base, env, job) && Wal(job.Target()) !in d.files
    requires CopyReady(d.files, base, job) && FreshTemp(base, job)
    modifies d
    ensures d.Recorded() && old(d.trail) <= d.trail && NewFrom(d.trail, |old(d.trail)|, base, env, job)
    ensures ShowsNew(d.files, base, env, job) && job.Staged() !in d.files
  {
    job.PathsDiffer();
    ReplaceIsSafe(d.files, base, env, job);
    d.Rename(job.Staged(), job.Target());
    ghost var renamed, n := d.files, |d.trail|;
    CloseConnections(d, job.Target());
    NewStays(renamed, d.files, base, env, job);
    NewAfterClosing(d.trail, n, renamed, base, env, job);
  }

  /** Removes the old sidecars; then the copy can be renamed. */
  method RemoveSidecars(d: Drive, ghost base: Files, ghost env: Environment, job: Job, faults: set<Step>)
    returns (stop: Option<Step>)
    requires d.Recorded() && Prepared(d.files, base, env, job) && Frames(d.files, job.Target()) == []
    requires CopyReady(d.files, base, job) && job.backup != job.Target()
    modifies d
    ensures d.Recorded() && old(d.trail) <= d.trail && OldFrom(d.trail, |old(d.trail)|, base, job)
    ensures Prepared(d.files, base, env, job) && CopyReady(d.files, base, job)
    ensures stop == if RemoveWal in faults then Some(RemoveWal) else if RemoveShm in faults then Some(RemoveShm) else None
    ensures stop.None? ==> Wal(job.Target()) !in d.files
  {
    if RemoveWal in faults {
      return Some(RemoveWal);
    }
    RemoveSidecar(d, base, env, job, Wal(job.Target()));
    if RemoveShm in faults {
      return Some(RemoveShm);
    }
    RemoveSidecar(d, base, env, job, Shm(job.Target()));
    return None;
  }

  /** Removes the old sidecars and renames the staged copy over the target. */
  method SwapIn(d: Drive, ghost base: Files, ghost env: Environment, job: Job, faults: set<Step>)
    returns (stop: Option<Step>)
    requires d.Recorded() && Prepared(d.files, base, env, job) && Frames(d.files, job.Target()) == []
    requires CopyReady(d.files, base, job) && FreshTemp(base, job) && job.backup != job.Target()
    modifies d
    ensures d.Recorded() && old(d.trail) <= d.trail && stop == SwapStop(faults)
    ensures stop.Some? ==> Prepared(d.files, base, env, job) && OldFrom(d.trail, |old(d.trail)|, base, job)
    ensures stop.None? ==> ShowsNew(d.files, base, env, job) && job.Staged() !in d.files
    ensures stop.None? ==> SwitchesOnce(d.trail, |old(d.trail)|, base, env, job)
  {
    stop := RemoveSidecars(d, base, env, job, faults);
    if stop.Some? {
      return;
    }
    if Replace in faults {
      return Some(Replace);
    }
    ghost var m := |d.trail|;
    RenameStaged(d, base, env, job);
    OldThenNew(d.trail, |old(d.trail)|, m, base, env, job);
  }

  /** Where the steps after the target was closed stop, if they do. */
  function ReplaceStop(files: Files, env: Environment, job: Job, verified: bool, faults: set<Step>): Option<Step> {
    if StageStop(files, job, faults).Some? then StageStop(files, job, faults)
    else if CopyStop(Staged(files, job), env, job, verified, faults).Some? then
      CopyStop(Staged(files, job), env, job, verified, faults)
    else if SwapStop(faults).Some? then SwapStop(faults)
    else if SyncRestored in faults then Some(SyncRestored)
    else if CheckRestored in faults || !env.sound(files[job.backup].image) then Some(CheckRestored)
    else None
  }

  predicate Late(s: Step) {
    s in {CreateStaged, CopyStaged, Compare, CheckStaged, RemoveWal, RemoveShm, Replace, SyncRestored, CheckRestored}
  }

  /** Only these two names could be taken from under the backup while its target is replaced. */
  predicate BesideTarget(job: Job) { job.backup in {Wal(job.Target()), Shm(job.Target())} }

  lemma StagedLogIsApart(job: Job)
    ensures Wal(job.Staged()) !in job.Paths()
  {
    var w, n := Wal(job.Staged()), |job.Staged()|;
    assert n >= |job.Target()| + 10 && |w| == n + 4 && w[|w| - 1] == 'l';
    assert job.Pre()[|job.Pre()| - 1] == 'b';
    assert Backup.SidecarPath(job.Pre())[|Backup.SidecarPath(job.Pre())| - 1] == '6';
  }

  /** Closing connections makes no difference to the validation of the staged copy. */
  lemma CopyStopSame(a: Files, b: Files, env: Environment, job: Job, verified: bool, faults: set<Step>)
    requires Closer(a, b, job.Target()) && !BesideTarget(job) && job.backup != job.Target()
    ensures CopyStop(a, env, job, verified, faults) == CopyStop(b, env, job, verified, faults)
  {
    job.PathsDiffer();
    StagedLogIsApart(job);
    assert Frames(a, job.Staged()) == Frames(b, job.Staged());
    assert job.Staged() in a <==> job.Staged() in b;
  }

  /** Stages the copy and validates it; the copy stays only when it is ready. */
  method MakeCopy(d: Drive, ghost base: Files, env: Environment, job: Job, verified: bool, faults: set<Step>)
    returns (stop: Option<Step>)
    requires d.Recorded() && Prepared(d.files, base, env, job) && Frames(d.files, job.Target()) == []
    requires FreshTemp(base, job) && job.backup != job.Staged() && job.backup != job.Target() && job.Staged() !in d.files
    modifies d
    ensures d.Recorded() && old(d.trail) <= d.trail && OldFrom(d.trail, |old(d.trail)|, base, job)
    ensures Prepared(d.files, base, env, job) && Frames(d.files, job.Target()) == []
    ensures stop.Some? ==> job.Staged() !in d.files && stop.value in {CreateStaged, CopyStaged, Compare, CheckStaged}
    ensures stop.None? ==> CopyReady(d.files, base, job) && job.backup in old(d.files)
                           && d.files[job.Staged()] == old(d.files)[job.backup]
    ensures StageStop(old(d.files), job, faults).Some? ==> stop == StageStop(old(d.files), job, faults)
    ensures StageStop(old(d.files), job, faults).None? && !BesideTarget(job) ==>
              stop == CopyStop(Staged(old(d.files), job), env, job, verified, faults)
  {
    stop := StageRestoreFile(d, base, env, job, faults);
    if stop.Some? {
      return;
    }
    ghost var staged := d.files;
    Interfere(d, base, env, job);
    CopyIsKept(staged, d.files, job);
    stop := CheckCopy(d, env, job, verified, faults);
    if !BesideTarget(job) {
      CopyStopSame(staged, d.files, env, job, verified, faults);
    }
    if stop.Some? {
      DiscardStaged(d, base, env, job);
    }
  }

  lemma CopyIsKept(a: Files, b: Files, job: Job)
    requires Closer(a, b, job.Target()) && job.backup in a && job.Staged() in a && a[job.Staged()] == a[job.backup]
    requires job.backup != job.Target()
    ensures job.Staged() in b && b[job.Staged()] == a[job.backup] && (job.backup in b ==> b[job.backup] == a[job.backup])
  {
    job.PathsDiffer();
  }

  /** Everything after the target was closed; `removeStaged` drives the deferred cleanup. */
  method ReplaceTarget(d: Drive, ghost base: Files, env: Environment, job: Job, verified: bool, faults: set<Step>)
    returns (stop: Option<Step>)
    requires d.Recorded() && Prepared(d.files, base, env, job) && Frames(d.files, job.Target()) == []
    requires FreshTemp(base, job) && job.backup != job.Staged() && job.backup != job.Target() && job.Staged() !in d.files
    modifies d
    ensures d.Recorded() && old(d.trail) <= d.trail && SwitchesOnce(d.trail, |old(d.trail)|, base, env, job)
    ensures !BesideTarget(job) ==> stop == ReplaceStop(old(d.files), env, job, verified, faults)
    ensures job.Staged() !in d.files && (stop.Some? ==> Late(stop.value))
    ensures stop.Some? && stop.value !in {SyncRestored, CheckRestored} ==> ShowsOld(d.files, base, job)
    ensures stop.Some? && stop.value in {SyncRestored, CheckRestored} ==> ShowsNew(d.files, base, env, job)
    ensures stop.None? ==> ShowsNew(d.files, base, env, job) && ChecksOut(d.files, env, job.Target())
  {
    stop := MakeCopy(d, base, env, job, verified, faults);
    if stop.Some? {
      NoSwitch(d.trail, |old(d.trail)|, base, env, job);
      return;
    }
    stop := SwapOrCleanUp(d, base, env, job, faults, |d.trail|, |old(d.trail)|);
    if stop.Some? {
      return;
    }
    if SyncRestored in faults {
      return Some(SyncRestored);
    }
    if CheckRestored in faults || !ChecksOut(d.files, env, job.Target()) {
      return Some(CheckRestored);
    }
  }

  /** The swap with the deferred removal of the staged copy. */
  method SwapOrCleanUp(d: Drive, ghost base: Files, ghost env: Environment, job: Job, faults: set<Step>, ghost m: nat, ghost n: nat)
    returns (stop: Option<Step>)
    requires d.Recorded() && Prepared(d.files, base, env, job) && Frames(d.files, job.Target()) == []
    requires CopyReady(d.files, base, job) && FreshTemp(base, job) && job.backup != job.Target() && job.backup != job.Staged()
    requires n <= m == |d.trail| && OldFrom(d.trail, n, base, job)
    modifies d
    ensures d.Recorded() && old(d.trail) <= d.trail && SwitchesOnce(d.trail, n, base, env, job)
    ensures stop == SwapStop(faults) && job.Staged() !in d.files
    ensures if stop.Some? then ShowsOld(d.files, base, job) else ShowsNew(d.files, base, env, job)
  {
    var removeStaged := true;
    stop := SwapIn(d, base, env, job, faults);
    removeStaged := stop.Some?;
    if removeStaged {
      DiscardStaged(d, base, env, job);
      NoSwitch(d.trail, m, base, env, job);
    }
    OldThenSwitch(d.trail, n, m, base, env, job);
  }
}
