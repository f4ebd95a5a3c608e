/**
 * What follows about restoring: when its connection can close beside a foreign lock, why the old log
 * goes first, and that restoring undoes whatever happened since a backup.
 */
module RestoreLaws {
  import opened Wrappers
  import opened Sidecar
  import opened Disk
  import opened RestoreSteps
  import opened Restore
  import Backup
  import Lifecycle

  // ------------------------------------------------------------- late closes

  predicate InnerOnly(middle: seq<Lifecycle.Event>, q: nat) {
    forall k :: 0 <= k < |middle| ==> middle[k] in {Lifecycle.Closed(q), Lifecycle.Write(q)}
  }

  /** A session that has locked exclusively, and closed connections only since then. */
  predicate Holding(log: seq<Lifecycle.Event>, q: nat) {
    && Lifecycle.Disciplined(log) && Lifecycle.OwnEvents(log, q) && Lifecycle.ClosesUnderLock(log)
    && Lifecycle.HeldBy(log, q) == Some(Lifecycle.Exclusive)
  }

  lemma HoldingStarts(q: nat)
    ensures Holding([Lifecycle.Acquired(q, Lifecycle.Exclusive)], q)
  {
    var none: seq<Lifecycle.Event> := [];
    Lifecycle.Append(none, Lifecycle.Acquired(q, Lifecycle.Exclusive));
    assert none + [Lifecycle.Acquired(q, Lifecycle.Exclusive)] == [Lifecycle.Acquired(q, Lifecycle.Exclusive)];
  }

  lemma HoldingGoesOn(log: seq<Lifecycle.Event>, e: Lifecycle.Event, q: nat)
    requires Holding(log, q) && e in {Lifecycle.Closed(q), Lifecycle.Write(q)}
    ensures Holding(log + [e], q)
  {
    Lifecycle.Append(log, e);
    ClosesOneMore(log, e, q);
  }

  lemma {:induction false} HeldThroughout(q: nat, middle: seq<Lifecycle.Event>)
    requires InnerOnly(middle, q)
    ensures Holding([Lifecycle.Acquired(q, Lifecycle.Exclusive)] + middle, q)
  {
    var start := [Lifecycle.Acquired(q, Lifecycle.Exclusive)];
    if middle == [] {
      HoldingStarts(q);
      assert start + middle == start;
    } else {
      var init, e := middle[..|middle| - 1], middle[|middle| - 1];
      HeldThroughout(q, init);
      HoldingGoesOn(start + init, e, q);
      assert start + middle == start + init + [e];
    }
  }

  lemma ClosesOneMore(log: seq<Lifecycle.Event>, e: Lifecycle.Event, q: nat)
    requires Lifecycle.ClosesUnderLock(log) && Lifecycle.Pid(e) == q && (e.Closed? ==> Lifecycle.HeldBy(log, q).Some?)
    ensures Lifecycle.ClosesUnderLock(log + [e])
  {
    var more := log + [e];
    forall k | 0 <= k < |more| && more[k].Closed? ensures Lifecycle.HeldBy(more[..k], more[k].p).Some? {
      if k < |log| {
        assert more[..k] == log[..k];
      } else {
        assert more[..k] == log;
      }
    }
  }

  lemma HeldPart(q: nat, stop: Option<Step>, p: Plan)
    requires stop != Some(LockTarget)
    ensures var log := HoldEvents(q, stop, p);
      && Lifecycle.Disciplined(log) && Lifecycle.OwnEvents(log, q) && Lifecycle.ClosesUnderLock(log)
      && Lifecycle.HeldBy(log, q).None?
  {
    var middle := LockedEvents(q, stop, p);
    var locked := [Lifecycle.Acquired(q, Lifecycle.Exclusive)] + middle;
    HeldThroughout(q, middle);
    Lifecycle.Append(locked, Lifecycle.Released(q));
    ClosesOneMore(locked, Lifecycle.Released(q), q);
    assert HoldEvents(q, stop, p) == locked + [Lifecycle.Released(q)];
  }

  /**
   * A restore can close its connection beside a foreign exclusive lock exactly when it stops between
   * opening the target and closing it; a successful one never does.
   */
  lemma RestoreCanOverlapIff(q: nat, stop: Option<Step>, p: Plan)
    ensures Lifecycle.CanOverlap(Events(q, stop, p), q)
       <==> stop in {Some(ConnectTarget), Some(SameFile), Some(StatTarget)} || ClosesLate(stop)
  {
    Lifecycle.SessionStart(q, Lifecycle.Exclusive);
    if stop == Some(LockTarget) {
      assert [Lifecycle.Denied(q, Lifecycle.Exclusive)] + [Lifecycle.Closed(q)]
          == [Lifecycle.Denied(q, Lifecycle.Exclusive), Lifecycle.Closed(q)];
      assert [] + [Lifecycle.Closed(q)] == [Lifecycle.Closed(q)];
    } else {
      HoldCanOverlap(q, stop, p);
    }
  }

  lemma HoldCanOverlap(q: nat, stop: Option<Step>, p: Plan)
    requires stop != Some(LockTarget)
    ensures Lifecycle.CanOverlap(HoldEvents(q, stop, p) + [Lifecycle.Closed(q)], q)
    ensures !Lifecycle.CanOverlap(HoldEvents(q, stop, p) + [], q)
  {
    HeldPart(q, stop, p);
    Lifecycle.ClosesWithoutLock(HoldEvents(q, stop, p), q);
    Lifecycle.CloseOverlapsIff(HoldEvents(q, stop, p), q);
    assert HoldEvents(q, stop, p) + [] == HoldEvents(q, stop, p);
  }

  // ---------------------------------------------------------------- all or nothing

  /**
   * What a run of states tells a reader who looks twice: the target shows one of two contents, and once
   * it does not show the old one, every later state shows the backup and holds the old content aside.
   */
  lemma NeverAMix(trail: seq<Files>, n: nat, i: nat, j: nat, base: Files, env: Environment, job: Job)
    requires SwitchesOnce(trail, n, base, env, job) && n <= i <= j < |trail|
    ensures Logical(trail[i], job.Target()) in {Logical(base, job.Target()), NewContent(base, job)}
    ensures Logical(trail[i], job.Target()) != Logical(base, job.Target()) ==>
              && Logical(trail[j], job.Target()) == NewContent(base, job)
              && job.Pre() in trail[j] && trail[j][job.Pre()] == Main(Logical(base, job.Target()).value)
  {
    var k: nat :| SwitchesAt(trail, n, k, base, env, job);
    if i < k {
      assert trail[..k][i] == trail[i];
    }
  }

  // ------------------------------------------------------------ why the log goes first

  /** The disk after a rename that does not wait for the log to be emptied and removed. */
  function RenamedEarly(s: Files, job: Job): Files
    requires job.Staged() in s
  {
    s[job.Target() := s[job.Staged()]] - {job.Staged()}
  }

  /**
   * Renaming over a database whose log is still there is safe exactly when the log would change
   * nothing in the new main file, or when old and new main file agree on every page outside the log.
   * Otherwise the database shows a third content.
   */
  lemma EarlyRenameSafeIff(s: Files, base: Files, env: Environment, job: Job)
    requires Prepared(s, base, env, job) && CopyReady(s, base, job) && FreshTemp(base, job)
    ensures job.Target() in s && s[job.Target()].Main?
    ensures var newer, older, frames := s[job.Staged()].image, s[job.Target()].image, Frames(s, job.Target());
      Safe(RenamedEarly(s, job), base, env, job) <==> Inert(newer, frames) || AgreeOff(newer, older, Pages(frames))
  {
    job.PathsDiffer();
    var newer, older, frames := s[job.Staged()].image, s[job.Target()].image, Frames(s, job.Target());
    var after := RenamedEarly(s, job);
    assert Frames(after, job.Target()) == frames;
    assert Logical(after, job.Target()) == Some(Apply(newer, frames));
    InertIff(newer, frames);
    SameReplayIff(newer, older, frames);
    assert HasPreRestore(after, base, env, job) && ChangesOnly(after, base, job.Paths());
  }

  /** Two pages each, and a log that writes one of them: neither condition holds. */
  lemma EarlyRenameMixes()
    ensures var newer: Image, older: Image, frames := map[0 := 2, 1 := 2], map[0 := 1, 1 := 1], [Frame(0, 3)];
      !Inert(newer, frames) && !AgreeOff(newer, older, Pages(frames))
  {
    var newer: Image, older: Image, frames := map[0 := 2, 1 := 2], map[0 := 1, 1 := 1], [Frame(0, 3)];
    assert frames[0].page in Pages(frames) && LastData(frames, 0) == 3;
    assert 1 !in Pages(frames) && newer[1] != older[1];
  }

  // ----------------------------------------------- a backup that has a log of its own

  /** What opening the backup would show is what the restore puts in place. */
  ghost predicate BackupShown(s: Files, base: Files, job: Job) {
    Logical(s, job.Target()) == Logical(base, job.backup)
  }

  /**
   * The checks of a restore read the backup with its log, but only its main file is copied. So a target
   * that was replaced shows what opening the backup would show exactly when the backup's own log changes
   * nothing in its main file.
   */
  lemma BackupLogDroppedIff(s: Files, base: Files, env: Environment, job: Job)
    requires ShowsNew(s, base, env, job)
    ensures job.backup in base && base[job.backup].Main?
    ensures BackupShown(s, base, job) <==> Inert(base[job.backup].image, Frames(base, job.backup))
  {
    InertIff(base[job.backup].image, Frames(base, job.backup));
  }

  /** The same for every recorded state of a run that does not show the old content. */
  lemma BackupLogDroppedInRun(trail: seq<Files>, n: nat, i: nat, base: Files, env: Environment, job: Job)
    requires SwitchesOnce(trail, n, base, env, job) && n <= i < |trail|
    requires Logical(trail[i], job.Target()) != Logical(base, job.Target())
    ensures job.backup in base && base[job.backup].Main?
    ensures BackupShown(trail[i], base, job) <==> Inert(base[job.backup].image, Frames(base, job.backup))
  {
    NeverAMix(trail, n, i, i, base, env, job);
    InertIff(base[job.backup].image, Frames(base, job.backup));
  }

  /** A target, and a copied backup whose last write is still in its log. */
  function LoggedBackup(): Files {
    map["/t" := Main(map[0 := 7]), "/b" := Main(map[0 := 1]), "/b-wal" := Disk.Log([Frame(0, 2)])]
  }

  const LOGGED_PLAN := Plan(Job("/", "t", "/b", "", "now", "1"), true, 0, {}, {})

  lemma LoggedNames()
    ensures var job := LOGGED_PLAN.job;
      && job.Target() == "/t" && Wal("/b") == "/b-wal" && Wal("/t") == "/t-wal" && Shm("/t") == "/t-shm"
      && Backup.SidecarPath("/b") == "/b.sha256"
  {
  }

  lemma LoggedTemporaries()
    ensures LOGGED_PLAN.job.Pre() == "/t.pre-restore-now.db" && LOGGED_PLAN.job.Staged() == "/.t.restore-1"
  {
  }

  lemma LoggedFiles()
    ensures var files, job := LoggedBackup(), LOGGED_PLAN.job;
      && Frames(files, "/b") == [Frame(0, 2)] && Frames(files, "/t") == []
      && Frames(files, job.Pre()) == [] && Frames(files, job.Staged()) == []
      && job.Pre() !in files && Backup.SidecarPath(job.Pre()) !in files && job.Staged() !in files
      && Backup.SidecarPath("/b") !in files && "/t" != job.Pre() && !BesideTarget(job) && FreshTemp(files, job)
  {
    LoggedNames();
    LoggedTemporaries();
    var job := LOGGED_PLAN.job;
    job.PathsDiffer();
    assert |Wal(job.Pre())| > 6 && |Wal(job.Staged())| > 6 && |Backup.SidecarPath(job.Pre())| > 6;
    assert |job.Pre()| > 6 && |job.Staged()| > 6 && |"/b.sha256"| > 6 && |"/t-wal"| == 6;
    assert "/t-wal"[1] != "/b-wal"[1] && "/b"[1] != "/t"[1];
    assert Backup.SidecarPath(job.Pre())[1] == 't' && job.Staged()[1] == '.';
  }

  /** With checks that accept every content, nothing stops that restore. */
  lemma LoggedRunSucceeds(env: Environment)
    requires forall image :: env.sound(image)
    ensures RestoreStop(LoggedBackup(), env, LOGGED_PLAN).None?
  {
    var files := LoggedBackup();
    LoggedNames();
    LoggedFiles();
    assert Ready(files, env, LOGGED_PLAN);
    ReadyLockedStop(files, env, LOGGED_PLAN, map[0 := 1], false);
  }

  /** Opening "/b" shows 2 on its page; the restore succeeds; opening "/t" then shows 1. */
  method RestoreLoggedBackup(env: Environment) returns (d: Drive, r: Result)
    requires forall image :: env.sound(image)
    ensures fresh(d) && r.Ok?
    ensures Logical(LoggedBackup(), "/b") == Some(map[0 := 2]) && Logical(d.files, "/t") == Some(map[0 := 1])
  {
    d := new Drive(LoggedBackup());
    var session := new Lifecycle.Session(0);
    LoggedNames();
    LoggedFiles();
    LoggedRunSucceeds(env);
    LoggedContent();
    r := RestoreDatabase(d, session, env, LOGGED_PLAN);
  }

  lemma LoggedContent()
    ensures Logical(LoggedBackup(), "/b") == Some(map[0 := 2])
  {
    LoggedFiles();
    var image: Image, frames := map[0 := 1], [Frame(0, 2)];
    assert frames[..0] == [] && Apply(image, []) == image && image[0 := 2] == map[0 := 2];
  }

  // ----------------------------------------------------------- backup, then restore

  /**
   * The pre-restore file can be restored in turn: its sidecar accepts it unless the target's name
   * has white space or begins with `*`.
   */
  lemma PreRestoreIsVerifiable(s: Files, base: Files, env: Environment, job: Job)
    requires env.Sha256() && HasPreRestore(s, base, env, job) && Base(job.Pre()) != "/"
    ensures Backup.VerifyBackup(s, env, job.Pre(), "") == Verified
            <==> PlainName(Base(job.Pre())) || AllSpace(Base(job.Pre()))
  {
    SidecarAcceptedIff(env.sha(Main(Logical(base, job.Target()).value)), job.Pre());
  }

  /** What a restore needs besides the backup; the names are those it makes for itself. */
  ghost predicate Ready(files: Files, env: Environment, p: Plan) {
    var t, pre := p.job.Target(), p.job.Pre();
    && p.granted && p.faults == {} && p.backupFaults == {}
    && Logical(files, t).Some? && t != p.job.backup && !BesideTarget(p.job)
    && pre !in files && Backup.SidecarPath(pre) !in files && t != pre
    && Frames(files, pre) == [] && Frames(files, p.job.Staged()) == []
  }

  /** The names that a checksum line can carry. */
  predicate Carried(path: string) { PlainName(Base(path)) || AllSpace(Base(path)) }

  /**
   * Where a ready restore of a sealed backup stops: its own checksum file refuses a name that a line
   * cannot carry, and then both databases must pass their checks as they are found, logs included.
   */
  function SealedStop(files: Files, env: Environment, p: Plan): Option<Step> {
    if !Carried(p.job.backup) then Some(VerifyBackup)
    else if !ChecksOut(files, env, p.job.backup) then Some(CheckBackup)
    else if !ChecksOut(files, env, p.job.Target()) then Some(CheckTarget)
    else None
  }

  lemma ReadyIsBackedUp(files: Files, env: Environment, p: Plan)
    requires Ready(files, env, p) && ChecksOut(files, env, p.job.Target())
    ensures BackupStop(files, env, p).None?
  {
    var pre, image := p.job.Pre(), Logical(files, p.job.Target()).value;
    Backup.PathsDiffer(pre);
    p.job.PathsDiffer();
    var s := Backup.Written(files, env, pre, image);
    assert Frames(s, pre) == [] && Apply(image, []) == image;
    assert Logical(s, pre) == Some(image);
  }

  lemma ReadyIsReplaced(files: Files, env: Environment, p: Plan, image: Image, verified: bool)
    requires Ready(files, env, p) && p.job.backup in files && files[p.job.backup] == Main(image) && env.sound(image)
    ensures ReplaceStop(files, env, p.job, verified, p.faults).None?
  {
    var s := Staged(files, p.job);
    DatabaseFilesDiffer(p.job.Staged());
    assert Frames(s, p.job.Staged()) == [] && Apply(image, []) == image;
    assert Logical(s, p.job.Staged()) == Some(image);
  }

  /** The two files of a successful backup of `image`. */
  predicate Sealed(files: Files, env: Environment, output: string, image: Image) {
    && output in files && Backup.SidecarPath(output) in files && files[output] == Main(image)
    && files[Backup.SidecarPath(output)] == Text(SidecarText(env.sha(Main(image)), output))
  }

  lemma OwnSidecar(files: Files, env: Environment, output: string, image: Image)
    requires env.Sha256() && Base(output) != "/" && Sealed(files, env, output, image)
    ensures var verdict := Backup.VerifyBackup(files, env, output, "");
      if PlainName(Base(output)) || AllSpace(Base(output)) then verdict == Verified else verdict.Refused?
  {
    SidecarAcceptedIff(env.sha(Main(image)), output);
    Backup.VerifyNeverMissing(SidecarText(env.sha(Main(image)), output), env.sha(Main(image)), output);
  }

  lemma {:induction false} ReadyLockedStop(files: Files, env: Environment, p: Plan, image: Image, verified: bool)
    requires Ready(files, env, p) && p.job.backup in files && files[p.job.backup] == Main(image) && env.sound(image)
    ensures LockedStop(files, env, p, verified) == if ChecksOut(files, env, p.job.Target()) then None else Some(CheckTarget)
  {
    if ChecksOut(files, env, p.job.Target()) {
      ReadyIsBackedUp(files, env, p);
      ReadyIsReplaced(files, env, p, image, verified);
    }
  }

  lemma {:induction false} RestoreOfSealed(files: Files, env: Environment, p: Plan, image: Image)
    requires env.Sha256() && p.job.checksum == "" && Base(p.job.backup) != "/"
    requires Sealed(files, env, p.job.backup, image) && env.sound(image) && Ready(files, env, p)
    ensures RestoreStop(files, env, p) == SealedStop(files, env, p)
  {
    OwnSidecar(files, env, p.job.backup, image);
    ReadyLockedStop(files, env, p, image, true);
  }

  /** What a successful backup leaves under its two names, whichever connections to its source have closed since. */
  lemma BackupLeaves(files: Files, env: Environment, source: string, output: string, locked: bool, faults: set<Backup.Step>, after: Files)
    requires Backup.StopsAt(files, env, source, output, locked, faults).None?
    requires Closer(Backup.FilesAfter(files, env, source, output, locked, faults), after, source)
    ensures Logical(files, source).Some? && env.sound(Logical(files, source).value)
    ensures Sealed(after, env, output, Logical(files, source).value)
  {
    Backup.PathsDiffer(output);
    Backup.SidecarIsApart(source, output);
  }

  /** A ready restore of a sealed backup of `image` puts exactly that content in place, or changes nothing. */
  ghost predicate Restored(r: Result, files: Files, before: Files, env: Environment, p: Plan, image: Image) {
    && StepOf(r) == SealedStop(before, env, p)
    && (if r.Ok? then r.verified && Logical(files, p.job.Target()) == Some(image)
        else Logical(files, p.job.Target()) == Logical(before, p.job.Target()))
  }

  /** The restore of a sealed backup. */
  method RestoreSealed(d: Drive, session: Lifecycle.Session, env: Environment, p: Plan, ghost image: Image) returns (r: Result)
    requires d.Recorded() && FreshTemp(d.files, p.job) && session.Valid() && session.held.None? && env.Sha256()
    requires p.job.checksum == "" && Base(p.job.backup) != "/"
    requires Sealed(d.files, env, p.job.backup, image) && env.sound(image) && Ready(d.files, env, p)
    modifies d, session
    ensures Restored(r, d.files, old(d.files), env, p, image)
  {
    RestoreOfSealed(d.files, env, p, image);
    OwnSidecar(d.files, env, p.job.backup, image);
    assert NewContent(d.files, p.job) == Some(image);
    r := RestoreDatabase(d, session, env, p);
  }

  /**
   * Backup and restore are inverse. `origin` is the disk that was backed up. On any later disk that
   * still has the backup's two files, a restore without failing calls stops exactly where `SealedStop`
   * says; when it succeeds, the target shows the content that the source showed, log included, whatever
   * log lies beside the backup by then; otherwise the content stays.
   */
  method BackupThenRestore(d: Drive, session: Lifecycle.Session, env: Environment, p: Plan,
                           ghost origin: Files, ghost source: string, ghost locked: bool,
                           ghost backupFaults: set<Backup.Step>, ghost after: Files) returns (r: Result)
    requires d.Recorded() && FreshTemp(d.files, p.job) && session.Valid() && session.held.None?
    requires env.Sha256() && p.job.checksum == "" && Base(p.job.backup) != "/"
    requires Backup.StopsAt(origin, env, source, p.job.backup, locked, backupFaults).None?
    requires Closer(Backup.FilesAfter(origin, env, source, p.job.backup, locked, backupFaults), after, source)
    requires p.job.backup in d.files && p.job.backup in after && d.files[p.job.backup] == after[p.job.backup]
    requires var sidecar := Backup.SidecarPath(p.job.backup);
      sidecar in d.files && sidecar in after && d.files[sidecar] == after[sidecar]
    requires Ready(d.files, env, p)
    modifies d, session
    ensures Logical(origin, source).Some? && Restored(r, d.files, old(d.files), env, p, Logical(origin, source).value)
  {
    BackupLeaves(origin, env, source, p.job.backup, locked, backupFaults, after);
    r := RestoreSealed(d, session, env, p, Logical(origin, source).value);
  }

  lemma KeptAsideIsSealed(s: Files, base: Files, env: Environment, job: Job)
    requires HasPreRestore(s, base, env, job)
    ensures Sealed(s, env, job.Pre(), Logical(base, job.Target()).value) && env.sound(Logical(base, job.Target()).value)
  {
  }

  /**
   * A restore can be undone. On any disk that a restore of `job` leaves when it switches the content, a
   * restore of the pre-restore file stops exactly where `SealedStop` says: it is refused when the
   * restored database does not pass its check. When it succeeds the old content is back.
   */
  method UndoRestore(d: Drive, session: Lifecycle.Session, env: Environment, p: Plan, ghost base: Files, ghost job: Job)
    returns (r: Result)
    requires d.Recorded() && FreshTemp(d.files, p.job) && session.Valid() && session.held.None? && env.Sha256()
    requires ShowsNew(d.files, base, env, job) && p.job.backup == job.Pre() && p.job.Target() == job.Target()
    requires p.job.checksum == "" && Base(job.Pre()) != "/" && Ready(d.files, env, p)
    modifies d, session
    ensures Logical(base, job.Target()).Some?
    ensures Restored(r, d.files, old(d.files), env, p, Logical(base, job.Target()).value)
  {
    KeptAsideIsSealed(d.files, base, env, job);
    r := RestoreSealed(d, session, env, p, Logical(base, job.Target()).value);
  }
}
