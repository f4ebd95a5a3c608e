/**
 * `restoreDatabaseAt`: replaces a stopped database by a validated backup. Every state of the
 * disk, after any prefix of the steps, shows either the old content or the backup's main file. After an error
 * before the target was closed, the connection closes when the lock is already released.
 */
module Restore {
  import opened Wrappers
  import opened Sidecar
  import opened Disk
  import opened RestoreSteps
  import Backup
  import Lifecycle

  datatype Plan = Plan(
    job: Job,
    granted: bool,                  // the answer of the exclusive try-lock
    copied: nat,                    // frames copied before a checkpoint stops
    faults: set<Step>,
    backupFaults: set<Backup.Step>)

  /** What the result says about the content. */
  ghost predicate ResultFits(r: Result, files: Files, base: Files, env: Environment, job: Job) {
    match r
    case Ok(preRestore, _) =>
      preRestore == job.Pre() && ShowsNew(files, base, env, job) && ChecksOut(files, env, job.Target())
    case Err(step) =>
      if step in {SyncRestored, CheckRestored} then ShowsNew(files, base, env, job) else ShowsOld(files, base, job)
  }

  /**
   * The outcome of some steps that began with `base`: from state `n` on the content switches at most
   * once, the result says which content is there, and no staged file is left.
   */
  ghost predicate Outcome(trail: seq<Files>, files: Files, n: nat, r: Result, base: Files, env: Environment, job: Job) {
    && n <= |trail| && SwitchesOnce(trail, n, base, env, job) && Safe(files, base, env, job)
    && ResultFits(r, files, base, env, job) && job.Staged() !in files
  }

  ghost predicate Fits(d: Drive, n: nat, r: Result, base: Files, env: Environment, job: Job)
    reads d
  {
    d.Recorded() && Outcome(d.trail, d.files, n, r, base, env, job)
  }

  // -------------------------------------------------------- where a restore stops

  function CloseStop(faults: set<Step>): Option<Step> {
    if Checkpoint in faults then Some(Checkpoint)
    else if Busy in faults then Some(Busy)
    else if CloseTarget in faults then Some(CloseTarget)
    else None
  }

  function SwitchStop(files: Files, env: Environment, p: Plan, verified: bool): Option<Step> {
    if CloseStop(p.faults).Some? then CloseStop(p.faults) else ReplaceStop(files, env, p.job, verified, p.faults)
  }

  function LockedStop(files: Files, env: Environment, p: Plan, verified: bool): Option<Step> {
    if CheckTarget in p.faults || !ChecksOut(files, env, p.job.Target()) then Some(CheckTarget)
    else CheckedStop(files, env, p, verified)
  }

  function CheckedStop(files: Files, env: Environment, p: Plan, verified: bool): Option<Step> {
    if BackupStop(files, env, p).Some? then Some(PreRestore) else SwitchStop(files, env, p, verified)
  }

  function BackupStop(files: Files, env: Environment, p: Plan): Option<Backup.Step> {
    Backup.StopsAt(files, env, p.job.Target(), p.job.Pre(), true, p.backupFaults)
  }

  /** The try-lock was granted; the call can also fail. */
  predicate Locked(p: Plan) { p.granted && LockTarget !in p.faults }

  /** Where a restore stops, told from the files it starts with. */
  function RestoreStop(files: Files, env: Environment, p: Plan): Option<Step> {
    var job := p.job;
    if StatBackup in p.faults || job.backup !in files then Some(StatBackup)
    else
      var verdict := Backup.VerifyBackup(files, env, job.backup, job.checksum);
      if VerifyBackup in p.faults || verdict.Refused? then Some(VerifyBackup)
      else if CheckBackup in p.faults || !ChecksOut(files, env, job.backup) then Some(CheckBackup)
      else if OpenTarget in p.faults then Some(OpenTarget)
      else if ConnectTarget in p.faults || Logical(files, job.Target()).None? then Some(ConnectTarget)
      else if SameFile in p.faults || job.backup == job.Target() then Some(SameFile)
      else if StatTarget in p.faults then Some(StatTarget)
      else if !Locked(p) then Some(LockTarget)
      else LockedStop(files, env, p, verdict == Verified)
  }

  function StepOf(r: Result): Option<Step> { match r case Ok(_, _) => None case Err(step) => Some(step) }

  /** Whether the target was closed while the lock was held. */
  predicate TargetClosed(stop: Option<Step>) {
    stop.None? || stop.value !in {CheckTarget, PreRestore, Checkpoint, Busy, CloseTarget}
  }

  /** Whether the target is closed only after the release, or without a lock. */
  predicate ClosesLate(stop: Option<Step>) { stop == Some(LockTarget) || !TargetClosed(stop) }

  // ---------------------------------------------------------- the session's events

  /** What the session does between locking and releasing; the inner backup closes a connection of its own. */
  function LockedEvents(q: nat, stop: Option<Step>, p: Plan): seq<Lifecycle.Event> {
    if stop == Some(CheckTarget) then []
    else InnerEvents(q, p) + if stop == Some(PreRestore) then [] else SwitchEvents(q, stop)
  }

  function SwitchEvents(q: nat, stop: Option<Step>): seq<Lifecycle.Event> {
    if stop in {Some(Checkpoint), Some(Busy)} then [Lifecycle.Write(q)] else [Lifecycle.Write(q), Lifecycle.Closed(q)]
  }

  /** The whole session; deferred calls run backwards, so the release comes before a deferred close. */
  function Events(q: nat, stop: Option<Step>, p: Plan): seq<Lifecycle.Event> {
    if stop in {Some(StatBackup), Some(VerifyBackup), Some(CheckBackup), Some(OpenTarget)} then []
    else if stop in {Some(ConnectTarget), Some(SameFile), Some(StatTarget)} then [Lifecycle.Closed(q)]
    else HoldEvents(q, stop, p) + if ClosesLate(stop) then [Lifecycle.Closed(q)] else []
  }

  /** Before the deferred close: lock, work, release. */
  lemma {:induction false} ExclusiveThenRelease(q: nat, work: seq<Lifecycle.Event>, close: seq<Lifecycle.Event>)
    requires forall e :: e in work ==> e == Lifecycle.Write(q) || e == Lifecycle.Closed(q)
    requires forall e :: e in close ==> e == Lifecycle.Closed(q)
    ensures Lifecycle.ActsExclusively([Lifecycle.Acquired(q, Lifecycle.Exclusive)] + work + [Lifecycle.Released(q)] + close, q)
  {
    var locked := [Lifecycle.Acquired(q, Lifecycle.Exclusive)] + work;
    var all := locked + [Lifecycle.Released(q)] + close;
    forall k | 0 <= k < |all|
      ensures all[k].Closed? || all[k] == Lifecycle.Acquired(q, Lifecycle.Exclusive)
              || Lifecycle.HeldBy(all[..k], q) == Some(Lifecycle.Exclusive)
    {
      if 1 <= k <= |locked| {
        HeldDuring(q, work, k - 1);
        assert all[..k] == [Lifecycle.Acquired(q, Lifecycle.Exclusive)] + work[..k - 1];
      } else if k > |locked| {
        assert all[k] == close[k - |locked| - 1] && all[k] in close;
      }
    }
  }

  lemma {:induction false} HeldDuring(q: nat, work: seq<Lifecycle.Event>, k: nat)
    requires k <= |work| && forall e :: e in work ==> e == Lifecycle.Write(q) || e == Lifecycle.Closed(q)
    ensures Lifecycle.HeldBy([Lifecycle.Acquired(q, Lifecycle.Exclusive)] + work[..k], q) == Some(Lifecycle.Exclusive)
  {
    var log := [Lifecycle.Acquired(q, Lifecycle.Exclusive)] + work[..k];
    if k > 0 {
      HeldDuring(q, work, k - 1);
      assert log[..|log| - 1] == [Lifecycle.Acquired(q, Lifecycle.Exclusive)] + work[..k - 1];
      assert log[|log| - 1] == work[k - 1] && work[k - 1] in work;
    }
  }

  /**
   * A restore never locks, writes or releases while another session holds a lock. It changes the
   * database only when it was granted its lock and the pre-restore backup was made.
   */
  lemma {:induction false} RestoreWorksAlone(q: nat, stop: Option<Step>, p: Plan)
    ensures Lifecycle.WorksAlone(Events(q, stop, p), q)
    ensures Lifecycle.Write(q) in Events(q, stop, p)
       <==> stop !in {Some(StatBackup), Some(VerifyBackup), Some(CheckBackup), Some(OpenTarget), Some(ConnectTarget),
                      Some(SameFile), Some(StatTarget), Some(LockTarget), Some(CheckTarget), Some(PreRestore)}
  {
    var close := if ClosesLate(stop) then [Lifecycle.Closed(q)] else [];
    ExclusiveThenRelease(q, LockedEvents(q, stop, p), close);
    Lifecycle.ExclusiveWorksAlone(Events(q, stop, p), q);
  }

  // --------------------------------------------------------- the pre-restore backup

  lemma HarmlessShowsOld(s: Files, base: Files, job: Job)
    requires Backup.Harmless(s, base, job.Target(), job.Pre())
    ensures ShowsOld(s, base, job)
  {
    job.PathsDiffer();
  }

  lemma {:induction false} BackedUpIsPrepared(done: Files, s: Files, base: Files, env: Environment, job: Job)
    requires ChecksOut(base, env, job.Target()) && job.backup != job.Target() && (job.backup in base || BesideTarget(job))
    requires job.Pre() !in base && Backup.SidecarPath(job.Pre()) !in base
    requires done == Backup.Written(base, env, job.Pre(), Logical(base, job.Target()).value)
    requires Closer(done, s, job.Target())
    ensures Prepared(s, base, env, job)
  {
    job.PathsDiffer();
    assert Frames(done, job.Target()) == Frames(base, job.Target());
    assert Prepared(done, base, env, job);
    PreparedStays(done, s, base, env, job);
  }

  /** The old content is in place, with or without a new backup beside it. */
  ghost predicate Undisturbed(s: Files, base: Files, job: Job) {
    ShowsOld(s, base, job) && (FreshTemp(base, job) ==> job.Staged() !in s)
  }

  /** Takes the pre-restore backup without a lock of its own. */
  method BackUpTarget(d: Drive, session: Lifecycle.Session, env: Environment, p: Plan) returns (ok: bool)
    requires d.Recorded() && session.Valid() && ChecksOut(d.files, env, p.job.Target())
    requires p.job.backup != p.job.Target() && (p.job.backup in d.files || BesideTarget(p.job))
    modifies d, session
    ensures session.Valid() && session.held == old(session.held)
    ensures session.log == old(session.log) + InnerEvents(session.pid, p)
    ensures d.Recorded() && old(d.trail) <= d.trail && OldFrom(d.trail, |old(d.trail)|, old(d.files), p.job)
    ensures ok <==> BackupStop(old(d.files), env, p).None?
    ensures ok ==> Prepared(d.files, old(d.files), env, p.job)
    ensures Undisturbed(d.files, old(d.files), p.job)
  {
    ghost var base, n := d.files, |d.trail|;
    var r := BackUpUnlocked(d, session, env, p);
    ok := r.Ok?;
    InnerBackup(base, d.trail, n, r, env, p);
  }

  /** The inner backup acquires no lock. */
  method BackUpUnlocked(d: Drive, session: Lifecycle.Session, env: Environment, p: Plan) returns (r: Backup.Result)
    requires d.Recorded() && session.Valid()
    modifies d, session
    ensures session.Valid() && session.held == old(session.held)
    ensures session.log == old(session.log) + InnerEvents(session.pid, p)
    ensures d.Recorded() && old(d.trail) <= d.trail
    ensures Backup.HarmlessFrom(d.trail, |old(d.trail)|, old(d.files), p.job.Target(), p.job.Pre())
    ensures r == Backup.Outcome(old(d.files), env, p.job.Target(), p.job.Pre(), true, p.backupFaults)
    ensures Closer(Backup.FilesAfter(old(d.files), env, p.job.Target(), p.job.Pre(), true, p.backupFaults), d.files, p.job.Target())
  {
    ghost var base, locked := d.files, Backup.Locked(false, false, p.backupFaults);
    assert locked == true;
    r := Backup.BackupDatabase(d, session, env, p.job.Target(), p.job.Pre(), false, false, p.backupFaults);
    InnerLog(base, env, session.pid, p);
  }

  lemma InnerBackup(base: Files, trail: seq<Files>, n: nat, r: Backup.Result, env: Environment, p: Plan)
    requires 0 < n <= |trail| && trail[n - 1] == base && ChecksOut(base, env, p.job.Target())
    requires Backup.HarmlessFrom(trail, n, base, p.job.Target(), p.job.Pre())
    requires p.job.backup != p.job.Target() && (p.job.backup in base || BesideTarget(p.job))
    requires r == Backup.Outcome(base, env, p.job.Target(), p.job.Pre(), true, p.backupFaults)
    requires Closer(Backup.FilesAfter(base, env, p.job.Target(), p.job.Pre(), true, p.backupFaults), trail[|trail| - 1], p.job.Target())
    ensures OldFrom(trail, n, base, p.job) && Undisturbed(trail[|trail| - 1], base, p.job)
    ensures r.Ok? <==> BackupStop(base, env, p).None?
    ensures r.Ok? ==> Prepared(trail[|trail| - 1], base, env, p.job)
  {
    HarmlessTrail(trail, n, base, env, p.job);
    InnerPrepares(base, trail[|trail| - 1], r, env, p);
  }

  lemma InnerPrepares(base: Files, s: Files, r: Backup.Result, env: Environment, p: Plan)
    requires ChecksOut(base, env, p.job.Target())
    requires p.job.backup != p.job.Target() && (p.job.backup in base || BesideTarget(p.job))
    requires r == Backup.Outcome(base, env, p.job.Target(), p.job.Pre(), true, p.backupFaults)
    requires Closer(Backup.FilesAfter(base, env, p.job.Target(), p.job.Pre(), true, p.backupFaults), s, p.job.Target())
    ensures r.Ok? <==> BackupStop(base, env, p).None?
    ensures r.Ok? ==> Prepared(s, base, env, p.job)
  {
    if r.Ok? {
      BackedUpIsPrepared(Backup.FilesAfter(base, env, p.job.Target(), p.job.Pre(), true, p.backupFaults), s, base, env, p.job);
    }
  }

  function InnerEvents(q: nat, p: Plan): seq<Lifecycle.Event> {
    if Backup.Open in p.backupFaults then [] else [Lifecycle.Closed(q)]
  }

  lemma InnerLog(base: Files, env: Environment, q: nat, p: Plan)
    ensures Backup.Events(q, BackupStop(base, env, p), false, false, p.backupFaults) == InnerEvents(q, p)
  {
    Backup.UnconnectedStop(base, env, p.job.Target(), p.job.Pre(), true, p.backupFaults);
    assert Backup.Locks(q, false, false, p.backupFaults) + [Lifecycle.Closed(q)] == [Lifecycle.Closed(q)];
  }

  lemma HarmlessTrail(trail: seq<Files>, n: nat, base: Files, env: Environment, job: Job)
    requires 0 < n <= |trail| && trail[n - 1] == base && Backup.HarmlessFrom(trail, n, base, job.Target(), job.Pre())
    ensures OldFrom(trail, n, base, job) && Undisturbed(trail[|trail| - 1], base, job)
  {
    job.PathsDiffer();
    assert Backup.Harmless(base, base, job.Target(), job.Pre());
    forall i | n - 1 <= i < |trail| ensures ShowsOld(trail[i], base, job) {
      HarmlessShowsOld(trail[i], base, job);
    }
    HarmlessShowsOld(trail[|trail| - 1], base, job);
  }

  /** The restore stopped after the pre-restore backup, or not at all. */
  predicate InSwitch(stop: Option<Step>) {
    stop.Some? ==> Late(stop.value) || stop.value in {Checkpoint, Busy, CloseTarget}
  }

  /** Everything after the target was closed, told as a result. */
  method ReplaceContent(d: Drive, ghost base: Files, env: Environment, p: Plan, verified: bool) returns (r: Result)
    requires d.Recorded() && Prepared(d.files, base, env, p.job) && Frames(d.files, p.job.Target()) == []
    requires FreshTemp(base, p.job) && p.job.backup !in {p.job.Staged(), p.job.Target()} && p.job.Staged() !in d.files
    modifies d
    ensures old(d.trail) <= d.trail && Fits(d, |old(d.trail)|, r, base, env, p.job)
    ensures !BesideTarget(p.job) ==> StepOf(r) == ReplaceStop(old(d.files), env, p.job, verified, p.faults)
    ensures r.Err? ==> Late(r.step)
    ensures r.Ok? ==> r.verified == verified
  {
    var stop := ReplaceTarget(d, base, env, p.job, verified, p.faults);
    r := match stop case Some(s) => Err(s) case None => Ok(p.job.Pre(), verified);
  }

  /** From the checkpoint to the end, as far as it runs under the lock. */
  method SwitchContent(d: Drive, session: Lifecycle.Session, ghost base: Files, env: Environment, p: Plan, verified: bool)
    returns (r: Result)
    requires d.Recorded() && Prepared(d.files, base, env, p.job)
    requires FreshTemp(base, p.job) && p.job.backup !in {p.job.Staged(), p.job.Target()} && p.job.Staged() !in d.files
    requires session.Valid() && session.held == Some(Lifecycle.Exclusive)
    modifies d, session
    ensures session.Valid() && session.held == old(session.held)
    ensures session.log == old(session.log) + SwitchEvents(session.pid, StepOf(r))
    ensures old(d.trail) <= d.trail && Fits(d, |old(d.trail)|, r, base, env, p.job)
    ensures p.job.backup in base && p.job.backup !in p.job.Paths() ==> StepOf(r) == SwitchStop(base, env, p, verified)
    ensures InSwitch(StepOf(r))
    ensures r.Ok? ==> r.verified == verified
  {
    ghost var n := |d.trail|;
    var stop := CheckpointAndClose(d, session, base, env, p);
    if stop.Some? {
      FitsUndisturbed(d, n, stop.value, base, env, p.job);
      return Err(stop.value);
    }
    ghost var files, m := d.files, |d.trail|;
    r := ReplaceContent(d, base, env, p, verified);
    OutcomeJoins(d.trail, d.files, n, m, r, base, env, p.job);
    SwitchStopSame(files, base, env, p, verified);
  }

  lemma SwitchStopSame(files: Files, base: Files, env: Environment, p: Plan, verified: bool)
    requires ChangesOnly(files, base, p.job.Paths())
    ensures p.job.backup in base && p.job.backup !in p.job.Paths() ==>
              !BesideTarget(p.job) && ReplaceStop(files, env, p.job, verified, p.faults) == ReplaceStop(base, env, p.job, verified, p.faults)
  {
    if p.job.backup in base && p.job.backup !in p.job.Paths() {
      ReplaceStopSame(files, base, env, p.job, verified, p.faults);
    }
  }

  /** Checkpoints the target and closes it; other connections may close then, too. */
  method CheckpointAndClose(d: Drive, session: Lifecycle.Session, ghost base: Files, env: Environment, p: Plan)
    returns (stop: Option<Step>)
    requires d.Recorded() && Prepared(d.files, base, env, p.job) && p.job.backup != p.job.Target()
    requires session.Valid() && session.held == Some(Lifecycle.Exclusive)
    modifies d, session
    ensures session.Valid() && session.held == old(session.held)
    ensures session.log == old(session.log) + SwitchEvents(session.pid, stop)
    ensures d.Recorded() && old(d.trail) <= d.trail && OldFrom(d.trail, |old(d.trail)|, base, p.job)
    ensures Prepared(d.files, base, env, p.job) && stop == CloseStop(p.faults)
    ensures stop.None? ==> Frames(d.files, p.job.Target()) == []
    ensures p.job.Staged() !in old(d.files) ==> p.job.Staged() !in d.files
  {
    session.WriteDatabase();
    stop := CheckpointTarget(d, base, env, p.job, p.copied, p.faults);
    if stop.Some? {
      return;
    }
    session.Close();
    Interfere(d, base, env, p.job);
    return if CloseTarget in p.faults then Some(CloseTarget) else None;
  }

  /** Nothing before the replacement changes what it works on. */
  lemma ReplaceStopSame(s: Files, base: Files, env: Environment, job: Job, verified: bool, faults: set<Step>)
    requires ChangesOnly(s, base, job.Paths()) && job.backup in base && job.backup !in job.Paths()
    ensures ReplaceStop(s, env, job, verified, faults) == ReplaceStop(base, env, job, verified, faults)
  {
    StagedLogIsApart(job);
    var a, b := Staged(s, job), Staged(base, job);
    assert Frames(a, job.Staged()) == Frames(b, job.Staged());
    assert ChecksOut(a, env, job.Staged()) == ChecksOut(b, env, job.Staged());
  }

  // ------------------------------------------------------------ under the lock

  /** Claims about a start state in which connections had closed hold of the state before that, too. */
  lemma RebasedStates(s: Files, closed: Files, base: Files, env: Environment, job: Job)
    requires Closer(base, closed, job.Target()) && job.backup != job.Target()
    ensures ShowsOld(s, closed, job) ==> ShowsOld(s, base, job)
    ensures ShowsNew(s, closed, env, job) ==> ShowsNew(s, base, env, job)
  {
    job.PathsDiffer();
  }

  lemma RebasedSwitch(trail: seq<Files>, m: nat, closed: Files, base: Files, env: Environment, job: Job)
    requires Closer(base, closed, job.Target()) && job.backup != job.Target() && SwitchesOnce(trail, m, closed, env, job)
    ensures SwitchesOnce(trail, m, base, env, job)
  {
    var k: nat :| SwitchesAt(trail, m, k, closed, env, job);
    forall i | m <= i < k ensures ShowsOld(trail[..k][i], base, job) {
      RebasedStates(trail[..k][i], closed, base, env, job);
    }
    forall i | k <= i < |trail| ensures ShowsNew(trail[i], base, env, job) {
      RebasedStates(trail[i], closed, base, env, job);
    }
    assert SwitchesAt(trail, m, k, base, env, job);
  }

  lemma RebasedStop(closed: Files, base: Files, env: Environment, p: Plan, verified: bool)
    requires Closer(base, closed, p.job.Target()) && p.job.backup in base && p.job.backup != p.job.Target()
    requires !BesideTarget(p.job) && FreshTemp(base, p.job)
    ensures LockedStop(closed, env, p, verified) == LockedStop(base, env, p, verified)
    ensures p.job.backup in closed && NewContent(closed, p.job) == NewContent(base, p.job)
  {
    p.job.PathsDiffer();
    Backup.StopIgnoresCloses(base, closed, env, p.job.Target(), p.job.Pre(), true, p.backupFaults);
    if BackupStop(base, env, p).None? {
      ReplaceStopSame(closed, base, env, p.job, verified, p.faults);
    }
  }

  /** From the check of the target on. */
  method CheckAndSwitch(d: Drive, session: Lifecycle.Session, env: Environment, p: Plan, verified: bool) returns (r: Result)
    requires d.Recorded() && FreshTemp(d.files, p.job) && p.job.backup !in {p.job.Target(), p.job.Staged()}
    requires p.job.backup in d.files || BesideTarget(p.job)
    requires session.Valid() && session.held == Some(Lifecycle.Exclusive)
    modifies d, session
    ensures session.Valid() && session.held == old(session.held)
    ensures session.log == old(session.log) + LockedEvents(session.pid, StepOf(r), p)
    ensures old(d.trail) <= d.trail && Fits(d, |old(d.trail)|, r, old(d.files), env, p.job)
    ensures !BesideTarget(p.job) ==> StepOf(r) == LockedStop(old(d.files), env, p, verified)
    ensures r.Err? ==> Late(r.step) || !TargetClosed(Some(r.step))
    ensures r.Ok? ==> r.verified == verified
  {
    if CheckTarget in p.faults || !ChecksOut(d.files, env, p.job.Target()) {
      FitsUndisturbed(d, |d.trail|, CheckTarget, d.files, env, p.job);
      return Err(CheckTarget);
    }
    r := BackUpAndSwitch(d, session, env, p, verified);
  }

  method BackUpAndSwitch(d: Drive, session: Lifecycle.Session, env: Environment, p: Plan, verified: bool) returns (r: Result)
    requires d.Recorded() && FreshTemp(d.files, p.job) && p.job.backup !in {p.job.Target(), p.job.Staged()}
    requires (p.job.backup in d.files || BesideTarget(p.job)) && ChecksOut(d.files, env, p.job.Target())
    requires session.Valid() && session.held == Some(Lifecycle.Exclusive)
    modifies d, session
    ensures session.Valid() && session.held == old(session.held)
    ensures session.log == old(session.log) + LockedEvents(session.pid, StepOf(r), p)
    ensures old(d.trail) <= d.trail && Fits(d, |old(d.trail)|, r, old(d.files), env, p.job)
    ensures !BesideTarget(p.job) ==> StepOf(r) == CheckedStop(old(d.files), env, p, verified)
    ensures InSwitch(StepOf(r)) || StepOf(r) == Some(PreRestore)
    ensures r.Ok? ==> r.verified == verified
  {
    ghost var base, n := d.files, |d.trail|;
    var ok := BackUpTarget(d, session, env, p);
    if !ok {
      FitsUndisturbed(d, n, PreRestore, base, env, p.job);
      return Err(PreRestore);
    }
    ghost var m := |d.trail|;
    BackupNames(base, env, p);
    r := SwitchContent(d, session, base, env, p, verified);
    OutcomeJoins(d.trail, d.files, n, m, r, base, env, p.job);
    LogJoins(old(session.log), session.pid, StepOf(r), p);
  }

  lemma LogJoins(log: seq<Lifecycle.Event>, q: nat, stop: Option<Step>, p: Plan)
    requires InSwitch(stop)
    ensures log + InnerEvents(q, p) + SwitchEvents(q, stop) == log + LockedEvents(q, stop, p)
  {
  }

  lemma FitsUndisturbed(d: Drive, n: nat, step: Step, base: Files, env: Environment, job: Job)
    requires d.Recorded() && n <= |d.trail| && OldFrom(d.trail, n, base, job) && FreshTemp(base, job)
    requires d.files == base || Undisturbed(d.files, base, job)
    requires step !in {SyncRestored, CheckRestored}
    ensures Fits(d, n, Err(step), base, env, job)
  {
    NoSwitch(d.trail, n, base, env, job);
  }

  /** Old states in front change nothing. */
  lemma OutcomeJoins(trail: seq<Files>, files: Files, n: nat, m: nat, r: Result, base: Files, env: Environment, job: Job)
    requires n <= m && Outcome(trail, files, m, r, base, env, job) && OldFrom(trail[..m], n, base, job)
    ensures Outcome(trail, files, n, r, base, env, job)
  {
    OldThenSwitch(trail, n, m, base, env, job);
  }

  /** A backup that succeeds found its two names free, so they are not the backup that is restored. */
  lemma BackupNames(base: Files, env: Environment, p: Plan)
    requires BackupStop(base, env, p).None? && FreshTemp(base, p.job) && p.job.backup != p.job.Target()
    ensures p.job.backup in base ==> (p.job.backup in p.job.Paths() <==> BesideTarget(p.job))
  {
  }

  /** What runs while the exclusive lock is held. Connections of other sessions may close first. */
  method RestoreUnderLock(d: Drive, session: Lifecycle.Session, env: Environment, p: Plan, verified: bool) returns (r: Result)
    requires d.Recorded() && FreshTemp(d.files, p.job) && p.job.backup in d.files && p.job.backup != p.job.Target()
    requires session.Valid() && session.held == Some(Lifecycle.Exclusive)
    modifies d, session
    ensures session.Valid() && session.held == old(session.held)
    ensures session.log == old(session.log) + LockedEvents(session.pid, StepOf(r), p)
    ensures old(d.trail) <= d.trail && Fits(d, |old(d.trail)|, r, old(d.files), env, p.job)
    ensures !BesideTarget(p.job) ==> StepOf(r) == LockedStop(old(d.files), env, p, verified)
    ensures r.Err? ==> Late(r.step) || !TargetClosed(Some(r.step))
    ensures r.Ok? ==> r.verified == verified
  {
    ghost var base, n := d.files, |d.trail|;
    p.job.PathsDiffer();
    CloseConnections(d, p.job.Target());
    ghost var closed, m := d.files, |d.trail|;
    OldAfterClosing(d.trail, n, base, base, p.job);
    r := CheckAndSwitch(d, session, env, p, verified);
    OutcomeRebased(d.trail, d.files, n, m, r, closed, base, env, p.job);
    if !BesideTarget(p.job) {
      RebasedStop(closed, base, env, p, verified);
    }
  }

  lemma OutcomeRebased(trail: seq<Files>, files: Files, n: nat, m: nat, r: Result, closed: Files, base: Files, env: Environment, job: Job)
    requires n <= m && Outcome(trail, files, m, r, closed, env, job) && OldFrom(trail[..m], n, base, job)
    requires Closer(base, closed, job.Target()) && job.backup != job.Target()
    ensures Outcome(trail, files, n, r, base, env, job)
  {
    RebasedSwitch(trail, m, closed, base, env, job);
    RebasedStates(files, closed, base, env, job);
    OutcomeJoins(trail, files, n, m, r, base, env, job);
  }

  // ------------------------------------------------------------- the whole call

  /** The deferred close of the target, when the lock is released or was never held. */
  method CloseLate(d: Drive, session: Lifecycle.Session, ghost base: Files, ghost n: nat, env: Environment, job: Job, r: Result)
    requires Fits(d, n, r, base, env, job) && session.Valid()
    modifies d, session`log
    ensures session.Valid() && session.log == old(session.log) + [Lifecycle.Closed(session.pid)]
    ensures old(d.trail) <= d.trail && Fits(d, n, r, base, env, job) && Closer(old(d.files), d.files, job.Target())
  {
    ghost var before, trail := d.files, d.trail;
    assert Outcome(trail, before, n, r, base, env, job) && trail[|trail| - 1] == before;
    session.Close();
    CloseConnections(d, job.Target());
    OutcomeAfterClosing(d.trail, d.files, trail, before, n, r, base, env, job);
  }

  lemma OutcomeAfterClosing(trail: seq<Files>, files: Files, earlier: seq<Files>, before: Files, n: nat, r: Result,
                            base: Files, env: Environment, job: Job)
    requires 0 < |earlier| && earlier <= trail && before == earlier[|earlier| - 1]
    requires Outcome(earlier, before, n, r, base, env, job)
    requires CloserFrom(trail, |earlier|, before, job.Target()) && Closer(before, files, job.Target())
    ensures Outcome(trail, files, n, r, base, env, job)
  {
    assert trail[..|earlier|] == earlier;
    SwitchThenClose(trail, n, |earlier|, before, base, env, job);
    ResultStays(r, before, files, base, env, job);
  }

  lemma ResultStays(r: Result, a: Files, b: Files, base: Files, env: Environment, job: Job)
    requires ResultFits(r, a, base, env, job) && Safe(a, base, env, job) && Closer(a, b, job.Target())
    ensures ResultFits(r, b, base, env, job) && Safe(b, base, env, job) && (job.Staged() in a <==> job.Staged() in b)
  {
    job.PathsDiffer();
    if ShowsNew(a, base, env, job) {
      NewStays(a, b, base, env, job);
    }
  }

  /** The steps before the target is opened change nothing at all. */
  function BackupCheckStop(files: Files, env: Environment, p: Plan): Option<Step> {
    if StatBackup in p.faults || p.job.backup !in files then Some(StatBackup)
    else if VerifyBackup in p.faults || BackupVerdict(files, env, p).Refused? then Some(VerifyBackup)
    else if CheckBackup in p.faults || !ChecksOut(files, env, p.job.backup) then Some(CheckBackup)
    else if OpenTarget in p.faults then Some(OpenTarget)
    else None
  }

  function BackupVerdict(files: Files, env: Environment, p: Plan): Verdict {
    Backup.VerifyBackup(files, env, p.job.backup, p.job.checksum)
  }

  /** The steps that only read the backup, before anything is opened. */
  const CHECKS := {StatBackup, VerifyBackup, CheckBackup, OpenTarget}

  /** The checksum file that counts is there and does not record the backup's digest. */
  ghost predicate ChecksumDiffers(files: Files, env: Environment, job: Job)
    requires job.backup in files
  {
    var f := Backup.ChecksumFile(files, job.backup, job.checksum);
    f.Some? && !Backup.Vouches(f.value, env, job.backup, files[job.backup])
  }

  lemma VerdictMeaning(files: Files, env: Environment, p: Plan)
    requires p.job.backup in files
    ensures BackupVerdict(files, env, p).Refused? <==> ChecksumDiffers(files, env, p.job)
    ensures BackupVerdict(files, env, p) == Verified
            <==> Backup.ChecksumFile(files, p.job.backup, p.job.checksum).Some? && !ChecksumDiffers(files, env, p.job)
  {
    Backup.ChecksumDecides(files, env, p.job.backup, p.job.checksum);
  }

  /** The steps on the open target before the lock. */
  function ConnectStop(files: Files, p: Plan): Option<Step> {
    if ConnectTarget in p.faults || Logical(files, p.job.Target()).None? then Some(ConnectTarget)
    else if SameFile in p.faults || p.job.backup == p.job.Target() then Some(SameFile)
    else if StatTarget in p.faults then Some(StatTarget)
    else None
  }

  lemma StopInOrder(files: Files, env: Environment, p: Plan)
    ensures RestoreStop(files, env, p) ==
              if BackupCheckStop(files, env, p).Some? then BackupCheckStop(files, env, p)
              else if ConnectStop(files, p).Some? then ConnectStop(files, p)
              else if !Locked(p) then Some(LockTarget)
              else LockedStop(files, env, p, BackupVerdict(files, env, p) == Verified)
  {
  }

  /** The steps of `RestoreStop` that can fail by themselves; the staged copy is compared only after a checksum was verified. */
  function Calls(verified: bool): set<Step> {
    {StatBackup, VerifyBackup, CheckBackup, OpenTarget, ConnectTarget, SameFile, StatTarget, LockTarget, CheckTarget, Checkpoint, Busy,
     CloseTarget, CreateStaged, CopyStaged, CheckStaged, RemoveWal, RemoveShm, Replace, SyncRestored, CheckRestored}
    + if verified then {Compare} else {}
  }

  /** A restore succeeds exactly when no call fails, it has its lock, no checksum differs, and all five checks of content pass. */
  lemma {:induction false} RestoreSucceedsIff(files: Files, env: Environment, p: Plan)
    requires p.job.backup in files
    ensures var job := p.job; var verified := Backup.ChecksumFile(files, job.backup, job.checksum).Some?;
      RestoreStop(files, env, p).None? <==>
      && p.faults !! Calls(verified) && p.granted && job.backup != job.Target()
      && !ChecksumDiffers(files, env, job)
      && ChecksOut(files, env, job.backup) && ChecksOut(files, env, job.Target())
      && BackupStop(files, env, p).None?
      && ChecksOut(Staged(files, job), env, job.Staged()) && env.sound(files[job.backup].image)
  {
    VerdictMeaning(files, env, p);
    StopInOrder(files, env, p);
    var verified := BackupVerdict(files, env, p) == Verified;
    if ChecksOut(files, env, p.job.backup) {
      LockedSucceedsIff(files, env, p, verified);
    }
  }

  lemma {:induction false} LockedSucceedsIff(files: Files, env: Environment, p: Plan, verified: bool)
    requires ChecksOut(files, env, p.job.backup)
    ensures LockedStop(files, env, p, verified).None? <==>
      && p.faults !! {CheckTarget, Checkpoint, Busy, CloseTarget, CreateStaged, CopyStaged, CheckStaged, RemoveWal, RemoveShm,
                      Replace, SyncRestored, CheckRestored}
      && (verified ==> Compare !in p.faults)
      && ChecksOut(files, env, p.job.Target()) && BackupStop(files, env, p).None?
      && ChecksOut(Staged(files, p.job), env, p.job.Staged()) && env.sound(files[p.job.backup].image)
  {
    ReplaceSucceedsIff(files, env, p.job, verified, p.faults);
  }

  lemma {:induction false} ReplaceSucceedsIff(files: Files, env: Environment, job: Job, verified: bool, faults: set<Step>)
    requires ChecksOut(files, env, job.backup)
    ensures ReplaceStop(files, env, job, verified, faults).None? <==>
      && faults !! {CreateStaged, CopyStaged, CheckStaged, RemoveWal, RemoveShm, Replace, SyncRestored, CheckRestored}
      && (verified ==> Compare !in faults)
      && ChecksOut(Staged(files, job), env, job.Staged()) && env.sound(files[job.backup].image)
  {
  }

  /** Reads the backup and checks it, without touching the target. */
  method CheckBackupFile(d: Drive, env: Environment, p: Plan) returns (stop: Option<Step>)
    ensures stop == BackupCheckStop(d.files, env, p)
  {
    if StatBackup in p.faults || p.job.backup !in d.files {
      return Some(StatBackup);
    }
    var verdict := BackupVerdict(d.files, env, p);
    if VerifyBackup in p.faults || verdict.Refused? {
      return Some(VerifyBackup);
    }
    if CheckBackup in p.faults || !ChecksOut(d.files, env, p.job.backup) {
      return Some(CheckBackup);
    }
    return if OpenTarget in p.faults then Some(OpenTarget) else None;
  }

  method ConnectToTarget(d: Drive, p: Plan) returns (stop: Option<Step>)
    ensures stop == ConnectStop(d.files, p)
  {
    if ConnectTarget in p.faults || Logical(d.files, p.job.Target()).None? {
      return Some(ConnectTarget);
    }
    if SameFile in p.faults || p.job.backup == p.job.Target() {
      return Some(SameFile);
    }
    return if StatTarget in p.faults then Some(StatTarget) else None;
  }

  /** Locks, restores and releases. */
  method LockAndRestore(d: Drive, session: Lifecycle.Session, env: Environment, p: Plan, verified: bool) returns (r: Result)
    requires d.Recorded() && FreshTemp(d.files, p.job) && p.job.backup in d.files && p.job.backup != p.job.Target()
    requires session.Valid() && session.held.None?
    modifies d, session
    ensures session.Valid() && session.held.None?
    ensures session.log == old(session.log) + HoldEvents(session.pid, StepOf(r), p)
    ensures old(d.trail) <= d.trail && Fits(d, |old(d.trail)|, r, old(d.files), env, p.job)
    ensures StepOf(r) == Some(LockTarget) <==> !Locked(p)
    ensures Locked(p) && !BesideTarget(p.job) ==> StepOf(r) == LockedStop(old(d.files), env, p, verified)
    ensures r.Err? ==> Late(r.step) || !TargetClosed(Some(r.step)) || r.step == LockTarget
    ensures r.Ok? ==> r.verified == verified
  {
    if LockTarget in p.faults {
      FitsUndisturbed(d, |d.trail|, LockTarget, d.files, env, p.job);
      assert old(session.log) + [] == old(session.log);
      return Err(LockTarget);
    }
    var ok := session.Acquire(Lifecycle.Exclusive, p.granted);
    if !ok {
      FitsUndisturbed(d, |d.trail|, LockTarget, d.files, env, p.job);
      return Err(LockTarget);
    }
    ghost var q, before := session.pid, old(session.log);
    r := RestoreUnderLock(d, session, env, p, verified);
    session.Release();
    HoldJoins(before, q, StepOf(r), p);
  }

  lemma HoldJoins(log: seq<Lifecycle.Event>, q: nat, stop: Option<Step>, p: Plan)
    requires stop != Some(LockTarget)
    ensures log + [Lifecycle.Acquired(q, Lifecycle.Exclusive)] + LockedEvents(q, stop, p) + [Lifecycle.Released(q)]
         == log + HoldEvents(q, stop, p)
  {
  }

  function HoldEvents(q: nat, stop: Option<Step>, p: Plan): seq<Lifecycle.Event> {
    if stop == Some(LockTarget) then (if LockTarget in p.faults then [] else [Lifecycle.Denied(q, Lifecycle.Exclusive)])
    else [Lifecycle.Acquired(q, Lifecycle.Exclusive)] + LockedEvents(q, stop, p) + [Lifecycle.Released(q)]
  }

  /** With the deferred close, which comes last. */
  method LockRestoreClose(d: Drive, session: Lifecycle.Session, env: Environment, p: Plan, verified: bool) returns (r: Result)
    requires d.Recorded() && FreshTemp(d.files, p.job) && p.job.backup in d.files && p.job.backup != p.job.Target()
    requires session.Valid() && session.held.None?
    modifies d, session
    ensures session.Valid() && session.held.None?
    ensures session.log == old(session.log) + Events(session.pid, StepOf(r), p)
    ensures old(d.trail) <= d.trail && Fits(d, |old(d.trail)|, r, old(d.files), env, p.job)
    ensures !Locked(p) ==> StepOf(r) == Some(LockTarget)
    ensures Locked(p) && !BesideTarget(p.job) ==> StepOf(r) == LockedStop(old(d.files), env, p, verified)
    ensures r.Err? ==> r.step !in CHECKS
    ensures r.Ok? ==> r.verified == verified
  {
    ghost var base, n, before := d.files, |d.trail|, session.log;
    r := LockAndRestore(d, session, env, p, verified);
    if ClosesLate(StepOf(r)) {
      CloseLate(d, session, base, n, env, p.job, r);
    }
    CloseJoins(before, session.pid, StepOf(r), p);
  }

  lemma CloseJoins(log: seq<Lifecycle.Event>, q: nat, stop: Option<Step>, p: Plan)
    requires stop.Some? ==> Late(stop.value) || ClosesLate(stop)
    ensures log + HoldEvents(q, stop, p) + (if ClosesLate(stop) then [Lifecycle.Closed(q)] else []) == log + Events(q, stop, p)
    ensures log + HoldEvents(q, stop, p) == log + HoldEvents(q, stop, p) + []
  {
  }

  /**
   * `restoreDatabaseAt`. For every combination of failing calls, and with connections of other sessions
   * closing between the steps: each state of the disk is safe, an error up to and including a failed
   * rename leaves the old content, an error after it leaves the backup's main file with the old content kept aside,
   * where it stops is exact, and the lock is released on every path.
   */
  method RestoreDatabase(d: Drive, session: Lifecycle.Session, env: Environment, p: Plan) returns (r: Result)
    requires d.Recorded() && FreshTemp(d.files, p.job)
    requires session.Valid() && session.held.None?
    modifies d, session
    ensures session.Valid() && session.held.None?
    ensures session.log == old(session.log) + Events(session.pid, StepOf(r), p)
    ensures old(d.trail) <= d.trail && Fits(d, |old(d.trail)|, r, old(d.files), env, p.job)
    ensures !BesideTarget(p.job) ==> StepOf(r) == RestoreStop(old(d.files), env, p)
    ensures !Locked(p) ==> r.Err?
    ensures p.job.backup in old(d.files) && StatBackup !in p.faults ==>
              (r == Err(VerifyBackup) <==> VerifyBackup in p.faults || ChecksumDiffers(old(d.files), env, p.job))
    ensures r.Err? && r.step in CHECKS ==> d.files == old(d.files) && d.trail == old(d.trail) && session.log == old(session.log)
    ensures r.Ok? ==> p.job.backup in old(d.files) && !ChecksumDiffers(old(d.files), env, p.job)
    ensures r.Ok? ==> (r.verified <==> Backup.ChecksumFile(old(d.files), p.job.backup, p.job.checksum).Some?)
  {
    ghost var base, n := d.files, |d.trail|;
    StopInOrder(base, env, p);
    if p.job.backup in base {
      VerdictMeaning(base, env, p);
    }
    var stop := CheckBackupFile(d, env, p);
    if stop.Some? {
      FitsUndisturbed(d, n, stop.value, base, env, p.job);
      return Err(stop.value);
    }
    stop := ConnectToTarget(d, p);
    if stop.Some? {
      FitsUndisturbed(d, n, stop.value, base, env, p.job);
      r := Err(stop.value);
      CloseLate(d, session, base, n, env, p.job, r);
      return;
    }
    r := LockRestoreClose(d, session, env, p, BackupVerdict(d.files, env, p) == Verified);
  }
}
