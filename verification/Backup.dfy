/**
 * `backupDatabase`: a snapshot and its checksum sidecar, or nothing. The connection to the source
 * closes last, after the lock was released.
 */
module Backup {
  import opened Wrappers
  import opened Sidecar
  import opened Disk
  import Lifecycle

  /** The calls that can fail, in the order in which they run. */
  datatype Step =
    | Open | Connect | LockSource | CheckSource | ResolveSource | SameFile | ReserveOutput
    | ReserveSidecar | Snapshot | SecureOutput | SyncOutput | ValidateOutput | DigestOutput
    | OpenSidecar | WriteSidecar | CloseSidecar | SecureSidecar

  datatype Receipt = Receipt(path: string, sidecar: string, digest: seq<byte>)
  datatype Result = Ok(receipt: Receipt) | Err(step: Step)

  function SidecarPath(output: string): string { output + ".sha256" }

  /** Steps before the output file is reserved. */
  predicate Early(s: Step) {
    s in {Open, Connect, LockSource, CheckSource, ResolveSource, SameFile, ReserveOutput}
  }

  /** The files that a successful backup of the content `image` leaves. */
  function Written(files: Files, env: Environment, output: string, image: Image): Files {
    var main := Main(image);
    files[output := main][SidecarPath(output) := Text(SidecarText(env.sha(main), output))]
  }

  /** The failures that can happen once the output is reserved. */
  function LateStop(files: Files, env: Environment, image: Image, output: string, faults: set<Step>): Option<Step> {
    if ReserveSidecar in faults || SidecarPath(output) in files then Some(ReserveSidecar)
    else if Snapshot in faults then Some(Snapshot)
    else
      var invalid := CheckStop(ChecksOut(Written(files, env, output, image), env, output), faults);
      if invalid.Some? then invalid else SealStop(faults)
  }

  function CheckStop(valid: bool, faults: set<Step>): Option<Step> {
    if SecureOutput in faults then Some(SecureOutput)
    else if SyncOutput in faults then Some(SyncOutput)
    else if ValidateOutput in faults || !valid then Some(ValidateOutput)
    else if DigestOutput in faults then Some(DigestOutput)
    else None
  }

  function SealStop(faults: set<Step>): Option<Step> {
    if OpenSidecar in faults then Some(OpenSidecar)
    else if WriteSidecar in faults then Some(WriteSidecar)
    else if CloseSidecar in faults then Some(CloseSidecar)
    else if SecureSidecar in faults then Some(SecureSidecar)
    else None
  }

  /** The file that the lifecycle lock is taken on; it stays when the lock is released. */
  function LockPath(source: string): string { source + ".lock" }

  /** A name that cannot be reserved: SQLite keeps the sidecars of an open database in place, and the lock its file. */
  predicate Taken(files: Files, source: string, output: string) {
    output in files || output in {Wal(source), Shm(source), LockPath(source)}
  }

  /** Why the backup stops, if it does; `locked` is false when the lock was needed and refused. */
  function StopsAt(files: Files, env: Environment, source: string, output: string, locked: bool, faults: set<Step>): Option<Step> {
    if Open in faults then Some(Open)
    else if Connect in faults || Logical(files, source).None? then Some(Connect)
    else if !locked then Some(LockSource)
    else if CheckSource in faults || !ChecksOut(files, env, source) then Some(CheckSource)
    else if ResolveSource in faults then Some(ResolveSource)
    else if source == output then Some(SameFile)
    else if ReserveOutput in faults || Taken(files, source, output) then Some(ReserveOutput)
    else LateStop(files, env, Logical(files, source).value, output, faults)
  }

  /**
   * The files when the backup is over and its connection is still open: the deferred cleanup removes
   * both names once the output is reserved.
   */
  function FilesAfter(files: Files, env: Environment, source: string, output: string, locked: bool, faults: set<Step>): Files {
    match StopsAt(files, env, source, output, locked, faults)
    case Some(s) => if Early(s) then files else files - {output, SidecarPath(output)}
    case None => Written(files, env, output, Logical(files, source).value)
  }

  lemma PathsDiffer(output: string)
    ensures SidecarPath(output) != output && Wal(output) != SidecarPath(output) && Wal(output) != output
  {
    assert |SidecarPath(output)| == |output| + 7 && |Wal(output)| == |output| + 4;
  }

  /** A source is not shadowed by files that did not exist before. */
  ghost predicate Untouched(d: Drive, base: Files, output: string, from: nat)
    reads d
  {
    from <= |d.trail| && forall i :: from <= i < |d.trail| ==> ChangesOnly(d.trail[i], base, {output, SidecarPath(output)})
  }

  function ReceiptFor(env: Environment, output: string, image: Image): Receipt {
    Receipt(output, SidecarPath(output), env.sha(Main(image)))
  }

  function Answer(stop: Option<Step>, receipt: Receipt): Result {
    match stop case Some(s) => Err(s) case None => Ok(receipt)
  }

  /** What the backup answers. */
  function Outcome(files: Files, env: Environment, source: string, output: string, locked: bool, faults: set<Step>): Result {
    match StopsAt(files, env, source, output, locked, faults)
    case Some(s) => Err(s)
    case None => Ok(ReceiptFor(env, output, Logical(files, source).value))
  }

  /** The files once the snapshot is in place. */
  function Snapshotted(files: Files, output: string, image: Image): Files {
    files[output := Main(image)][SidecarPath(output) := Text("")]
  }

  /** Reserves both names and takes the snapshot; on failure either name may be left behind. */
  method TakeSnapshot(d: Drive, image: Image, output: string, faults: set<Step>) returns (stop: Option<Step>)
    requires d.Recorded() && output !in d.files
    modifies d
    ensures d.Recorded() && old(d.trail) <= d.trail && Untouched(d, old(d.files), output, |old(d.trail)|)
    ensures stop == if ReserveSidecar in faults || SidecarPath(output) in old(d.files) then Some(ReserveSidecar)
                    else if Snapshot in faults then Some(Snapshot) else None
    ensures stop.None? ==> d.files == Snapshotted(old(d.files), output, image)
  {
    PathsDiffer(output);
    d.Put(output, Text(""));
    if ReserveSidecar in faults || SidecarPath(output) in d.files {
      return Some(ReserveSidecar);
    }
    d.Put(SidecarPath(output), Text(""));
    if Snapshot in faults {
      d.Put(output, Text("partial"));
      return Some(Snapshot);
    }
    d.Put(output, Main(image));
    assert d.files == Snapshotted(old(d.files), output, image);
    return None;
  }

  /** Secures, syncs, validates and hashes the snapshot. */
  method CheckSnapshot(d: Drive, env: Environment, output: string, faults: set<Step>)
    returns (stop: Option<Step>, digest: seq<byte>)
    requires output in d.files
    ensures stop == CheckStop(ChecksOut(d.files, env, output), faults)
    ensures digest == env.sha(d.files[output])
  {
    digest := env.sha(d.files[output]);
    if SecureOutput in faults {
      return Some(SecureOutput), digest;
    }
    if SyncOutput in faults {
      return Some(SyncOutput), digest;
    }
    if ValidateOutput in faults || !ChecksOut(d.files, env, output) {
      return Some(ValidateOutput), digest;
    }
    return if DigestOutput in faults then Some(DigestOutput) else None, digest;
  }

  method WriteDigest(d: Drive, output: string, digest: seq<byte>, faults: set<Step>) returns (stop: Option<Step>)
    requires d.Recorded()
    modifies d
    ensures d.Recorded() && old(d.trail) <= d.trail && Untouched(d, old(d.files), output, |old(d.trail)|)
    ensures stop == SealStop(faults)
    ensures stop.None? ==> d.files == old(d.files)[SidecarPath(output) := Text(SidecarText(digest, output))]
  {
    if OpenSidecar in faults {
      return Some(OpenSidecar);
    }
    if WriteSidecar in faults {
      d.Put(SidecarPath(output), Text("partial"));
      return Some(WriteSidecar);
    }
    d.Put(SidecarPath(output), Text(SidecarText(digest, output)));
    if CloseSidecar in faults {
      return Some(CloseSidecar);
    }
    return if SecureSidecar in faults then Some(SecureSidecar) else None;
  }

  lemma SnapshotAlreadyChecks(files: Files, env: Environment, output: string, image: Image)
    ensures ChecksOut(Snapshotted(files, output, image), env, output)
            <==> ChecksOut(Written(files, env, output, image), env, output)
    ensures Snapshotted(files, output, image)[SidecarPath(output) := Text(SidecarText(env.sha(Main(image)), output))]
            == Written(files, env, output, image)
  {
    PathsDiffer(output);
  }

  lemma UntouchedJoins(trail: seq<Files>, base: Files, middle: Files, output: string, n: nat, m: nat)
    requires n <= m <= |trail| && ChangesOnly(middle, base, {output, SidecarPath(output)})
    requires forall i :: n <= i < m ==> ChangesOnly(trail[i], base, {output, SidecarPath(output)})
    requires forall i :: m <= i < |trail| ==> ChangesOnly(trail[i], middle, {output, SidecarPath(output)})
    ensures forall i :: n <= i < |trail| ==> ChangesOnly(trail[i], base, {output, SidecarPath(output)})
  {
  }

  /** The part that runs with `cleanup` armed; on failure both names may be left behind. */
  method WriteBackup(d: Drive, env: Environment, image: Image, output: string, faults: set<Step>) returns (r: Result)
    requires d.Recorded() && output !in d.files
    modifies d
    ensures d.Recorded() && old(d.trail) <= d.trail && Untouched(d, old(d.files), output, |old(d.trail)|)
    ensures r == Answer(LateStop(old(d.files), env, image, output, faults), ReceiptFor(env, output, image))
    ensures r.Ok? ==> d.files == Written(old(d.files), env, output, image)
  {
    var stop := TakeSnapshot(d, image, output, faults);
    if stop.Some? {
      return Err(stop.value);
    }
    ghost var middle, m := d.files, |d.trail|;
    SnapshotAlreadyChecks(old(d.files), env, output, image);
    PathsDiffer(output);
    var digest;
    stop, digest := CheckSnapshot(d, env, output, faults);
    if stop.Some? {
      return Err(stop.value);
    }
    stop := WriteDigest(d, output, digest, faults);
    r := Answer(stop, Receipt(output, SidecarPath(output), digest));
    UntouchedJoins(d.trail, old(d.files), middle, output, |old(d.trail)|, m);
  }

  /** The same, with the deferred cleanup. */
  method WriteOrCleanUp(d: Drive, env: Environment, image: Image, output: string, faults: set<Step>) returns (r: Result)
    requires d.Recorded() && output !in d.files
    modifies d
    ensures d.Recorded() && old(d.trail) <= d.trail && Untouched(d, old(d.files), output, |old(d.trail)|)
    ensures r == Answer(LateStop(old(d.files), env, image, output, faults), ReceiptFor(env, output, image))
    ensures d.files == if r.Ok? then Written(old(d.files), env, output, image)
                       else old(d.files) - {output, SidecarPath(output)}
  {
    r := WriteBackup(d, env, image, output, faults);
    if r.Err? {
      d.Remove(output);
      d.Remove(SidecarPath(output));
      assert d.files == old(d.files) - {output, SidecarPath(output)};
    }
  }

  /** Everything after the optional lock. */
  method BackupLocked(d: Drive, env: Environment, source: string, output: string, faults: set<Step>) returns (r: Result)
    requires d.Recorded() && Logical(d.files, source).Some? && Open !in faults && Connect !in faults
    modifies d
    ensures d.Recorded() && old(d.trail) <= d.trail && Untouched(d, old(d.files), output, |old(d.trail)|)
    ensures r == Answer(StopsAt(old(d.files), env, source, output, true, faults),
                        ReceiptFor(env, output, Logical(old(d.files), source).value))
    ensures d.files == FilesAfter(old(d.files), env, source, output, true, faults)
    ensures source == output || Taken(old(d.files), source, output) ==> d.trail == old(d.trail)
  {
    if CheckSource in faults || !ChecksOut(d.files, env, source) {
      return Err(CheckSource);
    }
    if ResolveSource in faults {
      return Err(ResolveSource);
    }
    if source == output {
      return Err(SameFile);
    }
    if ReserveOutput in faults || Taken(d.files, source, output) {
      return Err(ReserveOutput);
    }
    LateIsNotEarly(d.files, env, Logical(d.files, source).value, output, faults);
    r := WriteOrCleanUp(d, env, Logical(d.files, source).value, output, faults);
  }

  lemma LateIsNotEarly(files: Files, env: Environment, image: Image, output: string, faults: set<Step>)
    ensures var stop := LateStop(files, env, image, output, faults); stop.Some? ==> !Early(stop.value)
  {
  }

  /** Whether the backup goes on after the optional lock; the call can also fail. */
  predicate Locked(acquireLock: bool, granted: bool, faults: set<Step>) {
    acquireLock ==> granted && LockSource !in faults
  }

  /** What the session does: the deferred release runs before the deferred close. */
  function Events(q: nat, stop: Option<Step>, acquireLock: bool, granted: bool, faults: set<Step>): seq<Lifecycle.Event> {
    if stop == Some(Open) then []
    else if stop == Some(Connect) then [Lifecycle.Closed(q)]
    else Locks(q, acquireLock, granted, faults) + [Lifecycle.Closed(q)]
  }

  function Locks(q: nat, acquireLock: bool, granted: bool, faults: set<Step>): seq<Lifecycle.Event> {
    if !acquireLock || LockSource in faults then []
    else if !granted then [Lifecycle.Denied(q, Lifecycle.Shared)]
    else [Lifecycle.Acquired(q, Lifecycle.Shared), Lifecycle.Released(q)]
  }

  /** A backup that takes its own lock closes without it: it can fall under a foreign exclusive lock. */
  lemma BackupCanOverlap(q: nat, stop: Option<Step>, granted: bool, faults: set<Step>)
    ensures Lifecycle.CanOverlap(Events(q, stop, true, granted, faults), q) <==> stop != Some(Open)
  {
    Lifecycle.SessionStart(q, Lifecycle.Shared);
    Lifecycle.ReleaseThenClose(q, Lifecycle.Shared);
    assert [] + [Lifecycle.Closed(q)] == [Lifecycle.Closed(q)];
    assert [Lifecycle.Denied(q, Lifecycle.Shared)] + [Lifecycle.Closed(q)]
        == [Lifecycle.Denied(q, Lifecycle.Shared), Lifecycle.Closed(q)];
    assert [Lifecycle.Acquired(q, Lifecycle.Shared), Lifecycle.Released(q)] + [Lifecycle.Closed(q)]
        == [Lifecycle.Acquired(q, Lifecycle.Shared), Lifecycle.Released(q), Lifecycle.Closed(q)];
  }

  /** All that one session of the server, a check or a backup does. */
  ghost predicate IsReader(whole: seq<Lifecycle.Event>, q: nat) {
    || (exists writes: nat :: whole == Lifecycle.StoreLife(q, writes) + [Lifecycle.Closed(q), Lifecycle.Released(q)])
    || (exists granted, faults :: whole == Lifecycle.OpenEvents(q, granted, faults))
    || (exists granted, faults :: whole == Lifecycle.CheckEvents(q, granted, faults))
    || (exists stop, granted, faults :: whole == Events(q, stop, true, granted, faults))
  }

  lemma {:induction false} StoreTakesShared(q: nat, writes: nat)
    ensures Lifecycle.TakesSharedOnly(Lifecycle.StoreLife(q, writes))
  {
    if writes > 0 {
      StoreTakesShared(q, writes - 1);
    }
  }

  lemma {:induction false} ReaderTakesShared(whole: seq<Lifecycle.Event>, q: nat)
    requires IsReader(whole, q)
    ensures Lifecycle.TakesSharedOnly(whole)
  {
    if exists writes: nat :: whole == Lifecycle.StoreLife(q, writes) + [Lifecycle.Closed(q), Lifecycle.Released(q)] {
      var writes: nat :| whole == Lifecycle.StoreLife(q, writes) + [Lifecycle.Closed(q), Lifecycle.Released(q)];
      StoreTakesShared(q, writes);
    }
  }

  /** So far every other session has done a part of that. */
  ghost predicate AmongReaders(log: seq<Lifecycle.Event>, q: nat) {
    forall p: nat :: p != q ==> exists whole :: IsReader(whole, p) && Lifecycle.Project(log, p) <= whole
  }

  lemma {:induction false} ReadersHoldShared(log: seq<Lifecycle.Event>, q: nat)
    requires AmongReaders(log, q)
    ensures Lifecycle.OthersShare(log, q)
  {
    forall p: nat | p != q ensures Lifecycle.HeldBy(log, p) != Some(Lifecycle.Exclusive) {
      var whole :| IsReader(whole, p) && Lifecycle.Project(log, p) <= whole;
      ReaderTakesShared(whole, p);
      Lifecycle.PartHoldsShared(log, p, whole);
    }
  }

  /** A session that begins like `granted` gets its lock, and the refusal with which `refused` begins cannot come. */
  ghost predicate LetsIn(log: seq<Lifecycle.Event>, granted: seq<Lifecycle.Event>, refused: seq<Lifecycle.Event>) {
    granted != [] && Lifecycle.System(log + granted[..1]) && refused != [] && !Lifecycle.System(log + refused[..1])
  }

  /**
   * However many servers, checks and backups are under way, and wherever each of them has got to: another
   * one gets its lock and cannot be refused.
   */
  lemma {:induction false} ReadersLetEachOtherIn(log: seq<Lifecycle.Event>, q: nat)
    requires Lifecycle.System(log) && Lifecycle.HeldBy(log, q).None? && AmongReaders(log, q)
    ensures LetsIn(log, Lifecycle.OpenEvents(q, true, {}), Lifecycle.OpenEvents(q, false, {}))
    ensures LetsIn(log, Lifecycle.CheckEvents(q, true, {}), Lifecycle.CheckEvents(q, false, {}))
    ensures LetsIn(log, Events(q, None, true, true, {}), Events(q, None, true, false, {}))
  {
    ReadersHoldShared(log, q);
    Lifecycle.SharedIsGranted(log, q);
    FirstEvents(q);
  }

  lemma {:induction false} FirstEvents(q: nat)
    ensures forall e | e in [Lifecycle.OpenEvents(q, true, {}), Lifecycle.CheckEvents(q, true, {}), Events(q, None, true, true, {})] ::
              e != [] && e[..1] == [Lifecycle.Acquired(q, Lifecycle.Shared)]
    ensures forall e | e in [Lifecycle.OpenEvents(q, false, {}), Lifecycle.CheckEvents(q, false, {}), Events(q, None, true, false, {})] ::
              e != [] && e[..1] == [Lifecycle.Denied(q, Lifecycle.Shared)]
  {
  }

  /** Opening, checking and backing up change no content of the database. */
  lemma ReadersNeverWrite(q: nat, stop: Option<Step>, granted: bool, faults: set<Step>, openFaults: set<Lifecycle.Fault>)
    ensures Lifecycle.Write(q) !in Lifecycle.OpenEvents(q, granted, openFaults)
    ensures Lifecycle.Write(q) !in Lifecycle.CheckEvents(q, granted, openFaults)
    ensures Lifecycle.Write(q) !in Events(q, stop, true, granted, faults)
  {
  }

  /**
   * What holds of every state on the way, the closing of connections included: only the two outputs
   * and the source's own files can differ, the source's content is the same, and an output that was
   * there is the same. The one exception is a source that lies under the checksum file's name.
   */
  ghost predicate Harmless(s: Files, base: Files, source: string, output: string) {
    && ChangesOnly(s, base, {output, SidecarPath(output)} + DatabaseFiles(source))
    && (SidecarPath(output) != source ==> Logical(s, source) == Logical(base, source))
    && (output in base && output !in DatabaseFiles(source) ==> output in s && s[output] == base[output])
  }

  lemma OutputsAreHarmless(s: Files, base: Files, source: string, output: string)
    requires ChangesOnly(s, base, {output, SidecarPath(output)}) && source != output && !Taken(base, source, output)
    ensures Harmless(s, base, source, output)
  {
    var n := |SidecarPath(output)| - 1;
    assert SidecarPath(output)[n] == '6' && Wal(source)[|source| + 3] == 'l' && Shm(source)[|source| + 3] == 'm';
  }

  lemma ClosingIsHarmless(s: Files, before: Files, base: Files, source: string, output: string)
    requires Harmless(before, base, source, output) && Closer(before, s, source)
    ensures Harmless(s, base, source, output)
  {
  }

  ghost predicate HarmlessFrom(trail: seq<Files>, n: nat, base: Files, source: string, output: string) {
    forall i :: n <= i < |trail| ==> Harmless(trail[i], base, source, output)
  }

  /** The connection to the source closes, with whatever other connections close by then. */
  method CloseSource(d: Drive, session: Lifecycle.Session, ghost base: Files, ghost n: nat, source: string, output: string)
    requires d.Recorded() && session.Valid() && n <= |d.trail|
    requires HarmlessFrom(d.trail, n, base, source, output) && Harmless(d.files, base, source, output)
    modifies d, session`log
    ensures session.Valid() && session.log == old(session.log) + [Lifecycle.Closed(session.pid)]
    ensures d.Recorded() && old(d.trail) <= d.trail && HarmlessFrom(d.trail, n, base, source, output)
    ensures Closer(old(d.files), d.files, source)
  {
    ghost var before, m := d.files, |d.trail|;
    session.Close();
    CloseConnections(d, source);
    forall i | n <= i < |d.trail| ensures Harmless(d.trail[i], base, source, output) {
      if i >= m {
        ClosingIsHarmless(d.trail[i], before, base, source, output);
      }
    }
  }

  /** Between the optional lock and its release. */
  method BackupUnderLock(d: Drive, env: Environment, source: string, output: string, faults: set<Step>) returns (r: Result)
    requires d.Recorded() && Logical(d.files, source).Some? && Open !in faults && Connect !in faults
    modifies d
    ensures d.Recorded() && old(d.trail) <= d.trail && HarmlessFrom(d.trail, |old(d.trail)|, old(d.files), source, output)
    ensures Harmless(d.files, old(d.files), source, output)
    ensures r == Answer(StopsAt(old(d.files), env, source, output, true, faults),
                        ReceiptFor(env, output, Logical(old(d.files), source).value))
    ensures d.files == FilesAfter(old(d.files), env, source, output, true, faults)
  {
    r := BackupLocked(d, env, source, output, faults);
    if source != output && !Taken(old(d.files), source, output) {
      forall i | |old(d.trail)| <= i < |d.trail| ensures Harmless(d.trail[i], old(d.files), source, output) {
        OutputsAreHarmless(d.trail[i], old(d.files), source, output);
      }
      assert d.files == d.trail[|d.trail| - 1];
      if |d.trail| > |old(d.trail)| {
        OutputsAreHarmless(d.files, old(d.files), source, output);
      }
    }
  }

  lemma UnconnectedStop(files: Files, env: Environment, source: string, output: string, locked: bool, faults: set<Step>)
    ensures Closer(files, files, source)
    ensures var stop := StopsAt(files, env, source, output, locked, faults);
      && (stop == Some(Open) <==> Open in faults)
      && (stop == Some(Connect) <==> Open !in faults && (Connect in faults || Logical(files, source).None?))
      && (stop in {Some(Open), Some(Connect)} ==> FilesAfter(files, env, source, output, locked, faults) == files)
  {
  }

  lemma RefusedStop(files: Files, env: Environment, source: string, output: string, faults: set<Step>)
    ensures Outcome(files, env, source, output, false, faults).Err?
    ensures FilesAfter(files, env, source, output, false, faults) == files
  {
  }

  /** `backupDatabase`; the caller that already holds the exclusive lock passes `acquireLock` false. */
  method BackupDatabase(d: Drive, session: Lifecycle.Session, env: Environment, source: string, output: string,
                        acquireLock: bool, granted: bool, faults: set<Step>) returns (r: Result)
    requires d.Recorded() && session.Valid()
    requires acquireLock ==> session.held.None?
    modifies d, session
    ensures session.Valid() && session.held == old(session.held)
    ensures d.Recorded() && old(d.trail) <= d.trail && HarmlessFrom(d.trail, |old(d.trail)|, old(d.files), source, output)
    ensures r == Outcome(old(d.files), env, source, output, Locked(acquireLock, granted, faults), faults)
    ensures Closer(FilesAfter(old(d.files), env, source, output, Locked(acquireLock, granted, faults), faults), d.files, source)
    ensures acquireLock && (!granted || LockSource in faults) ==> r.Err? && Closer(old(d.files), d.files, source)
    ensures session.log == old(session.log)
              + Events(session.pid, StopsAt(old(d.files), env, source, output, Locked(acquireLock, granted, faults), faults), acquireLock, granted, faults)
  {
    UnconnectedStop(d.files, env, source, output, Locked(acquireLock, granted, faults), faults);
    RefusedStop(d.files, env, source, output, faults);
    if Open in faults {
      return Err(Open);
    }
    if Connect in faults || Logical(d.files, source).None? {
      CloseSource(d, session, d.files, |d.trail|, source, output);
      return Err(Connect);
    }
    ghost var base, n := d.files, |d.trail|;
    r := BackupConnected(d, session, env, source, output, acquireLock, granted, faults);
    CloseSource(d, session, base, n, source, output);
  }

  /** Everything while the connection is open. */
  method BackupConnected(d: Drive, session: Lifecycle.Session, env: Environment, source: string, output: string,
                         acquireLock: bool, granted: bool, faults: set<Step>) returns (r: Result)
    requires d.Recorded() && session.Valid() && (acquireLock ==> session.held.None?)
    requires Logical(d.files, source).Some? && Open !in faults && Connect !in faults
    modifies d, session
    ensures session.Valid() && session.held == old(session.held)
    ensures session.log == old(session.log) + Locks(session.pid, acquireLock, granted, faults)
    ensures d.Recorded() && old(d.trail) <= d.trail && HarmlessFrom(d.trail, |old(d.trail)|, old(d.files), source, output)
    ensures Harmless(d.files, old(d.files), source, output)
    ensures r == Answer(StopsAt(old(d.files), env, source, output, Locked(acquireLock, granted, faults), faults),
                        ReceiptFor(env, output, Logical(old(d.files), source).value))
    ensures d.files == FilesAfter(old(d.files), env, source, output, Locked(acquireLock, granted, faults), faults)
  {
    if !acquireLock {
      r := BackupUnderLock(d, env, source, output, faults);
      return;
    }
    if LockSource in faults {
      return Err(LockSource);
    }
    var ok := session.Acquire(Lifecycle.Shared, granted);
    if !ok {
      return Err(LockSource);
    }
    r := BackupUnderLock(d, env, source, output, faults);
    session.Release();
  }

  // -------------------------------------------------------------- properties

  /** `verifyBackupChecksum` with the default sidecar path or a given one. */
  function VerifyBackup(files: Files, env: Environment, backup: string, checksum: string): Verdict {
    var path := if checksum != "" then checksum else SidecarPath(backup);
    if path !in files then NoSidecar
    else if backup !in files then Refused(Mismatch)
    else if !files[path].Text? then Refused(InvalidDigest)
    else Verify(files[path].content, env.sha(files[backup]), backup)
  }

  /** The checksum file that counts: the one that is named, or else the one beside the backup. */
  function ChecksumFile(files: Files, backup: string, checksum: string): Option<File> {
    var name := if checksum == "" then backup + ".sha256" else checksum;
    if name in files then Some(files[name]) else None
  }

  /** That file records the digest of the backup as it is now. */
  ghost predicate Vouches(f: File, env: Environment, backup: string, main: File) {
    f.Text? && Records(f.content, env.sha(main), backup)
  }

  /** The verdict rests on that file alone: none is no refusal, and one that does not vouch is a refusal. */
  lemma {:induction false} ChecksumDecides(files: Files, env: Environment, backup: string, checksum: string)
    requires backup in files
    ensures var f, v := ChecksumFile(files, backup, checksum), VerifyBackup(files, env, backup, checksum);
      && (v == NoSidecar <==> f.None?)
      && (v == Verified <==> f.Some? && Vouches(f.value, env, backup, files[backup]))
  {
    var f := ChecksumFile(files, backup, checksum);
    if f.Some? && f.value.Text? {
      VerifiedIff(f.value.content, env.sha(files[backup]), backup);
    }
  }

  /**
   * A successful backup holds the source's logical content, log included, also after connections to
   * the source have closed; its sidecar is accepted exactly for names that a checksum line can carry.
   */
  lemma {:induction false} BackupVerifiesIff(files: Files, env: Environment, source: string, output: string, locked: bool, faults: set<Step>, after: Files)
    requires env.Sha256() && Base(output) != "/"
    requires StopsAt(files, env, source, output, locked, faults).None?
    requires Closer(FilesAfter(files, env, source, output, locked, faults), after, source)
    ensures output in after && after[output] == Main(Logical(files, source).value)
    ensures Logical(after, source) == Logical(files, source)
    ensures VerifyBackup(after, env, output, "") == Verified <==> PlainName(Base(output)) || AllSpace(Base(output))
  {
    var done, main := FilesAfter(files, env, source, output, locked, faults), Main(Logical(files, source).value);
    PathsDiffer(output);
    OutputsAreHarmless(done, files, source, output);
    SidecarIsApart(source, output);
    WrittenIsVerifiedIff(after, env, output, main);
  }

  lemma {:induction false} WrittenIsVerifiedIff(files: Files, env: Environment, output: string, main: File)
    requires env.Sha256() && Base(output) != "/" && output in files && files[output] == main
    requires SidecarPath(output) in files && files[SidecarPath(output)] == Text(SidecarText(env.sha(main), output))
    ensures VerifyBackup(files, env, output, "") == Verified <==> PlainName(Base(output)) || AllSpace(Base(output))
  {
    SidecarAcceptedIff(env.sha(main), output);
  }

  lemma SidecarIsApart(source: string, output: string)
    ensures SidecarPath(output) !in {Wal(source), Shm(source)} && Wal(output) != Shm(source)
    ensures source != output ==> Wal(output) != Wal(source)
  {
    var n := |SidecarPath(output)| - 1;
    assert SidecarPath(output)[n] == '6' && Wal(source)[|source| + 3] == 'l' && Shm(source)[|source| + 3] == 'm';
    assert Wal(output)[|output| + 3] == 'l';
    assert Wal(source)[..|source|] == source && Wal(output)[..|output|] == output;
  }

  /** The steps whose calls can fail by themselves. */
  const CALLS := {Open, Connect, CheckSource, ResolveSource, ReserveOutput, ReserveSidecar, Snapshot, SecureOutput, SyncOutput,
                  ValidateOutput, DigestOutput, OpenSidecar, WriteSidecar, CloseSidecar, SecureSidecar}

  /** A backup succeeds exactly when no call fails, it has its lock, both names are free and source and copy are sound. */
  lemma {:induction false} BackupSucceedsIff(files: Files, env: Environment, source: string, output: string, locked: bool, faults: set<Step>)
    ensures StopsAt(files, env, source, output, locked, faults).None? <==>
            && faults !! CALLS && locked && source != output
            && Logical(files, source).Some? && env.sound(Logical(files, source).value)
            && output !in files && output + ".sha256" !in files
            && output != source + "-wal" && output != source + "-shm" && output != source + ".lock"
            && ChecksOut(Written(files, env, output, Logical(files, source).value), env, output)
  {
    if ChecksOut(files, env, source) && locked && source != output && !Taken(files, source, output) {
      var image := Logical(files, source).value;
      LateSucceedsIff(files, env, image, output, faults);
    }
  }

  lemma {:induction false} LateSucceedsIff(files: Files, env: Environment, image: Image, output: string, faults: set<Step>)
    ensures LateStop(files, env, image, output, faults).None? <==>
            && faults !! {ReserveSidecar, Snapshot, SecureOutput, SyncOutput, ValidateOutput, DigestOutput, OpenSidecar,
                          WriteSidecar, CloseSidecar, SecureSidecar}
            && output + ".sha256" !in files && ChecksOut(Written(files, env, output, image), env, output)
  {
  }

  /** It names a step whose call failed, or whose check did not pass. */
  lemma {:induction false} BackupStopIsCause(files: Files, env: Environment, source: string, output: string, locked: bool, faults: set<Step>)
    requires StopsAt(files, env, source, output, locked, faults).Some?
    ensures var step := StopsAt(files, env, source, output, locked, faults).value;
      step in faults ||
      match step
      case Connect => Logical(files, source).None?
      case LockSource => !locked
      case CheckSource => !ChecksOut(files, env, source)
      case SameFile => source == output
      case ReserveOutput => Taken(files, source, output)
      case ReserveSidecar => output + ".sha256" in files
      case ValidateOutput =>
        Logical(files, source).Some? && !ChecksOut(Written(files, env, output, Logical(files, source).value), env, output)
      case _ => false
  {
  }

  /** Closing connections beforehand makes no difference to where a backup stops. */
  lemma {:induction false} StopIgnoresCloses(files: Files, closed: Files, env: Environment, source: string, output: string, locked: bool, faults: set<Step>)
    requires Closer(files, closed, source)
    ensures StopsAt(closed, env, source, output, locked, faults) == StopsAt(files, env, source, output, locked, faults)
  {
    SidecarIsApart(source, output);
    if Logical(files, source).Some? && source != output {
      var image := Logical(files, source).value;
      WrittenLogSame(files, closed, env, source, output, image);
    }
  }

  lemma {:induction false} WrittenLogSame(files: Files, closed: Files, env: Environment, source: string, output: string, image: Image)
    requires Closer(files, closed, source) && source in files && files[source].Main? && source != output
    ensures ChecksOut(Written(closed, env, output, image), env, output) == ChecksOut(Written(files, env, output, image), env, output)
  {
    SidecarIsApart(source, output);
    PathsDiffer(output);
    var a, b := Written(files, env, output, image), Written(closed, env, output, image);
    assert Frames(a, output) == Frames(b, output);
  }

  /** A backup that changes its file afterwards is no longer accepted, unless SHA-256 collides. */
  lemma ChangedBackupIsRefused(files: Files, env: Environment, source: string, output: string, locked: bool, faults: set<Step>, other: File)
    requires env.Sha256() && StopsAt(files, env, source, output, locked, faults).None?
    requires env.sha(other) != env.sha(Main(Logical(files, source).value))
    ensures VerifyBackup(FilesAfter(files, env, source, output, locked, faults)[output := other], env, output, "").Refused?
  {
    PathsDiffer(output);
    var digest := env.sha(Main(Logical(files, source).value));
    if Verify(SidecarText(digest, output), env.sha(other), output) == Verified {
      AcceptedMeansSameDigest(digest, output, env.sha(other), output);
    }
    VerifyNeverMissing(SidecarText(digest, output), env.sha(other), output);
  }

  lemma VerifyNeverMissing(text: string, digest: seq<byte>, path: string)
    ensures Verify(text, digest, path) != NoSidecar
  {
  }

  /**
   * A failed backup leaves the directory as it was, except that it deletes a sidecar which was
   * there before: that happens exactly when the output did not exist, the sidecar did, and the
   * output could be reserved.
   */
  lemma FailedBackupLeavesNothingIff(files: Files, env: Environment, source: string, output: string, locked: bool, faults: set<Step>)
    requires StopsAt(files, env, source, output, locked, faults).Some?
    ensures FilesAfter(files, env, source, output, locked, faults) == files
            <==> Early(StopsAt(files, env, source, output, locked, faults).value) || SidecarPath(output) !in files
    ensures SidecarPath(output) in files && !Early(StopsAt(files, env, source, output, locked, faults).value) ==>
              StopsAt(files, env, source, output, locked, faults) == Some(ReserveSidecar)
              && FilesAfter(files, env, source, output, locked, faults) == files - {SidecarPath(output)}
  {
    var after := FilesAfter(files, env, source, output, locked, faults);
    PathsDiffer(output);
    if !Early(StopsAt(files, env, source, output, locked, faults).value) {
      assert output !in files;
      if SidecarPath(output) in files {
        assert SidecarPath(output) !in after;
        assert after == files - {SidecarPath(output)};
      } else {
        assert after == files;
      }
    }
  }

  /** A directory that holds a database and a checksum file of some other origin. */
  function LeftoverFiles(image: Image): Files { map["/a" := Main(image), "/b.sha256" := Text("kept for later")] }

  /** Backing up to "/b" fails there, and the checksum file is gone. */
  lemma LeftoverSidecarIsDeleted(env: Environment, image: Image)
    requires env.sound(image)
    ensures var files := LeftoverFiles(image);
      && StopsAt(files, env, "/a", "/b", true, {}) == Some(ReserveSidecar)
      && "/b.sha256" in files && "/b.sha256" !in FilesAfter(files, env, "/a", "/b", true, {})
  {
    var files := LeftoverFiles(image);
    assert "/a" + "-wal" == "/a-wal" && "/a" + "-shm" == "/a-shm" && "/b" + ".sha256" == "/b.sha256";
    assert "/a"[1] != "/b"[1] && |"/a"| != |"/a-wal"| && |"/b.sha256"| != |"/a-wal"|;
    assert Frames(files, "/a") == [] && Apply(image, []) == image;
    assert Logical(files, "/a") == Some(image);
  }

  // -------------------------------------------------- a source under the checksum's name

  /**
   * A backup keeps the content of its source exactly when it stops before it reserves the output, or
   * the source does not lie under the name of the output's checksum file, which the cleanup removes.
   */
  lemma SourceKeptIff(files: Files, env: Environment, source: string, output: string, locked: bool, faults: set<Step>)
    requires Logical(files, source).Some?
    ensures var stop := StopsAt(files, env, source, output, locked, faults);
      Logical(FilesAfter(files, env, source, output, locked, faults), source) == Logical(files, source)
      <==> (stop.Some? && Early(stop.value)) || SidecarPath(output) != source
  {
    var stop := StopsAt(files, env, source, output, locked, faults);
    PathsDiffer(output);
    if !(stop.Some? && Early(stop.value)) && SidecarPath(output) != source {
      OutputsAreHarmless(FilesAfter(files, env, source, output, locked, faults), files, source, output);
    }
  }

  /** A database at "/b.sha256", and nothing else. */
  function NamedLikeChecksum(image: Image): Files { map["/b.sha256" := Main(image)] }

  /** Backing it up to "/b" fails, and the database is gone. */
  lemma SourceIsDeleted(env: Environment, image: Image)
    requires env.sound(image)
    ensures var files := NamedLikeChecksum(image);
      && StopsAt(files, env, "/b.sha256", "/b", true, {}) == Some(ReserveSidecar)
      && Logical(files, "/b.sha256") == Some(image)
      && Logical(FilesAfter(files, env, "/b.sha256", "/b", true, {}), "/b.sha256").None?
  {
    var files := NamedLikeChecksum(image);
    assert "/b" + ".sha256" == "/b.sha256" && |"/b"| == 2;
    DatabaseFilesDiffer("/b.sha256");
    assert Frames(files, "/b.sha256") == [] && Apply(image, []) == image;
    assert Logical(files, "/b.sha256") == Some(image);
    assert !Taken(files, "/b.sha256", "/b");
    SourceKeptIff(files, env, "/b.sha256", "/b", true, {});
  }
}
