/**
 * The lifecycle lock beside a file-backed database. Each operation is a session with its own
 * open lock file; sessions interleave freely, and the kernel grants a lock only when it is
 * compatible with every lock that is held. Closing a connection is an event of its own: the last
 * connection to close copies the log into the main file and removes SQLite's sidecars. Most
 * operations close after they have released the lock, because Go runs deferred calls backwards.
 */
module Lifecycle {
  import opened Wrappers

  datatype Mode = Shared | Exclusive

  datatype Event =
    | Acquired(p: nat, mode: Mode)
    | Denied(p: nat, mode: Mode)
    | Write(p: nat)   // the session changes the content or replaces files of the database
    | Closed(p: nat)  // it closes a connection: files may change, the content does not
    | Released(p: nat)

  /** What session `p` holds after `log`. */
  function HeldBy(log: seq<Event>, p: nat): Option<Mode> {
    if log == [] then None
    else
      match log[|log| - 1]
      case Acquired(q, mode) => if q == p then Some(mode) else HeldBy(log[..|log| - 1], p)
      case Released(q) => if q == p then None else HeldBy(log[..|log| - 1], p)
      case _ => HeldBy(log[..|log| - 1], p)
  }

  /** A session locks once at a time, writes only under a lock, releases what it holds, and closes at any time. */
  predicate Allowed(log: seq<Event>, e: Event) {
    match e
    case Acquired(p, _) => HeldBy(log, p).None?
    case Denied(p, _) => HeldBy(log, p).None?
    case Write(p) => HeldBy(log, p).Some?
    case Closed(p) => true
    case Released(p) => HeldBy(log, p).Some?
  }

  predicate Disciplined(log: seq<Event>) {
    log == [] || (Disciplined(log[..|log| - 1]) && Allowed(log[..|log| - 1], log[|log| - 1]))
  }

  ghost predicate Compatible(log: seq<Event>, p: nat, mode: Mode) {
    forall q: nat :: q != p && HeldBy(log, q).Some? ==> mode.Shared? && HeldBy(log, q).value.Shared?
  }

  /** What `TryLock` and `TryRLock` can answer after `log`. */
  ghost predicate Granted(log: seq<Event>, e: Event) {
    match e
    case Acquired(p, mode) => Compatible(log, p, mode)
    case Denied(p, mode) => !Compatible(log, p, mode)
    case _ => true
  }

  /** An interleaving of disciplined sessions under the kernel's lock. */
  ghost predicate System(log: seq<Event>) {
    log == [] || (System(log[..|log| - 1]) && Allowed(log[..|log| - 1], log[|log| - 1])
                  && Granted(log[..|log| - 1], log[|log| - 1]))
  }

  /** An exclusive holder excludes every other holder. */
  lemma {:induction false} ExclusiveIsAlone(log: seq<Event>, p: nat, q: nat)
    requires System(log) && p != q && HeldBy(log, p) == Some(Exclusive)
    ensures HeldBy(log, q).None?
  {
    if log != [] {
      var before, e := log[..|log| - 1], log[|log| - 1];
      if HeldBy(before, p) == Some(Exclusive) {
        ExclusiveIsAlone(before, p, q);
      } else {
        assert e == Acquired(p, Exclusive) && Compatible(before, p, Exclusive);
      }
    }
  }

  lemma SystemPrefix(log: seq<Event>, k: nat)
    requires System(log) && k <= |log|
    ensures System(log[..k])
    decreases |log|
  {
    if k < |log| {
      SystemPrefix(log[..|log| - 1], k);
      assert log[..|log| - 1][..k] == log[..k];
    } else {
      assert log[..k] == log;
    }
  }

  /** While a session holds the exclusive lock, nobody else changes the content or gets a lock. */
  lemma NoForeignWrite(log: seq<Event>, p: nat, i: nat, j: nat)
    requires System(log) && i <= j < |log|
    requires forall k :: i <= k <= j ==> HeldBy(log[..k], p) == Some(Exclusive)
    ensures forall q: nat :: q != p ==> log[j] != Write(q) && !log[j].Acquired?
  {
    SystemPrefix(log, j + 1);
    assert log[..j + 1][..j] == log[..j];
    SystemPrefix(log, j);
    forall q: nat | q != p ensures log[j] != Write(q) && log[j] != Acquired(q, Shared) && log[j] != Acquired(q, Exclusive) {
      ExclusiveIsAlone(log[..j], p, q);
    }
    assert Allowed(log[..j], log[j]);
  }

  /** Any second session that asks for a lock is refused while the first holds it exclusively. */
  lemma SecondLockIsRefused(log: seq<Event>, p: nat, q: nat, mode: Mode)
    requires System(log) && p != q && HeldBy(log, p) == Some(Exclusive)
    ensures !System(log + [Acquired(q, mode)])
    ensures System(log + [Denied(q, mode)])
  {
    ExclusiveIsAlone(log, p, q);
    assert (log + [Acquired(q, mode)])[..|log|] == log;
    assert (log + [Denied(q, mode)])[..|log|] == log;
  }

  // ------------------------------------------------------------ interleavings

  function Pid(e: Event): nat { e.p }

  /** The events of one session. */
  function Project(log: seq<Event>, p: nat): seq<Event> {
    if log == [] then []
    else
      var e := log[|log| - 1];
      Project(log[..|log| - 1], p) + if Pid(e) == p then [e] else []
  }

  lemma {:induction false} HeldIsLocal(log: seq<Event>, p: nat)
    ensures HeldBy(log, p) == HeldBy(Project(log, p), p)
  {
    if log != [] {
      var before, e := log[..|log| - 1], log[|log| - 1];
      HeldIsLocal(before, p);
      var mine := Project(before, p);
      assert mine + [] == mine && (mine + [e])[..|mine|] == mine;
    }
  }

  ghost predicate GrantsHold(log: seq<Event>) {
    forall k :: 0 <= k < |log| ==> Granted(log[..k], log[k])
  }

  /**
   * Interleaving the logs of sessions that each follow the discipline, with the kernel answering
   * the try-locks, gives a run of the system.
   */
  lemma {:induction false} InterleavingIsSystem(log: seq<Event>)
    requires GrantsHold(log)
    requires forall p: nat :: Disciplined(Project(log, p))
    ensures System(log)
  {
    if log != [] {
      var before, e := log[..|log| - 1], log[|log| - 1];
      assert GrantsHold(before) by {
        forall k | 0 <= k < |before| ensures Granted(before[..k], before[k]) {
          assert before[..k] == log[..k];
        }
      }
      forall p: nat ensures Disciplined(Project(before, p)) {
        assert Disciplined(Project(log, p));
        var mine := Project(before, p);
        assert mine + [] == mine && (mine + [e])[..|mine|] == mine;
      }
      InterleavingIsSystem(before);
      var mine := Project(before, e.p);
      assert Disciplined(Project(log, e.p)) && Project(log, e.p) == mine + [e] && (mine + [e])[..|mine|] == mine;
      HeldIsLocal(before, e.p);
      assert Allowed(before, e);
      assert Granted(log[..|log| - 1], e);
    }
  }

  // ------------------------------------------------- closing beside a foreign lock

  /** At `k`, session `q` closes a connection while another session holds the lock exclusively. */
  ghost predicate Overlaps(log: seq<Event>, q: nat, k: nat) {
    k < |log| && log[k] == Closed(q) && exists p: nat :: p != q && HeldBy(log[..k], p) == Some(Exclusive)
  }

  /** The session's own discipline: it closes only while it holds its lock. */
  predicate ClosesUnderLock(mine: seq<Event>) {
    forall k :: 0 <= k < |mine| && mine[k].Closed? ==> HeldBy(mine[..k], mine[k].p).Some?
  }

  predicate OwnEvents(mine: seq<Event>, q: nat) { forall k :: 0 <= k < |mine| ==> Pid(mine[k]) == q }

  ghost predicate CanOverlap(mine: seq<Event>, q: nat) {
    exists log, k: nat :: System(log) && Project(log, q) == mine && Overlaps(log, q, k)
  }

  lemma {:induction false} ProjectPrefix(log: seq<Event>, k: nat, q: nat)
    requires k < |log| && Pid(log[k]) == q
    ensures var j := |Project(log[..k], q)|;
      j < |Project(log, q)| && Project(log, q)[..j] == Project(log[..k], q) && Project(log, q)[j] == log[k]
  {
    var n := |log| - 1;
    if k < n {
      ProjectPrefix(log[..n], k, q);
      assert log[..n][..k] == log[..k];
    }
  }

  lemma OverlapNeedsNoLock(log: seq<Event>, q: nat, k: nat)
    requires System(log) && Overlaps(log, q, k)
    ensures !ClosesUnderLock(Project(log, q))
  {
    SystemPrefix(log, k);
    var p: nat :| p != q && HeldBy(log[..k], p) == Some(Exclusive);
    ExclusiveIsAlone(log[..k], p, q);
    ProjectPrefix(log, k, q);
    HeldIsLocal(log[..k], q);
  }

  /** A rival `p` that holds the lock exclusively whenever session `q` does not hold it. */
  function Duel(mine: seq<Event>, p: nat): seq<Event> {
    if mine == [] then [Acquired(p, Exclusive)]
    else
      var d, e := Duel(mine[..|mine| - 1], p), mine[|mine| - 1];
      if e.Acquired? then d + [Released(p)] + [e]
      else if e.Released? then d + [e] + [Acquired(p, Exclusive)]
      else d + [e]
  }

  function HeldAfter(log: seq<Event>, e: Event, r: nat): Option<Mode> {
    if e.Acquired? && e.p == r then Some(e.mode) else if e.Released? && e.p == r then None else HeldBy(log, r)
  }

  lemma Append(log: seq<Event>, e: Event)
    ensures System(log + [e]) <==> System(log) && Allowed(log, e) && Granted(log, e)
    ensures Disciplined(log + [e]) <==> Disciplined(log) && Allowed(log, e)
    ensures forall r: nat :: HeldBy(log + [e], r) == HeldAfter(log, e, r)
    ensures forall r: nat :: Project(log + [e], r) == Project(log, r) + if Pid(e) == r then [e] else []
  {
    assert (log + [e])[..|log|] == log;
  }

  /** Who holds what in a duel. */
  ghost predicate Standing(d: seq<Event>, mine: seq<Event>, p: nat, q: nat) {
    && System(d) && Project(d, q) == mine && HeldBy(d, q) == HeldBy(mine, q)
    && HeldBy(d, p) == (if HeldBy(mine, q).None? then Some(Exclusive) else None)
    && forall r: nat :: r != p && r != q ==> HeldBy(d, r).None?
  }

  lemma {:induction false} DuelStands(mine: seq<Event>, p: nat, q: nat)
    requires p != q && Disciplined(mine) && OwnEvents(mine, q)
    ensures Standing(Duel(mine, p), mine, p, q)
  {
    var none: seq<Event> := [];
    if mine == [] {
      Append(none, Acquired(p, Exclusive));
      assert none + [Acquired(p, Exclusive)] == Duel(mine, p);
    } else {
      var before, e := mine[..|mine| - 1], mine[|mine| - 1];
      DuelStands(before, p, q);
      assert mine == before + [e];
      DuelStep(Duel(before, p), before, e, p, q);
    }
  }

  lemma DuelStep(d: seq<Event>, before: seq<Event>, e: Event, p: nat, q: nat)
    requires p != q && Standing(d, before, p, q) && Allowed(before, e) && Pid(e) == q
    ensures var next := if e.Acquired? then d + [Released(p)] + [e]
                        else if e.Released? then d + [e] + [Acquired(p, Exclusive)] else d + [e];
      Standing(next, before + [e], p, q)
  {
    Append(before, e);
    if e.Acquired? {
      Append(d, Released(p));
      Append(d + [Released(p)], e);
      assert Project(d, q) + [] == before;
    } else {
      Append(d, e);
      if e.Released? {
        Append(d + [e], Acquired(p, Exclusive));
        assert before + [e] + [] == before + [e];
      }
    }
  }

  lemma {:induction false} DuelPrefix(mine: seq<Event>, p: nat, j: nat)
    requires j < |mine| && mine[j].Closed?
    ensures var k := |Duel(mine[..j], p)|;
      k < |Duel(mine, p)| && Duel(mine, p)[..k] == Duel(mine[..j], p) && Duel(mine, p)[k] == mine[j]
  {
    var n := |mine| - 1;
    if j < n {
      DuelPrefix(mine[..n], p, j);
      assert mine[..n][..j] == mine[..j];
    }
  }

  lemma {:induction false} DisciplinedPrefix(mine: seq<Event>, j: nat)
    requires Disciplined(mine) && j <= |mine|
    ensures Disciplined(mine[..j])
  {
    if j < |mine| {
      DisciplinedPrefix(mine[..|mine| - 1], j);
      assert mine[..|mine| - 1][..j] == mine[..j];
    } else {
      assert mine[..j] == mine;
    }
  }

  /**
   * The exact condition. Some interleaving lets a session's close fall under a foreign exclusive lock
   * if and only if the session closes at a moment when it holds no lock itself.
   */
  lemma CloseOverlapsIff(mine: seq<Event>, q: nat)
    requires Disciplined(mine) && OwnEvents(mine, q)
    ensures CanOverlap(mine, q) <==> !ClosesUnderLock(mine)
  {
    if CanOverlap(mine, q) {
      var log, k: nat :| System(log) && Project(log, q) == mine && Overlaps(log, q, k);
      OverlapNeedsNoLock(log, q, k);
    }
    if !ClosesUnderLock(mine) {
      var j :| 0 <= j < |mine| && mine[j].Closed? && HeldBy(mine[..j], mine[j].p).None?;
      var p := q + 1;
      DisciplinedPrefix(mine, j);
      DuelStands(mine, p, q);
      DuelStands(mine[..j], p, q);
      DuelPrefix(mine, p, j);
      assert Overlaps(Duel(mine, p), q, |Duel(mine[..j], p)|);
    }
  }

  /** The interleaving for a finished check: it has released, another session locks, and then it closes. */
  lemma CloseAfterRelease(q: nat, p: nat)
    requires p != q
    ensures var log := [Acquired(q, Shared), Released(q), Acquired(p, Exclusive), Closed(q)];
      System(log) && Project(log, q) == [Acquired(q, Shared), Released(q), Closed(q)] && Overlaps(log, q, 3)
  {
    var none: seq<Event> := [];
    var l1 := none + [Acquired(q, Shared)];
    var l2 := l1 + [Released(q)];
    var l3 := l2 + [Acquired(p, Exclusive)];
    Append(none, Acquired(q, Shared));
    Append(l1, Released(q));
    Append(l2, Acquired(p, Exclusive));
    Append(l3, Closed(q));
    var log := [Acquired(q, Shared), Released(q), Acquired(p, Exclusive), Closed(q)];
    assert log == l3 + [Closed(q)] && log[..3] == l3;
    assert HeldBy(log[..3], p) == Some(Exclusive);
  }

  // --------------------------------------------------- working alone, or side by side

  ghost predicate OthersHold(log: seq<Event>, q: nat) { exists p: nat :: p != q && HeldBy(log, p).Some? }

  /** At step `k` of a run, session `q` does something beside a foreign lock other than to be refused or to close. */
  ghost predicate Intrudes(log: seq<Event>, q: nat, k: nat) {
    && k < |log| && Pid(log[k]) == q && OthersHold(log[..k], q)
    && !log[k].Denied? && !log[k].Closed?
  }

  /** In no run of the system does the session lock, write or release while another session holds a lock. */
  ghost predicate WorksAlone(mine: seq<Event>, q: nat) {
    forall log: seq<Event>, k: nat :: System(log) && Project(log, q) == mine ==> !Intrudes(log, q, k)
  }

  /** What makes it so: it acts only under a lock that excludes the others. */
  predicate ActsExclusively(mine: seq<Event>, q: nat) {
    forall k :: 0 <= k < |mine| ==>
      mine[k].Denied? || mine[k].Closed? || mine[k] == Acquired(q, Exclusive) || HeldBy(mine[..k], q) == Some(Exclusive)
  }

  lemma {:induction false} ExclusiveWorksAlone(mine: seq<Event>, q: nat)
    requires ActsExclusively(mine, q)
    ensures WorksAlone(mine, q)
  {
    forall log: seq<Event>, k: nat | System(log) && Project(log, q) == mine ensures !Intrudes(log, q, k) {
      if Intrudes(log, q, k) {
        NoIntrusion(log, mine, q, k);
      }
    }
  }

  lemma {:induction false} NoIntrusion(log: seq<Event>, mine: seq<Event>, q: nat, k: nat)
    requires System(log) && Project(log, q) == mine && ActsExclusively(mine, q) && k < |log| && Pid(log[k]) == q
    ensures !Intrudes(log, q, k)
  {
    if Intrudes(log, q, k) {
      var p: nat :| p != q && HeldBy(log[..k], p).Some?;
      SystemPrefix(log, k + 1);
      assert log[..k + 1][..k] == log[..k];
      ProjectPrefix(log, k, q);
      HeldIsLocal(log[..k], q);
      if HeldBy(log[..k], q) == Some(Exclusive) {
        ExclusiveIsAlone(log[..k], q, p);
      }
    }
  }

  predicate TakesSharedOnly(mine: seq<Event>) { forall k :: 0 <= k < |mine| && mine[k].Acquired? ==> mine[k].mode.Shared? }

  lemma {:induction false} HoldsShared(mine: seq<Event>, q: nat)
    requires TakesSharedOnly(mine)
    ensures HeldBy(mine, q) != Some(Exclusive)
  {
    if mine != [] {
      HoldsShared(mine[..|mine| - 1], q);
    }
  }

  ghost predicate OthersShare(log: seq<Event>, q: nat) {
    forall p: nat :: p != q ==> HeldBy(log, p) != Some(Exclusive)
  }

  lemma PartHoldsShared(log: seq<Event>, p: nat, whole: seq<Event>)
    requires Project(log, p) <= whole && TakesSharedOnly(whole)
    ensures HeldBy(log, p) != Some(Exclusive)
  {
    HeldIsLocal(log, p);
    HoldsShared(Project(log, p), p);
  }

  lemma SharedIsGranted(log: seq<Event>, q: nat)
    requires System(log) && HeldBy(log, q).None? && OthersShare(log, q)
    ensures System(log + [Acquired(q, Shared)]) && !System(log + [Denied(q, Shared)])
  {
    Append(log, Acquired(q, Shared));
    Append(log, Denied(q, Shared));
  }

  // ---------------------------------------------------------------- sessions

  /** What one session does to the lock and the database, as the code runs it. */
  class Session {
    const pid: nat
    var held: Option<Mode>
    ghost var log: seq<Event>

    ghost predicate Valid()
      reads this
    {
      Disciplined(log) && held == HeldBy(log, pid)
    }

    constructor (pid: nat)
      ensures Valid() && held.None? && log == [] && this.pid == pid
    {
      this.pid := pid;
      held := None;
      log := [];
    }

    ghost method Emit(e: Event)
      requires Disciplined(log) && Allowed(log, e)
      modifies this`log
      ensures log == old(log) + [e] && Disciplined(log)
    {
      log := log + [e];
      assert log[..|log| - 1] == old(log);
    }

    /** Closing a connection, with or without a lock. */
    method Close()
      requires Valid()
      modifies this`log
      ensures Valid() && log == old(log) + [Closed(pid)]
    {
      Emit(Closed(pid));
    }

    /** `acquireDatabaseLock`: `granted` is the answer of the try-lock. */
    method Acquire(mode: Mode, granted: bool) returns (ok: bool)
      requires Valid() && held.None?
      modifies this
      ensures Valid() && ok == granted
      ensures held == if ok then Some(mode) else None
      ensures log == old(log) + [if ok then Acquired(pid, mode) else Denied(pid, mode)]
    {
      if !granted {
        Emit(Denied(pid, mode));
        return false;
      }
      held := Some(mode);
      Emit(Acquired(pid, mode));
      return true;
    }

    method Release()
      requires Valid()
      modifies this
      ensures Valid() && held.None?
      ensures log == old(log) + if old(held).Some? then [Released(pid)] else []
    {
      if held.Some? {
        held := None;
        Emit(Released(pid));
      }
    }

    ghost method WriteDatabase()
      requires Valid() && held.Some?
      modifies this`log
      ensures Valid() && log == old(log) + [Write(pid)]
    {
      Emit(Write(pid));
    }
  }

  /** The calls inside one operation that can fail. */
  datatype Fault = Open | Ping | Lock | Pragmas | Check | Migrate  // `Lock`: the call itself fails
  datatype Outcome = Success | InUse | Failed(fault: Fault)

  /** What opening a store does: after a failure it releases first and closes second. */
  function OpenEvents(q: nat, granted: bool, faults: set<Fault>): seq<Event> {
    if Open in faults then []
    else if Lock in faults then [Closed(q)]
    else if !granted then [Denied(q, Shared), Closed(q)]
    else if Pragmas in faults || Ping in faults then [Acquired(q, Shared), Released(q), Closed(q)]
    else [Acquired(q, Shared)]
  }

  function CheckEvents(q: nat, granted: bool, faults: set<Fault>): seq<Event> {
    if Open in faults then []
    else if Ping in faults || Lock in faults then [Closed(q)]
    else if !granted then [Denied(q, Shared), Closed(q)]
    else [Acquired(q, Shared), Released(q), Closed(q)]
  }

  function MigrationEvents(q: nat, granted: bool, faults: set<Fault>): seq<Event> {
    if Open in faults then []
    else if Lock in faults then [Closed(q)]
    else if !granted then [Denied(q, Exclusive), Closed(q)]
    else if Pragmas in faults then [Acquired(q, Exclusive), Released(q), Closed(q)]
    else [Acquired(q, Exclusive), Write(q), Released(q), Closed(q)]
  }

  /** `OpenStore`: the lock stays with the store only when opening succeeds. */
  method OpenStore(s: Session, granted: bool, faults: set<Fault>) returns (r: Outcome)
    requires s.Valid() && s.held.None?
    modifies s
    ensures s.Valid()
    ensures s.held == if r.Success? then Some(Shared) else None
    ensures r.Success? <==> granted && faults !! {Open, Lock, Pragmas, Ping}
    ensures r.InUse? <==> !granted && faults !! {Open, Lock}
    ensures s.log == old(s.log) + OpenEvents(s.pid, granted, faults)
  {
    if Open in faults {
      return Failed(Open);
    }
    if Lock in faults {
      s.Close();
      return Failed(Lock);
    }
    var ok := s.Acquire(Shared, granted);
    if !ok {
      s.Close();
      return InUse;
    }
    if Pragmas in faults {
      s.Release();
      s.Close();
      return Failed(Pragmas);
    }
    if Ping in faults {
      s.Release();
      s.Close();
      return Failed(Ping);
    }
    return Success;
  }

  /** Any statement of an open store that changes tables. */
  method StoreWrite(s: Session)
    requires s.Valid() && s.held == Some(Shared)
    modifies s
    ensures s.Valid() && s.held == Some(Shared) && s.log == old(s.log) + [Write(s.pid)]
  {
    s.WriteDatabase();
  }

  /** `Store.Close` closes first and releases second. */
  method CloseStore(s: Session)
    requires s.Valid() && s.held == Some(Shared)
    modifies s
    ensures s.Valid() && s.held.None? && s.log == old(s.log) + [Closed(s.pid), Released(s.pid)]
  {
    s.Close();
    s.Release();
  }

  /** `CheckDatabase`: never writes; the deferred release runs before the deferred close. */
  method CheckDatabase(s: Session, granted: bool, faults: set<Fault>) returns (r: Outcome)
    requires s.Valid() && s.held.None?
    modifies s
    ensures s.Valid() && s.held.None?
    ensures s.log == old(s.log) + CheckEvents(s.pid, granted, faults)
    ensures r.Success? <==> granted && faults !! {Open, Ping, Lock, Check}
    ensures r.InUse? <==> !granted && faults !! {Open, Ping, Lock}
  {
    if Open in faults {
      return Failed(Open);
    }
    if Ping in faults {
      s.Close();
      return Failed(Ping);
    }
    if Lock in faults {
      s.Close();
      return Failed(Lock);
    }
    var ok := s.Acquire(Shared, granted);
    if !ok {
      s.Close();
      return InUse;
    }
    r := if Check in faults then Failed(Check) else Success;
    s.Release();
    s.Close();
  }

  /**
   * A migration never locks, writes or releases while another session holds a lock: beside one it is
   * refused. It writes exactly when it was granted its lock and no call before the writing failed.
   */
  lemma {:induction false} MigrationWorksAlone(q: nat, granted: bool, faults: set<Fault>)
    ensures WorksAlone(MigrationEvents(q, granted, faults), q)
    ensures Write(q) in MigrationEvents(q, granted, faults) <==> granted && faults !! {Open, Lock, Pragmas}
  {
    var mine := MigrationEvents(q, granted, faults);
    assert ActsExclusively(mine, q) by {
      HeldWhileMigrating(q);
    }
    ExclusiveWorksAlone(mine, q);
  }

  lemma {:induction false} HeldWhileMigrating(q: nat)
    ensures ActsExclusively([Acquired(q, Exclusive), Released(q), Closed(q)], q)
    ensures ActsExclusively([Acquired(q, Exclusive), Write(q), Released(q), Closed(q)], q)
  {
    var locked := [Acquired(q, Exclusive)];
    var without, with := [Acquired(q, Exclusive), Released(q), Closed(q)], [Acquired(q, Exclusive), Write(q), Released(q), Closed(q)];
    assert HeldBy(locked, q) == Some(Exclusive);
    assert without[..1] == locked && with[..1] == locked;
    assert (locked + [Write(q)])[..1] == locked && with[..2] == locked + [Write(q)];
    assert HeldBy(with[..2], q) == Some(Exclusive);
  }

  /** What runs once the lock is held. */
  method MigrateAndLeave(s: Session, faults: set<Fault>) returns (r: Outcome)
    requires s.Valid() && s.held.Some?
    modifies s
    ensures s.Valid() && s.held.None?
    ensures r == if Pragmas in faults then Failed(Pragmas) else if Migrate in faults then Failed(Migrate) else Success
    ensures s.log == old(s.log) + (if Pragmas in faults then [] else [Write(s.pid)]) + [Released(s.pid), Closed(s.pid)]
  {
    r := if Pragmas in faults then Failed(Pragmas) else if Migrate in faults then Failed(Migrate) else Success;
    if Pragmas !in faults {
      s.WriteDatabase();
    }
    s.Release();
    s.Close();
  }

  /** The calls up to the lock. */
  method MigrateLocked(s: Session, granted: bool, faults: set<Fault>) returns (r: Outcome)
    requires s.Valid() && s.held.None?
    modifies s
    ensures s.Valid()
    ensures s.held.None?
    ensures r.Success? <==> granted && faults !! {Open, Lock, Pragmas, Migrate}
    ensures r.InUse? <==> !granted && faults !! {Open, Lock}
    ensures s.log == old(s.log) + MigrationEvents(s.pid, granted, faults)
  {
    if Open in faults {
      return Failed(Open);
    }
    if Lock in faults {
      s.Close();
      return Failed(Lock);
    }
    var ok := s.Acquire(Exclusive, granted);
    if !ok {
      s.Close();
      return InUse;
    }
    r := MigrateAndLeave(s, faults);
  }

  /** `RunMigration`: writes only under the exclusive lock; it releases on every path, and then closes. */
  method RunMigration(s: Session, granted: bool, faults: set<Fault>) returns (r: Outcome)
    requires s.Valid() && s.held.None?
    modifies s
    ensures s.Valid() && s.held.None?
    ensures r.Success? <==> granted && faults !! {Open, Lock, Pragmas, Migrate}
    ensures r.InUse? <==> !granted && faults !! {Open, Lock}
    ensures s.log == old(s.log) + MigrationEvents(s.pid, granted, faults)
    ensures WorksAlone(s.log[|old(s.log)|..], s.pid)
    ensures Write(s.pid) in s.log[|old(s.log)|..] <==> granted && faults !! {Open, Lock, Pragmas}
  {
    ghost var before := s.log;
    r := MigrateLocked(s, granted, faults);
    MigrationWorksAlone(s.pid, granted, faults);
    assert s.log[|before|..] == MigrationEvents(s.pid, granted, faults);
  }

  // ------------------------------------------------------ who closes under the lock

  /** A store never touches the files beside a foreign exclusive lock, however much it writes. */
  lemma {:induction false} StoreClosesUnderLock(q: nat, writes: nat)
    ensures var mine := StoreLife(q, writes) + [Closed(q), Released(q)];
      Disciplined(mine) && OwnEvents(mine, q) && !CanOverlap(mine, q)
  {
    var life := StoreLife(q, writes);
    StoreLifeHolds(q, writes);
    Append(life, Closed(q));
    Append(life + [Closed(q)], Released(q));
    var mine := life + [Closed(q), Released(q)];
    assert mine == life + [Closed(q)] + [Released(q)] && mine[..|life|] == life;
    CloseOverlapsIff(mine, q);
  }

  function StoreLife(q: nat, writes: nat): seq<Event> {
    if writes == 0 then [Acquired(q, Shared)] else StoreLife(q, writes - 1) + [Write(q)]
  }

  lemma {:induction false} StoreLifeHolds(q: nat, writes: nat)
    ensures var life := StoreLife(q, writes);
      Disciplined(life) && OwnEvents(life, q) && HeldBy(life, q) == Some(Shared)
      && forall k :: 0 <= k < |life| ==> !life[k].Closed?
  {
    if writes == 0 {
      var none: seq<Event> := [];
      Append(none, Acquired(q, Shared));
      assert none + [Acquired(q, Shared)] == StoreLife(q, 0);
    } else {
      StoreLifeHolds(q, writes - 1);
      Append(StoreLife(q, writes - 1), Write(q));
    }
  }

  /** A session that has let go of its lock and closes then. */
  lemma ClosesWithoutLock(before: seq<Event>, q: nat)
    requires Disciplined(before) && OwnEvents(before, q) && HeldBy(before, q).None?
    ensures CanOverlap(before + [Closed(q)], q)
  {
    var mine := before + [Closed(q)];
    Append(before, Closed(q));
    assert mine[|before|] == Closed(q) && mine[..|before|] == before;
    CloseOverlapsIff(mine, q);
  }

  lemma SessionStart(q: nat, mode: Mode)
    ensures CanOverlap([Closed(q)], q) && CanOverlap([Denied(q, mode), Closed(q)], q)
    ensures !CanOverlap([], q) && !CanOverlap([Acquired(q, mode)], q)
  {
    var none: seq<Event> := [];
    Append(none, Denied(q, mode));
    Append(none, Acquired(q, mode));
    ClosesWithoutLock(none, q);
    ClosesWithoutLock([Denied(q, mode)], q);
    assert none + [Closed(q)] == [Closed(q)] && none + [Denied(q, mode)] == [Denied(q, mode)];
    assert [Denied(q, mode)] + [Closed(q)] == [Denied(q, mode), Closed(q)];
    assert none + [Acquired(q, mode)] == [Acquired(q, mode)];
    CloseOverlapsIff([Acquired(q, mode)], q);
    CloseOverlapsIff(none, q);
  }

  lemma ReleaseThenClose(q: nat, mode: Mode)
    ensures CanOverlap([Acquired(q, mode), Released(q), Closed(q)], q)
    ensures CanOverlap([Acquired(q, mode), Write(q), Released(q), Closed(q)], q)
  {
    var none: seq<Event> := [];
    var locked := none + [Acquired(q, mode)];
    Append(none, Acquired(q, mode));
    Append(locked, Released(q));
    Append(locked, Write(q));
    Append(locked + [Write(q)], Released(q));
    ClosesWithoutLock(locked + [Released(q)], q);
    ClosesWithoutLock(locked + [Write(q)] + [Released(q)], q);
    assert locked + [Released(q)] + [Closed(q)] == [Acquired(q, mode), Released(q), Closed(q)];
    assert locked + [Write(q)] + [Released(q)] + [Closed(q)] == [Acquired(q, mode), Write(q), Released(q), Closed(q)];
  }

  /** The other operations can, whenever they got as far as opening a connection. */
  lemma OthersCanOverlap(q: nat, granted: bool, faults: set<Fault>)
    ensures CanOverlap(CheckEvents(q, granted, faults), q) <==> Open !in faults
    ensures CanOverlap(MigrationEvents(q, granted, faults), q) <==> Open !in faults
    ensures CanOverlap(OpenEvents(q, granted, faults), q)
       <==> Open !in faults && (!granted || Lock in faults || Pragmas in faults || Ping in faults)
  {
    SessionStart(q, Shared);
    SessionStart(q, Exclusive);
    ReleaseThenClose(q, Shared);
    ReleaseThenClose(q, Exclusive);
  }
}
