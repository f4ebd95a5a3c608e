/** Servers, their owners, and the API keys with which their agents report. */
module ApiKeys {
  import opened Wrappers
  import opened Sequences

  /** A row of `server_api_keys`. */
  datatype KeyRow = KeyRow(server: string, hash: string, revokedAt: Option<int>)

  /** Tables `users`, `servers` (each with its owner) and `server_api_keys`. */
  datatype Database = Database(users: set<int>, servers: map<string, int>, keys: seq<KeyRow>)

  datatype Outcome = Done | NotOwned | Refused  // `Refused` is a violated constraint, rolled back

  /** `hash` is the digest of the presented key; `user` for `Bootstrap` is the id its upsert returns. */
  datatype Event =
    | AddUser(user: int)
    | Bootstrap(email: string, user: int, server: string, hash: string)
    | CreateServer(user: int, server: string, hash: string)
    | RotateAPIKey(user: int, server: string, hash: string, now: int)
    | RevokeAPIKey(user: int, server: string, now: int)
    | DeleteServer(user: int, server: string)

  // ----------------------------------------------------------------- statements

  predicate HasHash(keys: seq<KeyRow>, hash: string) { exists i :: 0 <= i < |keys| && keys[i].hash == hash }

  /** No row has the hash, revoked rows included. */
  ghost predicate NewHash(keys: seq<KeyRow>, hash: string) { forall k :: k in keys ==> k.hash != hash }

  lemma NewHashIff(keys: seq<KeyRow>, hash: string)
    ensures NewHash(keys, hash) <==> !HasHash(keys, hash)
  {
    if i :| 0 <= i < |keys| && keys[i].hash == hash {
      assert keys[i] in keys;
    }
  }

  /** The active rows of the server are revoked at `now`, and nothing else is changed. */
  predicate RevokesActive(before: seq<KeyRow>, after: seq<KeyRow>, server: string, now: int) {
    && |after| == |before|
    && forall i :: 0 <= i < |before| ==>
         after[i] == if before[i].server == server && before[i].revokedAt == None then KeyRow(server, before[i].hash, Some(now))
                     else before[i]
  }

  predicate Owns(db: Database, user: int, server: string) { server in db.servers && db.servers[server] == user }

  /** `UPDATE … SET revoked_at … WHERE server_id … AND revoked_at IS NULL`. */
  function RevokeAll(keys: seq<KeyRow>, server: string, now: int): (r: seq<KeyRow>)
    ensures |r| == |keys|
  {
    seq(|keys|, i requires 0 <= i < |keys| =>
      if keys[i].server == server && keys[i].revokedAt.None? then keys[i].(revokedAt := Some(now)) else keys[i])
  }

  function NotFor(server: string): KeyRow -> bool { (k: KeyRow) => k.server != server }

  /** The row that answers `APIKeyValid`. */
  predicate Accepts(k: KeyRow, server: string, hash: string) {
    k.server == server && k.hash == hash && k.revokedAt.None?
  }

  predicate Valid(db: Database, server: string, hash: string) {
    exists i :: 0 <= i < |db.keys| && Accepts(db.keys[i], server, hash)
  }

  // ----------------------------------------------------------------- operations

  function Answer(db: Database, e: Event): Outcome {
    match e
    case AddUser(_) => Done
    case Bootstrap(_, _, _, _) => Done
    case CreateServer(user, server, hash) =>
      if server in db.servers || user !in db.users || HasHash(db.keys, hash) then Refused else Done
    case RotateAPIKey(user, server, hash, _) =>
      if !Owns(db, user, server) then NotOwned else if HasHash(db.keys, hash) then Refused else Done
    case RevokeAPIKey(user, server, _) => if Owns(db, user, server) then Done else NotOwned
    case DeleteServer(user, server) => if Owns(db, user, server) then Done else NotOwned
  }

  function Next(db: Database, e: Event): Database {
    if Answer(db, e) != Done then db
    else
      match e
      case AddUser(user) => db.(users := db.users + {user})
      case Bootstrap(email, user, server, hash) =>
        if email == "" then db
        else if server == "" then db.(users := db.users + {user})
        else
          Database(db.users + {user}, db.servers[server := user],
            if HasHash(db.keys, hash) then db.keys else db.keys + [KeyRow(server, hash, None)])
      case CreateServer(user, server, hash) =>
        Database(db.users, db.servers[server := user], db.keys + [KeyRow(server, hash, None)])
      case RotateAPIKey(_, server, hash, now) =>
        db.(keys := RevokeAll(db.keys, server, now) + [KeyRow(server, hash, None)])
      case RevokeAPIKey(_, server, now) => db.(keys := RevokeAll(db.keys, server, now))
      case DeleteServer(_, server) => db.(servers := db.servers - {server}, keys := Filter(NotFor(server), db.keys))
  }

  function Run(trace: seq<Event>): Database {
    if trace == [] then Database({}, map[], []) else Next(Run(trace[..|trace| - 1]), trace[|trace| - 1])
  }

  /** Each method works on copies and commits at its end; a constraint violation returns before that. */
  class KeyStore {
    var users: set<int>
    var servers: map<string, int>
    var keys: seq<KeyRow>

    function State(): Database
      reads this
    {
      Database(users, servers, keys)
    }

    constructor ()
      ensures State() == Run([])
    {
      users, servers, keys := {}, map[], [];
    }

    method CreateUser(user: int)
      modifies this
      ensures State() == Next(old(State()), AddUser(user))
    {
      users := users + {user};
    }

    method Bootstrap(email: string, user: int, server: string, hash: string)
      modifies this
      ensures State() == Next(old(State()), Event.Bootstrap(email, user, server, hash))
      ensures users == if email == "" then old(users) else old(users) + {user}
      ensures servers == if email == "" || server == "" then old(servers) else old(servers)[server := user]
      ensures email == "" || server == "" || !NewHash(old(keys), hash) ==> keys == old(keys)
      ensures email != "" && server != "" && NewHash(old(keys), hash) ==> keys == old(keys) + [KeyRow(server, hash, None)]
    {
      NewHashIff(keys, hash);
      if email == "" {
        return;
      }
      var newServers, newKeys := servers, keys;
      if server != "" {
        newServers := newServers[server := user];
        if !HasHash(newKeys, hash) {
          newKeys := newKeys + [KeyRow(server, hash, None)];
        }
      }
      users, servers, keys := users + {user}, newServers, newKeys;
    }

    method CreateServer(user: int, server: string, hash: string) returns (r: Outcome)
      modifies this
      ensures r == Answer(old(State()), Event.CreateServer(user, server, hash))
      ensures State() == Next(old(State()), Event.CreateServer(user, server, hash))
      ensures r == Done <==> server !in old(servers) && user in old(users) && NewHash(old(keys), hash)
      ensures users == old(users)
      ensures servers == if r == Done then old(servers)[server := user] else old(servers)
      ensures keys == if r == Done then old(keys) + [KeyRow(server, hash, None)] else old(keys)
    {
      NewHashIff(keys, hash);
      if server in servers || user !in users {
        return Refused;
      }
      var newServers := servers[server := user];
      if HasHash(keys, hash) {
        return Refused;
      }
      servers, keys := newServers, keys + [KeyRow(server, hash, None)];
      return Done;
    }

    method RotateAPIKey(user: int, server: string, hash: string, now: int) returns (r: Outcome)
      modifies this
      ensures r == Answer(old(State()), Event.RotateAPIKey(user, server, hash, now))
      ensures State() == Next(old(State()), Event.RotateAPIKey(user, server, hash, now))
      ensures r == NotOwned <==> !(server in old(servers) && old(servers)[server] == user)
      ensures r == Done <==> r != NotOwned && NewHash(old(keys), hash)
      ensures users == old(users) && servers == old(servers) && (r != Done ==> keys == old(keys))
      ensures r == Done ==> var n := |old(keys)|;
        |keys| == n + 1 && keys[n] == KeyRow(server, hash, None) && RevokesActive(old(keys), keys[..n], server, now)
    {
      NewHashIff(keys, hash);
      if server !in servers || servers[server] != user {
        return NotOwned;
      }
      var newKeys := RevokeAll(keys, server, now);
      RevokeKeepsHashes(keys, server, now, hash);
      if HasHash(newKeys, hash) {
        return Refused;
      }
      keys := newKeys + [KeyRow(server, hash, None)];
      assert keys[..|newKeys|] == newKeys;
      return Done;
    }

    method RevokeAPIKey(user: int, server: string, now: int) returns (r: Outcome)
      modifies this
      ensures r == Answer(old(State()), Event.RevokeAPIKey(user, server, now))
      ensures State() == Next(old(State()), Event.RevokeAPIKey(user, server, now))
      ensures r == if server in old(servers) && old(servers)[server] == user then Done else NotOwned
      ensures users == old(users) && servers == old(servers)
      ensures if r == Done then RevokesActive(old(keys), keys, server, now) else keys == old(keys)
    {
      if server !in servers || servers[server] != user {
        return NotOwned;
      }
      keys := RevokeAll(keys, server, now);
      return Done;
    }

    method DeleteServer(user: int, server: string) returns (r: Outcome)
      modifies this
      ensures r == Answer(old(State()), Event.DeleteServer(user, server))
      ensures State() == Next(old(State()), Event.DeleteServer(user, server))
      ensures r == if server in old(servers) && old(servers)[server] == user then Done else NotOwned
      ensures users == old(users)
      ensures servers == if r == Done then old(servers) - {server} else old(servers)
      ensures r != Done ==> keys == old(keys)
      ensures r == Done ==> forall k :: k in keys <==> k in old(keys) && k.server != server
    {
      FilterMembers(NotFor(server), keys);
      if server !in servers || servers[server] != user {
        return NotOwned;
      }
      servers, keys := servers - {server}, Filter(NotFor(server), keys);
      return Done;
    }

    method APIKeyValid(server: string, hash: string) returns (r: bool)
      ensures r <==> Valid(State(), server, hash)
      ensures r <==> KeyRow(server, hash, None) in keys
    {
      r := false;
      for i := 0 to |keys|
        invariant r <==> exists j :: 0 <= j < i && Accepts(keys[j], server, hash)
      {
        r := r || Accepts(keys[i], server, hash);
      }
    }
  }

  lemma RevokeKeepsHashes(keys: seq<KeyRow>, server: string, now: int, hash: string)
    ensures HasHash(RevokeAll(keys, server, now), hash) <==> HasHash(keys, hash)
  {
    var r := RevokeAll(keys, server, now);
    if i :| 0 <= i < |keys| && keys[i].hash == hash {
      assert r[i].hash == hash;
    }
  }

  // ------------------------------------------------------------------ invariant

  predicate UniqueHashes(keys: seq<KeyRow>) {
    forall i, j :: 0 <= i < j < |keys| ==> keys[i].hash != keys[j].hash
  }

  predicate Consistent(db: Database) {
    && UniqueHashes(db.keys)
    && (forall i :: 0 <= i < |db.keys| ==> db.keys[i].server in db.servers)
    && (forall s :: s in db.servers ==> db.servers[s] in db.users)
  }

  lemma {:induction false} FilterUnique(p: KeyRow -> bool, keys: seq<KeyRow>)
    requires UniqueHashes(keys)
    ensures UniqueHashes(Filter(p, keys))
  {
    if keys != [] {
      var init := keys[..|keys| - 1];
      FilterUnique(p, init);
      var r := Filter(p, init);
      forall i | 0 <= i < |r| ensures r[i].hash != keys[|keys| - 1].hash {
        FilterMember(p, init, r[i]);
        assert r[i] in r;
      }
    }
  }

  /** In every run a key hash is stored once, every key row's server exists, and so does every owner. */
  lemma {:induction false} EveryRunIsConsistent(trace: seq<Event>)
    ensures Consistent(Run(trace))
  {
    if trace != [] {
      EveryRunIsConsistent(trace[..|trace| - 1]);
      StepIsConsistent(Run(trace[..|trace| - 1]), trace[|trace| - 1]);
    }
  }

  lemma StepIsConsistent(db: Database, e: Event)
    requires Consistent(db)
    ensures Consistent(Next(db, e))
  {
    if e.DeleteServer? {
      FilterUnique(NotFor(e.server), db.keys);
      FilterMembers(NotFor(e.server), db.keys);
      var r := Filter(NotFor(e.server), db.keys);
      forall i | 0 <= i < |r| ensures r[i].server != e.server && r[i].server in db.servers {
        assert r[i] in r;
      }
    }
  }

  /** A key opens at most one server. */
  lemma KeyOpensOneServer(trace: seq<Event>, hash: string, one: string, two: string)
    requires Valid(Run(trace), one, hash) && Valid(Run(trace), two, hash)
    ensures one == two
  {
    EveryRunIsConsistent(trace);
  }

  // ------------------------------------------------------------ issue and withdrawal

  /** The step stores a new active key for the server. */
  predicate Issues(db: Database, e: Event, server: string, hash: string) {
    match e
    case Bootstrap(email, _, s, h) => email != "" && s != "" && s == server && h == hash && !HasHash(db.keys, hash)
    case CreateServer(_, s, h) => s == server && h == hash && Answer(db, e).Done?
    case RotateAPIKey(_, s, h, _) => s == server && h == hash && Answer(db, e).Done?
    case _ => false
  }

  /** The step ends every key that the server had before it. */
  predicate Withdraws(db: Database, e: Event, server: string) {
    (e.RotateAPIKey? || e.RevokeAPIKey? || e.DeleteServer?) && e.server == server && Answer(db, e).Done?
  }

  lemma RevokedRows(keys: seq<KeyRow>, target: string, now: int, server: string, hash: string)
    ensures var db := Database({}, map[], keys); var r := Database({}, map[], RevokeAll(keys, target, now));
      Valid(r, server, hash) <==> server != target && Valid(db, server, hash)
  {
    var r := RevokeAll(keys, target, now);
    if i :| 0 <= i < |keys| && Accepts(keys[i], server, hash) {
      assert r[i] == keys[i] || server == target;
      if server != target {
        assert Accepts(r[i], server, hash);
      }
    }
    if i :| 0 <= i < |r| && Accepts(r[i], server, hash) {
      assert Accepts(keys[i], server, hash);
    }
  }

  lemma AppendedRow(keys: seq<KeyRow>, row: KeyRow, server: string, hash: string)
    ensures Valid(Database({}, map[], keys + [row]), server, hash)
       <==> Valid(Database({}, map[], keys), server, hash) || Accepts(row, server, hash)
  {
    var r := keys + [row];
    if i :| 0 <= i < |keys| && Accepts(keys[i], server, hash) {
      assert Accepts(r[i], server, hash);
    }
    if Accepts(row, server, hash) {
      assert Accepts(r[|keys|], server, hash);
    }
  }

  lemma RemainingRows(keys: seq<KeyRow>, target: string, server: string, hash: string)
    ensures Valid(Database({}, map[], Filter(NotFor(target), keys)), server, hash)
       <==> server != target && Valid(Database({}, map[], keys), server, hash)
  {
    FilterMembers(NotFor(target), keys);
    var r := Filter(NotFor(target), keys);
    if i :| 0 <= i < |keys| && Accepts(keys[i], server, hash) {
      assert keys[i] in keys;
      if server != target {
        assert keys[i] in r;
      }
    }
    if i :| 0 <= i < |r| && Accepts(r[i], server, hash) {
      assert r[i] in r && r[i] in keys;
    }
  }

  lemma SameKeys(one: Database, two: Database, server: string, hash: string)
    requires one.keys == two.keys
    ensures Valid(one, server, hash) == Valid(two, server, hash)
  {
  }

  /** What one step does to the validity of any key for any server. */
  lemma ValidAfterStep(db: Database, e: Event, server: string, hash: string)
    ensures Valid(Next(db, e), server, hash)
       <==> Issues(db, e, server, hash) || (Valid(db, server, hash) && !Withdraws(db, e, server))
  {
    var keys := db.keys;
    SameKeys(db, Database({}, map[], keys), server, hash);
    SameKeys(Next(db, e), Database({}, map[], Next(db, e).keys), server, hash);
    if Answer(db, e).Done? {
      match e
      case AddUser(_) =>
      case Bootstrap(_, _, s, h) => AppendedRow(keys, KeyRow(s, h, None), server, hash);
      case CreateServer(_, s, h) => AppendedRow(keys, KeyRow(s, h, None), server, hash);
      case RotateAPIKey(_, s, h, now) =>
        RevokedRows(keys, s, now, server, hash);
        AppendedRow(RevokeAll(keys, s, now), KeyRow(s, h, None), server, hash);
      case RevokeAPIKey(_, s, now) => RevokedRows(keys, s, now, server, hash);
      case DeleteServer(_, s) => RemainingRows(keys, s, server, hash);
    }
  }

  predicate IssuedAt(trace: seq<Event>, i: nat, server: string, hash: string) {
    i < |trace| && Issues(Run(trace[..i]), trace[i], server, hash)
  }

  predicate WithdrawnAt(trace: seq<Event>, i: nat, server: string) {
    i < |trace| && Withdraws(Run(trace[..i]), trace[i], server)
  }

  ghost predicate IssuedAndKept(trace: seq<Event>, server: string, hash: string) {
    exists i: nat :: IssuedAt(trace, i, server, hash) && forall j: nat :: i < j < |trace| ==> !WithdrawnAt(trace, j, server)
  }

  lemma PrefixAgrees(trace: seq<Event>, i: nat, server: string, hash: string)
    requires i < |trace| - 1
    ensures IssuedAt(trace[..|trace| - 1], i, server, hash) == IssuedAt(trace, i, server, hash)
    ensures WithdrawnAt(trace[..|trace| - 1], i, server) == WithdrawnAt(trace, i, server)
  {
    assert trace[..|trace| - 1][..i] == trace[..i];
  }

  lemma KeptBefore(trace: seq<Event>, server: string, hash: string)
    requires trace != [] && IssuedAndKept(trace, server, hash) && !IssuedAt(trace, |trace| - 1, server, hash)
    ensures IssuedAndKept(trace[..|trace| - 1], server, hash) && !WithdrawnAt(trace, |trace| - 1, server)
  {
    var before := trace[..|trace| - 1];
    var i: nat :| IssuedAt(trace, i, server, hash) && forall j: nat :: i < j < |trace| ==> !WithdrawnAt(trace, j, server);
    PrefixAgrees(trace, i, server, hash);
    forall j: nat | i < j < |before| ensures !WithdrawnAt(before, j, server) {
      PrefixAgrees(trace, j, server, hash);
    }
    assert IssuedAt(before, i, server, hash);
  }

  lemma KeptAfter(trace: seq<Event>, server: string, hash: string)
    requires trace != [] && IssuedAndKept(trace[..|trace| - 1], server, hash) && !WithdrawnAt(trace, |trace| - 1, server)
    ensures IssuedAndKept(trace, server, hash)
  {
    var before := trace[..|trace| - 1];
    var i: nat :| IssuedAt(before, i, server, hash) && forall j: nat :: i < j < |before| ==> !WithdrawnAt(before, j, server);
    PrefixAgrees(trace, i, server, hash);
    forall j: nat | i < j < |trace| ensures !WithdrawnAt(trace, j, server) {
      if j < |trace| - 1 {
        PrefixAgrees(trace, j, server, hash);
      }
    }
    assert IssuedAt(trace, i, server, hash);
  }

  /**
   * In every run a key is valid for a server exactly when some step issued it to that server and
   * no later step rotated, revoked or deleted that server's keys.
   */
  lemma {:induction false} ValidIffIssuedAndKept(trace: seq<Event>, server: string, hash: string)
    ensures Valid(Run(trace), server, hash) <==> IssuedAndKept(trace, server, hash)
  {
    if trace != [] {
      var before, n := trace[..|trace| - 1], |trace| - 1;
      ValidIffIssuedAndKept(before, server, hash);
      ValidAfterStep(Run(before), trace[n], server, hash);
      assert trace[..n] == before;
      if IssuedAndKept(trace, server, hash) && !IssuedAt(trace, n, server, hash) {
        KeptBefore(trace, server, hash);
      }
      if IssuedAndKept(before, server, hash) && !WithdrawnAt(trace, n, server) {
        KeptAfter(trace, server, hash);
      }
      assert IssuedAt(trace, n, server, hash) ==> IssuedAndKept(trace, server, hash);
    }
  }

  // ------------------------------------------------------------------- corollaries

  /** A successful rotation leaves the new key as the only valid one; other servers keep theirs. */
  lemma RotateLeavesOneKey(db: Database, user: int, server: string, hash: string, now: int, other: string, key: string)
    requires Answer(db, RotateAPIKey(user, server, hash, now)).Done?
    ensures var after := Next(db, RotateAPIKey(user, server, hash, now));
      Valid(after, other, key) <==> if other == server then key == hash else Valid(db, other, key)
  {
    ValidAfterStep(db, RotateAPIKey(user, server, hash, now), other, key);
  }

  lemma RevokeLeavesNoKey(db: Database, user: int, server: string, now: int, other: string, key: string)
    requires Answer(db, RevokeAPIKey(user, server, now)).Done?
    ensures Valid(Next(db, RevokeAPIKey(user, server, now)), other, key) <==> other != server && Valid(db, other, key)
  {
    ValidAfterStep(db, RevokeAPIKey(user, server, now), other, key);
  }

  /** Revoking is idempotent: it succeeds again for the owner, whenever, and changes nothing more. */
  lemma RevokeTwice(db: Database, user: int, server: string, now: int, later: int)
    requires Owns(db, user, server)
    ensures var once := Next(db, RevokeAPIKey(user, server, now));
      && Answer(db, RevokeAPIKey(user, server, now)) == Answer(once, RevokeAPIKey(user, server, later)) == Done
      && Next(once, RevokeAPIKey(user, server, later)) == once
  {
    var once := RevokeAll(db.keys, server, now);
    assert RevokeAll(once, server, later) == once;
  }

  predicate IsRevoked(db: Database, server: string, hash: string) {
    exists i :: 0 <= i < |db.keys| && db.keys[i].server == server && db.keys[i].hash == hash && db.keys[i].revokedAt.Some?
  }

  predicate Deletes(db: Database, e: Event, server: string) {
    e.DeleteServer? && e.server == server && Answer(db, e).Done?
  }

  lemma RevokedAfterStep(db: Database, e: Event, server: string, hash: string)
    requires IsRevoked(db, server, hash) && !Deletes(db, e, server)
    ensures IsRevoked(Next(db, e), server, hash)
  {
    var i :| 0 <= i < |db.keys| && db.keys[i].server == server && db.keys[i].hash == hash && db.keys[i].revokedAt.Some?;
    if Answer(db, e).Done? && e.DeleteServer? {
      FilterMember(NotFor(e.server), db.keys, db.keys[i]);
      assert db.keys[i] in db.keys;
    } else {
      assert Next(db, e).keys[i] == db.keys[i];
    }
  }

  /** No step of `later` deletes the server. */
  predicate NeverDeleted(first: seq<Event>, later: seq<Event>, server: string) {
    later == [] ||
    var n := |later| - 1;
    NeverDeleted(first, later[..n], server) && !Deletes(Run(first + later[..n]), later[n], server)
  }

  lemma RunStep(first: seq<Event>, later: seq<Event>)
    requires later != []
    ensures Run(first + later) == Next(Run(first + later[..|later| - 1]), later[|later| - 1])
  {
    assert (first + later)[..|first + later| - 1] == first + later[..|later| - 1];
  }

  /**
   * A revoked key stays revoked, and opens no server at all, until its server is deleted: whatever
   * happens in between, a bootstrap with the same key included.
   */
  lemma {:induction false} RevokedStaysInvalid(first: seq<Event>, later: seq<Event>, server: string, hash: string)
    requires IsRevoked(Run(first), server, hash)
    requires NeverDeleted(first, later, server)
    ensures IsRevoked(Run(first + later), server, hash)
    ensures forall other :: !Valid(Run(first + later), other, hash)
  {
    if later == [] {
      assert first + later == first;
    } else {
      var n := |later| - 1;
      var earlier := later[..n];
      RevokedStaysInvalid(first, earlier, server, hash);
      RevokedAfterStep(Run(first + earlier), later[n], server, hash);
      RunStep(first, later);
    }
    RevokedOpensNothing(first + later, server, hash);
  }

  lemma RevokedOpensNothing(trace: seq<Event>, server: string, hash: string)
    requires IsRevoked(Run(trace), server, hash)
    ensures forall other :: !Valid(Run(trace), other, hash)
  {
    EveryRunIsConsistent(trace);
  }

  /** No step but a bootstrap changes the keys of servers that its user does not own. */
  lemma OthersUntouched(db: Database, e: Event, server: string, hash: string)
    requires Consistent(db) && server in db.servers && !e.Bootstrap? && !e.AddUser? && db.servers[server] != e.user
    ensures var after := Next(db, e);
      && server in after.servers && after.servers[server] == db.servers[server]
      && (Valid(after, server, hash) <==> Valid(db, server, hash))
  {
    ValidAfterStep(db, e, server, hash);
  }

  predicate OneKeyAtMost(db: Database, server: string) {
    forall i, j :: 0 <= i < j < |db.keys| && db.keys[i].server == server && db.keys[j].server == server
      ==> db.keys[i].revokedAt.Some? || db.keys[j].revokedAt.Some?
  }

  predicate HasActive(db: Database, server: string) {
    exists i :: 0 <= i < |db.keys| && db.keys[i].server == server && db.keys[i].revokedAt.None?
  }

  /** A bootstrap gives a server a second active key exactly when the key is new and another is active. */
  lemma BootstrapKeepsOneKeyIff(db: Database, email: string, user: int, server: string, hash: string)
    requires OneKeyAtMost(db, server) && email != "" && server != ""
    ensures OneKeyAtMost(Next(db, Bootstrap(email, user, server, hash)), server)
       <==> HasHash(db.keys, hash) || !HasActive(db, server)
  {
    var after := Next(db, Bootstrap(email, user, server, hash));
    if !HasHash(db.keys, hash) && HasActive(db, server) {
      var i :| 0 <= i < |db.keys| && db.keys[i].server == server && db.keys[i].revokedAt.None?;
      assert after.keys[i] == db.keys[i] && after.keys[|db.keys|] == KeyRow(server, hash, None);
    }
  }

  /** A run with two bootstraps, the second with another key. */
  function TwoKeys(): seq<Event> { [Bootstrap("e", 1, "s", "old"), Bootstrap("e", 1, "s", "new")] }

  /** After it the server has two active keys. */
  lemma BootstrapCanAddSecondKey()
    ensures !OneKeyAtMost(Run(TwoKeys()), "s") && Valid(Run(TwoKeys()), "s", "old") && Valid(Run(TwoKeys()), "s", "new")
  {
    var none: seq<Event> := [];
    var one := none + [Bootstrap("e", 1, "s", "old")];
    RunStep(none, [Bootstrap("e", 1, "s", "old")]);
    RunStep(one, [Bootstrap("e", 1, "s", "new")]);
    assert one + [] == one && none + [] == none;
    assert TwoKeys() == one + [Bootstrap("e", 1, "s", "new")];
    var db := Run(one);
    assert db.keys == [KeyRow("s", "old", None)];
    assert "old"[0] != "new"[0];
    assert !HasHash(db.keys, "new");
    var keys := Run(TwoKeys()).keys;
    assert keys == [KeyRow("s", "old", None), KeyRow("s", "new", None)];
    assert Accepts(keys[0], "s", "old") && Accepts(keys[1], "s", "new");
  }

  /** Without bootstraps no server ever has two active keys. */
  lemma {:induction false} OneKeyPerServer(trace: seq<Event>, server: string)
    requires forall i :: 0 <= i < |trace| ==> !trace[i].Bootstrap?
    ensures OneKeyAtMost(Run(trace), server)
  {
    if trace != [] {
      var before, e := trace[..|trace| - 1], trace[|trace| - 1];
      OneKeyPerServer(before, server);
      EveryRunIsConsistent(before);
      OneKeyAfterStep(Run(before), e, server);
    }
  }

  lemma OneKeyAfterStep(db: Database, e: Event, server: string)
    requires Consistent(db) && OneKeyAtMost(db, server) && !e.Bootstrap?
    ensures OneKeyAtMost(Next(db, e), server)
  {
    if e.DeleteServer? {
      FilterOneKey(e.server, db, server);
    }
  }

  lemma {:induction false} FilterOneKey(target: string, db: Database, server: string)
    requires OneKeyAtMost(db, server)
    ensures OneKeyAtMost(db.(keys := Filter(NotFor(target), db.keys)), server)
    decreases |db.keys|
  {
    if db.keys != [] {
      var init := db.keys[..|db.keys| - 1];
      FilterOneKey(target, db.(keys := init), server);
      var r := Filter(NotFor(target), init);
      forall i | 0 <= i < |r| ensures r[i] in init {
        FilterMember(NotFor(target), init, r[i]);
        assert r[i] in r;
      }
    }
  }
}
