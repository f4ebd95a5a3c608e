/**
 * Tiered metric retention: raw samples roll up into 5-minute rows, those into 1-hour rows,
 * and old hour rows expire. Each of the three is a transaction of its own: saves, deletions and
 * other maintenance calls may come in between. The tables are replayed from a trace of committed
 * transactions; class `MetricStore` performs the same transactions on mutable fields.
 */
module Retention {
  import opened Wrappers
  import opened Sequences
  import opened Aggregates

  const FIVE_MINUTES: pos := 300_000       // milliseconds, as are all bucket sizes below
  const ONE_HOUR: pos := 3_600_000
  const NANOS_PER_MILLI: pos := 1_000_000
  const YEAR_ONE: int := -62_135_596_800_000_000_000  // Go's zero time, in Unix nanoseconds

  /** Retention periods in nanoseconds. */
  datatype Config = Config(raw: int, five: int, aggregated: int) {
    predicate Valid() { 0 < raw < five < aggregated }
  }

  datatype Cutoffs = Cutoffs(raw: int, five: int, hour: int)

  /** Go's `Time.Truncate` counts multiples of `d` from the year 1. */
  function Truncate(at: int, d: pos): int { at - (at - YEAR_ONE) % d }

  function CompletedBucketCutoff(at: int, bucket: pos): int {
    Truncate(at, bucket * NANOS_PER_MILLI) / NANOS_PER_MILLI
  }

  function CutoffsAt(cfg: Config, now: int): Cutoffs {
    Cutoffs(CompletedBucketCutoff(now - cfg.raw, FIVE_MINUTES),
            CompletedBucketCutoff(now - cfg.five, ONE_HOUR),
            CompletedBucketCutoff(now - cfg.aggregated, ONE_HOUR))
  }

  // ----------------------------------------------------------------- tables

  datatype Tables = Tables(raw: seq<Sample>, five: map<Key, Row>, hour: map<Key, Row>)

  function AtLeast(lo: int): Sample -> bool { (x: Sample) => lo <= x.at }
  function Before(hi: int): Sample -> bool { (x: Sample) => x.at < hi }
  function NotOf(server: string): Sample -> bool { (x: Sample) => x.server != server }

  function From(h: seq<Sample>, lo: int): seq<Sample> { Filter(AtLeast(lo), h) }
  function Below(h: seq<Sample>, hi: int): seq<Sample> { Filter(Before(hi), h) }

  function RowsBelow(m: map<Key, Row>, hi: int): map<Key, Row> {
    map k | k in m && k.bucket < hi :: m[k]
  }
  function RowsFrom(m: map<Key, Row>, lo: int): map<Key, Row> {
    map k | k in m && lo <= k.bucket :: m[k]
  }

  /** One transaction: upsert the 5-minute rows, delete their samples. */
  function DownsampleRaw(t: Tables, cutoff: int): Tables {
    Tables(From(t.raw, cutoff), t.five + GroupBy(Below(t.raw, cutoff), FIVE_MINUTES), t.hour)
  }

  /** One transaction: upsert the hour rows, delete their 5-minute rows. */
  function Downsample5m(t: Tables, cutoff: int): Tables {
    Tables(t.raw, RowsFrom(t.five, cutoff), t.hour + Regroup(RowsBelow(t.five, cutoff), ONE_HOUR))
  }

  function Expire(t: Tables, cutoff: int): Tables {
    t.(hour := RowsFrom(t.hour, cutoff))
  }

  /** An undisturbed maintenance call of which the first `commits` transactions reached the disk. */
  function Maintained(t: Tables, c: Cutoffs, commits: nat): Tables {
    if commits == 0 then t
    else if commits == 1 then DownsampleRaw(t, c.raw)
    else if commits == 2 then Downsample5m(DownsampleRaw(t, c.raw), c.five)
    else Expire(Downsample5m(DownsampleRaw(t, c.raw), c.five), c.hour)
  }

  function Without(ss: seq<Sample>, server: string): seq<Sample> {
    Filter(NotOf(server), ss)
  }
  function RowsWithout(m: map<Key, Row>, server: string): map<Key, Row> {
    map k | k in m && k.server != server :: m[k]
  }

  /** `ON DELETE CASCADE` from table `servers`. */
  function Cascade(t: Tables, server: string): Tables {
    Tables(Without(t.raw, server), RowsWithout(t.five, server), RowsWithout(t.hour, server))
  }

  /** SQLite's choice for an INTEGER PRIMARY KEY: one more than the largest key. */
  function MaxId(ss: seq<Sample>): int {
    if ss == [] then 0 else MaxI(MaxId(ss[..|ss| - 1]), ss[|ss| - 1].id)
  }

  lemma {:induction false} MaxIdIsMax(ss: seq<Sample>)
    ensures forall x :: x in ss ==> x.id <= MaxId(ss)
  {
    if ss != [] {
      MaxIdIsMax(ss[..|ss| - 1]);
      assert ss == ss[..|ss| - 1] + [ss[|ss| - 1]];
    }
  }

  function Inserted(raw: seq<Sample>, server: string, values: Values, at: int): Sample {
    Sample(MaxId(raw) + 1, server, values, at)
  }

  // ----------------------------------------------------------------- events

  /** `servers` maps each server to the user that owns it. */
  datatype Db = Db(servers: map<string, int>, tables: Tables)

  /** One call of `maintainAt`; its transactions share the configuration and the clock reading. */
  datatype Call = Call(cfg: Config, now: int) {
    function Cutoffs(): Cutoffs { CutoffsAt(cfg, now) }
  }

  /** A committed transaction. */
  datatype Event =
    | Register(server: string, owner: int)
    | Save(server: string, values: Values, at: int)
    | RollUpRaw(call: Call)
    | RollUp5m(call: Call)
    | Expiry(call: Call)
    | Remove(server: string, owner: int)
  {
    predicate Maintains() { RollUpRaw? || RollUp5m? || Expiry? }
  }

  const NEW_DB := Db(map[], Tables([], map[], map[]))

  predicate Owned(servers: map<string, int>, server: string, owner: int) {
    server in servers && servers[server] == owner
  }

  function Step(db: Db, e: Event): Db {
    match e
    case Register(server, owner) => db.(servers := db.servers[server := owner])
    case Save(server, values, at) =>
      if server !in db.servers then db  // foreign key violation
      else db.(tables := db.tables.(raw := db.tables.raw + [Inserted(db.tables.raw, server, values, at)]))
    case RollUpRaw(call) => db.(tables := DownsampleRaw(db.tables, call.Cutoffs().raw))
    case RollUp5m(call) => db.(tables := Downsample5m(db.tables, call.Cutoffs().five))
    case Expiry(call) => db.(tables := Expire(db.tables, call.Cutoffs().hour))
    case Remove(server, owner) =>
      if !Owned(db.servers, server, owner) then db
      else Db(db.servers - {server}, Cascade(db.tables, server))
  }

  function Replay(trace: seq<Event>): Db {
    if trace == [] then NEW_DB else Step(Replay(trace[..|trace| - 1]), trace[|trace| - 1])
  }

  /** A call checks its configuration first, and commits its transactions in order. */
  predicate InTurn(trace: seq<Event>, e: Event) {
    match e
    case RollUpRaw(call) => call.cfg.Valid()
    case RollUp5m(call) => RollUpRaw(call) in trace
    case Expiry(call) => RollUp5m(call) in trace
    case _ => true
  }

  /** Every transaction of a maintenance call comes after the call's earlier ones; anything may come in between. */
  predicate Legal(trace: seq<Event>) {
    trace == [] || (Legal(trace[..|trace| - 1]) && InTurn(trace[..|trace| - 1], trace[|trace| - 1]))
  }

  /** What a call adds to the trace when its transaction number `failAt` fails and nobody interferes. */
  function Committed(call: Call, failAt: nat): seq<Event> {
    if failAt == 0 then [] else if failAt == 1 then [RollUpRaw(call)]
    else if failAt == 2 then [RollUpRaw(call), RollUp5m(call)]
    else [RollUpRaw(call), RollUp5m(call), Expiry(call)]
  }

  // ----------------------------------------------------------------- store

  datatype Failure = DatabaseFull | ForeignKey | InvalidRetention | Interrupted
  datatype Outcome = Done | Failed(failure: Failure)

  class MetricStore {
    const maxSize: int
    var servers: map<string, int>
    var raw: seq<Sample>
    var five: map<Key, Row>
    var hour: map<Key, Row>
    ghost var trace: seq<Event>

    ghost function Contents(): Db
      reads this
    {
      Db(servers, Tables(raw, five, hour))
    }

    /** The tables are exactly what replaying the recorded transactions produces. */
    ghost predicate Valid()
      reads this
    {
      Legal(trace) && Contents() == Replay(trace)
    }

    constructor (maxSize: int)
      ensures Valid() && trace == [] && this.maxSize == maxSize
    {
      this.maxSize := maxSize;
      servers, raw, five, hour := map[], [], map[], map[];
      trace := [];
    }

    ghost method Record(e: Event)
      requires Legal(trace) && InTurn(trace, e) && Contents() == Step(Replay(trace), e)
      modifies this`trace
      ensures Valid() && trace == old(trace) + [e]
    {
      trace := trace + [e];
      assert trace[..|trace| - 1] == old(trace);
    }

    method RegisterServer(server: string, owner: int)
      requires Valid()
      modifies this
      ensures Valid() && trace == old(trace) + [Register(server, owner)]
    {
      servers := servers[server := owner];
      Record(Register(server, owner));
    }

    /** `size` is the database size found on disk; `fails` is any other database error. A refused save changes nothing. */
    method SaveMetrics(server: string, values: Values, at: int, size: int, fails: bool) returns (r: Outcome)
      requires Valid()
      modifies this
      ensures Valid()
      ensures r == if maxSize > 0 && size >= maxSize then Failed(DatabaseFull)
                   else if server !in old(servers) then Failed(ForeignKey)
                   else if fails then Failed(Interrupted)
                   else Done
      ensures r.Done? ==> trace == old(trace) + [Save(server, values, at)]
      ensures r.Done? ==> servers == old(servers) && five == old(five) && hour == old(hour)
                          && exists id :: raw == old(raw) + [Sample(id, server, values, at)]
                                          && forall x :: x in old(raw) ==> x.id < id
      ensures r.Failed? ==> trace == old(trace) && Contents() == old(Contents())
    {
      if maxSize > 0 {
        if size >= maxSize {
          return Failed(DatabaseFull);
        }
      }
      if server !in servers {
        return Failed(ForeignKey);
      }
      if fails {
        return Failed(Interrupted);
      }
      MaxIdIsMax(raw);
      ghost var x := Inserted(raw, server, values, at);
      assert x == Sample(x.id, server, values, at);
      raw := raw + [Inserted(raw, server, values, at)];
      Record(Save(server, values, at));
      return Done;
    }

    method DeleteServer(owner: int, server: string) returns (deleted: bool)
      requires Valid()
      modifies this
      ensures Valid() && trace == old(trace) + [Remove(server, owner)]
      ensures deleted <==> server in old(servers) && old(servers)[server] == owner
      ensures deleted ==> servers == old(servers) - {server}
      ensures deleted ==> forall x :: x in raw <==> x in old(raw) && x.server != server
      ensures deleted ==> five == map k | k in old(five) && k.server != server :: old(five)[k]
      ensures deleted ==> hour == map k | k in old(hour) && k.server != server :: old(hour)[k]
      ensures !deleted ==> Contents() == old(Contents())
    {
      deleted := Owned(servers, server, owner);
      if deleted {
        servers := servers - {server};
        FilterMembers(NotOf(server), raw);
        raw := Without(raw, server);
        five, hour := RowsWithout(five, server), RowsWithout(hour, server);
      }
      Record(Remove(server, owner));
    }

    /**
     * `downsampleRaw`, one transaction: either both statements take effect or neither does. Between
     * this and the next two, the store is open to any other method and any other call.
     */
    method TxDownsampleRaw(call: Call, fails: bool) returns (ok: bool)
      requires Valid() && call.cfg.Valid()
      modifies this
      ensures Valid() && ok == !fails
      ensures trace == old(trace) + if ok then [RollUpRaw(call)] else []
      ensures Contents().servers == old(Contents()).servers
      ensures Contents().tables == if ok then DownsampleRaw(old(Contents()).tables, call.Cutoffs().raw)
                                   else old(Contents()).tables
    {
      var cutoff := call.Cutoffs().raw;
      var savedFive := five;
      five := five + GroupBy(Below(raw, cutoff), FIVE_MINUTES);
      if fails {
        five := savedFive;  // ROLLBACK
        return false;
      }
      raw := From(raw, cutoff);
      Record(RollUpRaw(call));
      return true;
    }

    /** `downsample5m`; the call's first transaction has committed, however long ago. */
    method TxDownsample5m(call: Call, fails: bool) returns (ok: bool)
      requires Valid() && RollUpRaw(call) in trace
      modifies this
      ensures Valid() && ok == !fails
      ensures trace == old(trace) + if ok then [RollUp5m(call)] else []
      ensures Contents().servers == old(Contents()).servers
      ensures Contents().tables == if ok then Downsample5m(old(Contents()).tables, call.Cutoffs().five)
                                   else old(Contents()).tables
    {
      var cutoff := call.Cutoffs().five;
      var savedHour := hour;
      hour := hour + Regroup(RowsBelow(five, cutoff), ONE_HOUR);
      if fails {
        hour := savedHour;  // ROLLBACK
        return false;
      }
      five := RowsFrom(five, cutoff);
      Record(RollUp5m(call));
      return true;
    }

    /** The last statement of `maintainAt`. */
    method TxExpire(call: Call, fails: bool) returns (ok: bool)
      requires Valid() && RollUp5m(call) in trace
      modifies this
      ensures Valid() && ok == !fails
      ensures trace == old(trace) + if ok then [Expiry(call)] else []
      ensures Contents().servers == old(Contents()).servers
      ensures Contents().tables == if ok then Expire(old(Contents()).tables, call.Cutoffs().hour)
                                   else old(Contents()).tables
    {
      if fails {
        return false;
      }
      hour := RowsFrom(hour, call.Cutoffs().hour);
      Record(Expiry(call));
      return true;
    }

    /**
     * `maintainAt` when nobody interferes. `failAt` is the 0-based transaction that fails; 3 or more
     * means that none does.
     */
    method MaintainAt(cfg: Config, now: int, failAt: nat) returns (r: Outcome)
      requires Valid()
      modifies this
      ensures Valid()
      ensures r == if !cfg.Valid() then Failed(InvalidRetention)
                   else if failAt < 3 then Failed(Interrupted)
                   else Done
      ensures trace == old(trace) + if cfg.Valid() then Committed(Call(cfg, now), failAt) else []
      ensures Contents().servers == old(Contents()).servers
      ensures Contents().tables == if cfg.Valid() then Maintained(old(Contents()).tables, CutoffsAt(cfg, now), failAt)
                                   else old(Contents()).tables
    {
      if cfg.raw <= 0 || cfg.five <= cfg.raw || cfg.aggregated <= cfg.five {
        return Failed(InvalidRetention);
      }
      r := RunTransactions(Call(cfg, now), failAt);
    }

    /** The three transactions in order, stopping at the first failure. */
    method RunTransactions(call: Call, failAt: nat) returns (r: Outcome)
      requires Valid() && call.cfg.Valid()
      modifies this
      ensures Valid() && r == if failAt < 3 then Failed(Interrupted) else Done
      ensures trace == old(trace) + Committed(call, failAt)
      ensures Contents().servers == old(Contents()).servers
      ensures Contents().tables == Maintained(old(Contents()).tables, call.Cutoffs(), failAt)
    {
      var ok := TxDownsampleRaw(call, failAt == 0);
      if !ok {
        return Failed(Interrupted);
      }
      ok := TxDownsample5m(call, failAt == 1);
      if !ok {
        return Failed(Interrupted);
      }
      ok := TxExpire(call, failAt == 2);
      return if ok then Done else Failed(Interrupted);
    }
  }
}
