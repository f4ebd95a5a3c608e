/**
 * Where every accepted sample is: in the raw table, inside a bucket row, expired, or
 * overwritten by an upsert. Late samples included.
 */
module Conservation {
  import opened Wrappers
  import opened Sequences
  import opened Aggregates
  import opened Retention
  import opened Refinement
  import opened Schedule

  function IsOf(server: string): Sample -> bool { (x: Sample) => x.server == server }

  function Of(ss: seq<Sample>, server: string): seq<Sample> { Filter(IsOf(server), ss) }

  function Share(k: Key, r: Row, server: string): int { if k.server == server then r.count else 0 }

  /** The sum of `sample_count` over the rows of one server. */
  ghost function Weight(m: map<Key, Row>, server: string): (w: int)
    ensures w >= 0
  {
    if m == map[] then 0
    else
      var k :| k in m;
      Share(k, m[k], server) + Weight(m - {k}, server)
  }

  /** Rows may be summed in any order. */
  lemma {:induction false} WeightWithout(m: map<Key, Row>, server: string, k: Key)
    requires k in m
    ensures Weight(m, server) == Share(k, m[k], server) + Weight(m - {k}, server)
    decreases |m|
  {
    var j :| j in m && Weight(m, server) == Share(j, m[j], server) + Weight(m - {j}, server);
    if j != k {
      WeightWithout(m - {j}, server, k);
      WeightWithout(m - {k}, server, j);
      assert m - {j} - {k} == m - {k} - {j};
    }
  }

  lemma UnionWithout(a: map<Key, Row>, b: map<Key, Row>, k: Key)
    requires k in b && k !in a
    ensures (a + b) - {k} == a + (b - {k})
    ensures (a + b)[k] == b[k]
  {
  }

  lemma {:induction false} WeightUnion(a: map<Key, Row>, b: map<Key, Row>, server: string)
    requires forall k :: k in b ==> k !in a
    ensures Weight(a + b, server) == Weight(a, server) + Weight(b, server)
    decreases |b|
  {
    if b == map[] {
      AddNothing(a);
    } else {
      var k :| k in b;
      var rest := b - {k};
      UnionWithout(a, b, k);
      WeightUnion(a, rest, server);
      WeightWithout(a + b, server, k);
      WeightWithout(b, server, k);
    }
  }

  lemma WeightSplit(m: map<Key, Row>, c: int, server: string)
    ensures Weight(m, server) == Weight(RowsBelow(m, c), server) + Weight(RowsFrom(m, c), server)
  {
    WeightUnion(RowsBelow(m, c), RowsFrom(m, c), server);
    assert RowsBelow(m, c) + RowsFrom(m, c) == m;
  }

  /** The rows of `m` that an upsert of `changes` replaces. */
  function Clashes(m: map<Key, Row>, changes: map<Key, Row>): map<Key, Row> {
    map k | k in m && k in changes :: m[k]
  }

  lemma UpsertParts(m: map<Key, Row>, changes: map<Key, Row>)
    ensures var rest := m - changes.Keys;
      m + changes == rest + changes && m == rest + Clashes(m, changes)
  {
  }

  lemma WeightUpsert(m: map<Key, Row>, changes: map<Key, Row>, server: string)
    ensures Weight(m + changes, server) + Weight(Clashes(m, changes), server)
         == Weight(m, server) + Weight(changes, server)
  {
    var rest := m - changes.Keys;
    UpsertParts(m, changes);
    WeightUnion(rest, changes, server);
    WeightUnion(rest, Clashes(m, changes), server);
  }

  lemma {:induction false} WeightOfGroups(ss: seq<Sample>, size: pos, server: string)
    ensures Weight(GroupBy(ss, size), server) == |Of(ss, server)|
  {
    if ss == [] {
      assert GroupBy(ss, size) == map[];
    } else {
      var init, x := ss[..|ss| - 1], ss[|ss| - 1];
      assert ss == init + [x];
      WeightOfGroups(init, size, server);
      GroupByAppend(init, x, size);
      GroupByAt(init, size, KeyOf(x, size));
      WeightOfOneMore(GroupBy(init, size), KeyOf(x, size), RowOf(GroupOf(Rows(init, size, KeyOf(x, size)) + [x])), server);
    }
  }

  lemma WeightOfOneMore(m: map<Key, Row>, k: Key, r: Row, server: string)
    requires r.count == (if k in m then m[k].count else 0) + 1
    ensures Weight(m[k := r], server) == Weight(m, server) + if k.server == server then 1 else 0
  {
    WeightWithout(m[k := r], server, k);
    assert m[k := r] - {k} == m - {k};
    if k in m {
      WeightWithout(m, server, k);
    } else {
      assert m - {k} == m;
    }
  }

  // ----------------------------------------------------------- regrouped rows

  function CountIn(g: Group): int { if g.Empty? then 0 else g.count }

  lemma {:induction false} MergeOneMore(m: map<Key, Row>, k: Key, r: Row, server: string, lo: int, hi: int)
    requires k !in m
    ensures CountIn(MergeRange(m[k := r], server, lo, hi))
         == CountIn(MergeRange(m, server, lo, hi)) + if k.server == server && lo <= k.bucket < hi then r.count else 0
    decreases hi - lo
  {
    if lo < hi {
      MergeOneMore(m, k, r, server, lo, hi - 1);
    }
  }

  function CoarseKey(k: Key, size: pos): Key { Key(k.server, SqlBucket(k.bucket, size)) }

  lemma CoarseOneMore(m: map<Key, Row>, k: Key, r: Row, size: pos)
    ensures Coarse(m[k := r], size) == Coarse(m, size) + {CoarseKey(k, size)}
  {
  }

  lemma CoarseAligned(m: map<Key, Row>, size: pos, g: Key)
    requires g in Coarse(m, size)
    ensures g.bucket % size == 0
  {
    var j :| j in m && Key(j.server, SqlBucket(j.bucket, size)) == g;
    BucketAligned(j.bucket, size);
  }

  /** The accumulated count of group `g`; zero when it has no rows. */
  function GroupCount(m: map<Key, Row>, size: pos, g: Key): int {
    CountIn(MergeRange(m, g.server, GroupLow(g.bucket, size), GroupHigh(g.bucket, size)))
  }

  lemma RegroupCount(m: map<Key, Row>, size: pos, g: Key)
    requires g.bucket % size == 0
    ensures g in Regroup(m, size) <==> g in Coarse(m, size)
    ensures GroupCount(m, size, g) == if g in Regroup(m, size) then Regroup(m, size)[g].count else 0
  {
    RegroupAt(m, size, g);
    if g !in Coarse(m, size) {
      MergeEmpty(m, size, g);
    }
  }

  /** Adding a row adds its count to its own group and changes no other count. */
  lemma GroupCountOneMore(m: map<Key, Row>, k: Key, r: Row, size: pos, g: Key)
    requires k !in m && g.bucket % size == 0
    ensures GroupCount(m[k := r], size, g)
         == GroupCount(m, size, g) + if g == CoarseKey(k, size) then r.count else 0
  {
    GroupRange(k.bucket, g.bucket, size);
    MergeOneMore(m, k, r, g.server, GroupLow(g.bucket, size), GroupHigh(g.bucket, size));
  }

  lemma RegroupOneMore(m: map<Key, Row>, k: Key, r: Row, size: pos, g: Key)
    requires k !in m
    ensures OneGroupMore(Regroup(m, size), Regroup(m[k := r], size), CoarseKey(k, size), r.count, g)
  {
    CoarseOneMore(m, k, r, size);
    if g in Coarse(m[k := r], size) {
      CoarseAligned(m[k := r], size, g);
      RegroupCount(m, size, g);
      RegroupCount(m[k := r], size, g);
      GroupCountOneMore(m, k, r, size, g);
    }
  }

  predicate OneGroupMore(b: map<Key, Row>, a: map<Key, Row>, g: Key, n: int, j: Key) {
    && (j in a <==> j in b || j == g)
    && (j in a ==> a[j].count == (if j in b then b[j].count else 0) + if j == g then n else 0)
  }

  lemma MergeEmpty(m: map<Key, Row>, size: pos, g: Key)
    requires g !in Coarse(m, size) && g.bucket % size == 0
    ensures MergeRange(m, g.server, GroupLow(g.bucket, size), GroupHigh(g.bucket, size)) == Empty
  {
    var lo, hi := GroupLow(g.bucket, size), GroupHigh(g.bucket, size);
    forall k | k in m && k.server == g.server ensures !(lo <= k.bucket < hi) {
      GroupRange(k.bucket, g.bucket, size);
      assert Key(k.server, SqlBucket(k.bucket, size)) in Coarse(m, size);
    }
    MergeAgrees(m, map[], g.server, lo, hi);
    MergeOfNothing(g.server, lo, hi);
  }

  lemma {:induction false} MergeOfNothing(server: string, lo: int, hi: int)
    ensures MergeRange(map[], server, lo, hi) == Empty
    decreases hi - lo
  {
    if lo < hi {
      MergeOfNothing(server, lo, hi - 1);
    }
  }

  lemma WeightAgrees(a: map<Key, Row>, b: map<Key, Row>, server: string)
    requires a.Keys == b.Keys && forall k :: k in a ==> a[k].count == b[k].count
    ensures Weight(a, server) == Weight(b, server)
    decreases |a|
  {
    if a != map[] {
      var k :| k in a;
      WeightWithout(a, server, k);
      WeightWithout(b, server, k);
      WeightAgrees(a - {k}, b - {k}, server);
    }
  }

  lemma {:induction false} WeightOfRegroup(m: map<Key, Row>, size: pos, server: string)
    ensures Weight(Regroup(m, size), server) == Weight(m, server)
    decreases |m|
  {
    if m == map[] {
      assert Regroup(m, size) == map[];
    } else {
      var k :| k in m;
      var rest, r := m - {k}, m[k];
      assert m == rest[k := r];
      WeightWithout(m, server, k);
      WeightOfRegroup(rest, size, server);
      WeightOfChanged(rest, k, r, size, server);
    }
  }

  lemma WeightOfChanged(rest: map<Key, Row>, k: Key, r: Row, size: pos, server: string)
    requires k !in rest
    ensures Weight(Regroup(rest[k := r], size), server) == Weight(Regroup(rest, size), server) + Share(k, r, server)
  {
    var b, a, g := Regroup(rest, size), Regroup(rest[k := r], size), CoarseKey(k, size);
    forall j ensures OneGroupMore(b, a, g, r.count, j) {
      RegroupOneMore(rest, k, r, size, j);
    }
    WeightGroupMore(b, a, g, r.count, server);
  }

  lemma WeightGroupMore(b: map<Key, Row>, a: map<Key, Row>, g: Key, n: int, server: string)
    requires forall j :: OneGroupMore(b, a, g, n, j)
    ensures Weight(a, server) == Weight(b, server) + if g.server == server then n else 0
  {
    assert OneGroupMore(b, a, g, n, g);
    forall j ensures j in a - {g} <==> j in b - {g} ensures j in a - {g} ==> a[j].count == b[j].count {
      assert OneGroupMore(b, a, g, n, j);
    }
    WeightWithout(a, server, g);
    WeightAgrees(a - {g}, b - {g}, server);
    if g in b {
      WeightWithout(b, server, g);
    } else {
      assert b - {g} == b;
    }
  }

  // ------------------------------------------------------------------- ledger

  /** Samples of one server that the tables still account for. */
  ghost function Held(t: Tables, server: string): int {
    |Of(t.raw, server)| + Weight(t.five, server) + Weight(t.hour, server)
  }

  /** Samples that the upsert of one transaction replaces. */
  ghost function OverwrittenBy(t: Tables, e: Event, server: string): int {
    match e
    case RollUpRaw(call) =>
      Weight(Clashes(t.five, GroupBy(Below(t.raw, call.Cutoffs().raw), FIVE_MINUTES)), server)
    case RollUp5m(call) =>
      Weight(Clashes(t.hour, Regroup(RowsBelow(t.five, call.Cutoffs().five), ONE_HOUR)), server)
    case _ => 0
  }

  ghost function ExpiredBy(t: Tables, e: Event, server: string): int {
    match e
    case Expiry(call) => Weight(RowsBelow(t.hour, call.Cutoffs().hour), server)
    case _ => 0
  }

  /** The step deletes the server. */
  predicate Deletes(db: Db, e: Event, server: string) {
    e.Remove? && e.server == server && Owned(db.servers, server, e.owner)
  }

  ghost function Overwritten(trace: seq<Event>, server: string): int {
    if trace == [] then 0
    else
      var before, e := trace[..|trace| - 1], trace[|trace| - 1];
      if Deletes(Replay(before), e, server) then 0
      else Overwritten(before, server) + OverwrittenBy(Replay(before).tables, e, server)
  }

  ghost function Expired(trace: seq<Event>, server: string): int {
    if trace == [] then 0
    else
      var before, e := trace[..|trace| - 1], trace[|trace| - 1];
      if Deletes(Replay(before), e, server) then 0
      else Expired(before, server) + ExpiredBy(Replay(before).tables, e, server)
  }

  lemma SplitOf(ss: seq<Sample>, c: int, server: string)
    ensures |Of(ss, server)| == |Of(Below(ss, c), server)| + |Of(From(ss, c), server)|
  {
    if ss != [] {
      var init, x := ss[..|ss| - 1], ss[|ss| - 1];
      SplitOf(init, c, server);
      FilterAppend(IsOf(server), Below(init, c), x);
      FilterAppend(IsOf(server), From(init, c), x);
    }
  }

  lemma RawStepConserves(t: Tables, c: int, server: string)
    ensures Held(t, server)
         == Held(DownsampleRaw(t, c), server) + Weight(Clashes(t.five, GroupBy(Below(t.raw, c), FIVE_MINUTES)), server)
  {
    SplitOf(t.raw, c, server);
    WeightOfGroups(Below(t.raw, c), FIVE_MINUTES, server);
    WeightUpsert(t.five, GroupBy(Below(t.raw, c), FIVE_MINUTES), server);
  }

  lemma FiveStepConserves(t: Tables, c: int, server: string)
    ensures Held(t, server)
         == Held(Downsample5m(t, c), server) + Weight(Clashes(t.hour, Regroup(RowsBelow(t.five, c), ONE_HOUR)), server)
  {
    WeightSplit(t.five, c, server);
    WeightOfRegroup(RowsBelow(t.five, c), ONE_HOUR, server);
    WeightUpsert(t.hour, Regroup(RowsBelow(t.five, c), ONE_HOUR), server);
  }

  lemma ExpireStepConserves(t: Tables, c: int, server: string)
    ensures Held(t, server) == Held(Expire(t, c), server) + Weight(RowsBelow(t.hour, c), server)
  {
    WeightSplit(t.hour, c, server);
  }

  lemma OthersWithout(m: map<Key, Row>, gone: string, k: Key)
    requires k in m
    ensures RowsWithout(m - {k}, gone) == RowsWithout(m, gone) - {k}
    ensures k.server == gone ==> RowsWithout(m, gone) - {k} == RowsWithout(m, gone)
  {
  }

  lemma {:induction false} WeightOfOthers(m: map<Key, Row>, gone: string, server: string)
    ensures Weight(RowsWithout(m, gone), server) == if gone == server then 0 else Weight(m, server)
    decreases |m|
  {
    if m != map[] {
      var k :| k in m;
      WeightWithout(m, server, k);
      OthersWithout(m, gone, k);
      WeightOfOthers(m - {k}, gone, server);
      if k.server != gone {
        WeightWithout(RowsWithout(m, gone), server, k);
      }
    } else {
      assert RowsWithout(m, gone) == map[];
    }
  }

  lemma OfOthers(ss: seq<Sample>, gone: string, server: string)
    ensures Of(Without(ss, gone), server) == if gone == server then [] else Of(ss, server)
  {
    FilterTwice(NotOf(gone), IsOf(server), ss);
    if gone == server {
      FilterNone(Both(NotOf(gone), IsOf(server)), ss);
    } else {
      FilterSame(Both(NotOf(gone), IsOf(server)), IsOf(server), ss);
    }
  }

  lemma SaveConserves(db: Db, h: seq<Sample>, e: Event, server: string)
    requires e.Save? && e.server in db.servers
    ensures var x := Inserted(db.tables.raw, e.server, e.values, e.at); var one := if e.server == server then 1 else 0;
      && |Of(h + [x], server)| == |Of(h, server)| + one
      && Held(Step(db, e).tables, server) == Held(db.tables, server) + one
  {
    var x := Inserted(db.tables.raw, e.server, e.values, e.at);
    FilterAppend(IsOf(server), db.tables.raw, x);
    FilterAppend(IsOf(server), h, x);
  }

  lemma RemoveConserves(t: Tables, h: seq<Sample>, gone: string, server: string)
    ensures |Of(Without(h, gone), server)| == if gone == server then 0 else |Of(h, server)|
    ensures Held(Cascade(t, gone), server) == if gone == server then 0 else Held(t, server)
  {
    OfOthers(h, gone, server);
    OfOthers(t.raw, gone, server);
    WeightOfOthers(t.five, gone, server);
    WeightOfOthers(t.hour, gone, server);
  }

  lemma TransactionConserves(t: Tables, e: Event, server: string)
    requires e.Maintains()
    ensures Held(t, server) == Held(Step(Db(map[], t), e).tables, server) + OverwrittenBy(t, e, server) + ExpiredBy(t, e, server)
  {
    match e {
      case RollUpRaw(call) => RawStepConserves(t, call.Cutoffs().raw, server);
      case RollUp5m(call) => FiveStepConserves(t, call.Cutoffs().five, server);
      case Expiry(call) => ExpireStepConserves(t, call.Cutoffs().hour, server);
    }
  }

  /**
   * In every run, late samples, crashes and interleaved maintenance calls included, the samples
   * accepted for a live server are those in the raw table plus the sample counts of its rows in
   * both tiers plus those that expired plus those that upserts overwrote.
   */
  lemma {:induction false} SamplesAreConserved(trace: seq<Event>, server: string)
    ensures |Of(History(trace), server)|
         == Held(Replay(trace).tables, server) + Expired(trace, server) + Overwritten(trace, server)
  {
    if trace != [] {
      var before, e := trace[..|trace| - 1], trace[|trace| - 1];
      SamplesAreConserved(before, server);
      var db := Replay(before);
      if e.Save? {
        if e.server in db.servers {
          SaveConserves(db, History(before), e, server);
        }
      } else if e.Remove? {
        if Owned(db.servers, e.server, e.owner) {
          RemoveConserves(db.tables, History(before), e.server, server);
        }
      } else if e.Maintains() {
        TransactionConserves(db.tables, e, server);
      }
    }
  }

  // -------------------------------------------------------------- on-time runs

  lemma RawStepClashFree(h: seq<Sample>, w: Cutoffs, c: int)
    requires Settled(w) && c % FIVE_MINUTES == 0
    ensures Clashes(View(h, w).five, GroupBy(Below(From(h, w.raw), c), FIVE_MINUTES)) == map[]
  {
    var recent := Below(From(h, w.raw), c);
    FilterMembers(AtLeast(w.raw), h);
    FilterMembers(Before(c), From(h, w.raw));
    GroupKeyRange(recent, w.raw, FIVE_MINUTES);
    SplitAt(h, w.five, w.raw, w.raw, FIVE_MINUTES);
  }

  lemma {:induction false} FiveStepClashFree(h: seq<Sample>, w: Cutoffs, c: int)
    requires Settled(w) && c % ONE_HOUR == 0 && c <= w.raw
    ensures Clashes(View(h, w).hour, Regroup(RowsBelow(View(h, w).five, c), ONE_HOUR)) == map[]
  {
    HourAligned(w.five);
    HourAligned(c);
    if c <= w.five {
      NothingBelow(h, w.five, c, w.raw, FIVE_MINUTES);
      RegroupNothing(ONE_HOUR);
    } else {
      SplitRows(h, w.five, c, w.raw, FIVE_MINUTES);
      RegroupIsDirect(Between(h, w.five, c), FIVE_MINUTES, ONE_HOUR);
      SplitAt(h, w.hour, w.five, c, ONE_HOUR);
    }
  }

  lemma TransactionClashFree(trace: seq<Event>, e: Event, server: string)
    requires Legal(trace) && Refines(trace) && InTurn(trace, e)
    ensures OverwrittenBy(Replay(trace).tables, e, server) == 0
  {
    var h, w := History(trace), Watermarks(trace);
    WatermarksSettled(trace);
    if e.Maintains() {
      TurnCutoffs(trace, e);
      if e.RollUpRaw? {
        RawStepClashFree(h, w, e.call.Cutoffs().raw);
      } else if e.RollUp5m? {
        FiveStepClashFree(h, w, e.call.Cutoffs().five);
      }
    }
  }

  /** On on-time runs no upsert ever meets an existing key, so nothing is overwritten. */
  lemma {:induction false} OnTimeRunsOverwriteNothing(trace: seq<Event>, server: string)
    requires Legal(trace) && OnTime(trace)
    ensures Overwritten(trace, server) == 0
  {
    if trace != [] {
      var before := trace[..|trace| - 1];
      OnTimeRunsOverwriteNothing(before, server);
      OnTimeRunsRefine(before);
      TransactionClashFree(before, trace[|trace| - 1], server);
    }
  }

  /** The guard a caller could check: an upsert loses samples exactly when it meets an existing key. */
  lemma OverwriteIffClash(m: map<Key, Row>, changes: map<Key, Row>)
    ensures (exists server :: Weight(Clashes(m, changes), server) > 0) <==> exists k :: k in m && k in changes
  {
    var lost := Clashes(m, changes);
    if k :| k in m && k in changes {
      WeightWithout(lost, k.server, k);
    } else {
      assert lost == map[];
    }
  }
}
