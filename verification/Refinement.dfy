/**
 * The tiered tables are a view of the full history of live servers. A sample is on time when
 * it is not older than any raw cutoff used so far; the code accepts older samples too.
 */
module Refinement {
  import opened Wrappers
  import opened Sequences
  import opened Aggregates
  import opened Retention

  function Within(lo: int, hi: int): Sample -> bool { (x: Sample) => lo <= x.at < hi }

  function Between(h: seq<Sample>, lo: int, hi: int): seq<Sample> { Filter(Within(lo, hi), h) }

  /** The tables as a function of the unpruned history and the three high-water cutoffs. */
  function View(h: seq<Sample>, w: Cutoffs): Tables {
    Tables(From(h, w.raw),
           GroupBy(Between(h, w.five, w.raw), FIVE_MINUTES),
           GroupBy(Between(h, w.hour, w.five), ONE_HOUR))
  }

  function HistoryStep(h: seq<Sample>, db: Db, e: Event): seq<Sample> {
    match e
    case Save(server, values, at) =>
      if server !in db.servers then h else h + [Inserted(db.tables.raw, server, values, at)]
    case Remove(server, owner) => if !Owned(db.servers, server, owner) then h else Without(h, server)
    case _ => h
  }

  /** Every sample ever accepted, for the servers that still exist. */
  function History(trace: seq<Event>): seq<Sample> {
    if trace == [] then []
    else
      var before := trace[..|trace| - 1];
      HistoryStep(History(before), Replay(before), trace[|trace| - 1])
  }

  /** The watermarks after an undisturbed call that committed its first `commits` transactions. */
  function Raised(w: Cutoffs, c: Cutoffs, commits: nat): Cutoffs {
    Cutoffs(if commits >= 1 then MaxI(w.raw, c.raw) else w.raw,
            if commits >= 2 then MaxI(w.five, c.five) else w.five,
            if commits >= 3 then MaxI(w.hour, c.hour) else w.hour)
  }

  function WatermarkStep(w: Cutoffs, e: Event): Cutoffs {
    match e
    case RollUpRaw(call) => w.(raw := MaxI(w.raw, call.Cutoffs().raw))
    case RollUp5m(call) => w.(five := MaxI(w.five, call.Cutoffs().five))
    case Expiry(call) => w.(hour := MaxI(w.hour, call.Cutoffs().hour))
    case _ => w
  }

  /** The largest cutoff with which each of the three transactions has committed. */
  function Watermarks(trace: seq<Event>): Cutoffs {
    if trace == [] then Cutoffs(0, 0, 0)
    else WatermarkStep(Watermarks(trace[..|trace| - 1]), trace[|trace| - 1])
  }

  /** The event, coming after `trace`, does not save a sample that is older than a raw cutoff. */
  predicate OnTimeEvent(trace: seq<Event>, e: Event) {
    e.Save? && e.server in Replay(trace).servers ==> Watermarks(trace).raw <= e.at
  }

  predicate OnTime(trace: seq<Event>) {
    trace == [] || (OnTime(trace[..|trace| - 1]) && OnTimeEvent(trace[..|trace| - 1], trace[|trace| - 1]))
  }

  predicate Refines(trace: seq<Event>) {
    Replay(trace).tables == View(History(trace), Watermarks(trace))
  }

  /** All that a run is made of, after one more transaction. */
  lemma OneMore(trace: seq<Event>, e: Event)
    ensures var run := trace + [e];
      && Replay(run) == Step(Replay(trace), e)
      && History(run) == HistoryStep(History(trace), Replay(trace), e)
      && Watermarks(run) == WatermarkStep(Watermarks(trace), e)
      && Legal(run) == (Legal(trace) && InTurn(trace, e))
      && OnTime(run) == (OnTime(trace) && OnTimeEvent(trace, e))
  {
    assert (trace + [e])[..|trace|] == trace;
  }

  // ---------------------------------------------------------------- cutoffs

  predicate Aligned(w: Cutoffs) {
    w.raw % FIVE_MINUTES == 0 && w.five % ONE_HOUR == 0 && w.hour % ONE_HOUR == 0
  }

  /** A state of the watermarks that maintenance can reach. */
  predicate Settled(w: Cutoffs) {
    Aligned(w) && 0 <= w.hour <= w.five <= w.raw
  }

  lemma FiveMinuteCutoff(at: int)
    ensures var c := CompletedBucketCutoff(at, FIVE_MINUTES);
      c % 300_000 == 0 && c * 1_000_000 <= at < (c + 300_000) * 1_000_000
  {
    var k := (at - YEAR_ONE) / 300_000_000_000 - 207_118_656;
    assert Truncate(at, 300_000_000_000) == k * 300_000_000_000;
    assert CompletedBucketCutoff(at, FIVE_MINUTES) == k * 300_000;
  }

  lemma HourCutoff(at: int)
    ensures var c := CompletedBucketCutoff(at, ONE_HOUR);
      c % 3_600_000 == 0 && c * 1_000_000 <= at < (c + 3_600_000) * 1_000_000
  {
    var k := (at - YEAR_ONE) / 3_600_000_000_000 - 17_259_888;
    assert Truncate(at, 3_600_000_000_000) == k * 3_600_000_000_000;
    assert CompletedBucketCutoff(at, ONE_HOUR) == k * 3_600_000;
  }

  /** The cutoff is the start of the bucket that contains `at`, counted from the Unix epoch. */
  lemma CutoffIsBucketStart(at: int, bucket: pos)
    requires bucket == FIVE_MINUTES || bucket == ONE_HOUR
    ensures var c := CompletedBucketCutoff(at, bucket);
      c % bucket == 0 && c * NANOS_PER_MILLI <= at < (c + bucket) * NANOS_PER_MILLI
  {
    FiveMinuteCutoff(at);
    HourCutoff(at);
  }

  lemma MultiplesInOrder(c1: int, c2: int, bucket: pos)
    requires bucket == 300_000 || bucket == 3_600_000
    requires c1 % bucket == 0 && c2 % bucket == 0 && c1 < c2 + bucket
    ensures c1 <= c2
  {
  }

  lemma CutoffMonotone(at1: int, at2: int, bucket: pos)
    requires at1 <= at2 && (bucket == FIVE_MINUTES || bucket == ONE_HOUR)
    ensures CompletedBucketCutoff(at1, bucket) <= CompletedBucketCutoff(at2, bucket)
  {
    CutoffIsBucketStart(at1, bucket);
    CutoffIsBucketStart(at2, bucket);
    MultiplesInOrder(CompletedBucketCutoff(at1, bucket), CompletedBucketCutoff(at2, bucket), bucket);
  }

  lemma HourBeforeFiveMinutes(at1: int, at2: int)
    requires at1 <= at2
    ensures CompletedBucketCutoff(at1, ONE_HOUR) <= CompletedBucketCutoff(at2, FIVE_MINUTES)
  {
    CutoffIsBucketStart(at1, ONE_HOUR);
    CutoffIsBucketStart(at2, FIVE_MINUTES);
    HourAligned(CompletedBucketCutoff(at1, ONE_HOUR));
    MultiplesInOrder(CompletedBucketCutoff(at1, ONE_HOUR), CompletedBucketCutoff(at2, FIVE_MINUTES), FIVE_MINUTES);
  }

  lemma CutoffsInOrder(cfg: Config, now: int)
    requires cfg.Valid()
    ensures var c := CutoffsAt(cfg, now); Aligned(c) && c.hour <= c.five <= c.raw
  {
    CutoffIsBucketStart(now - cfg.raw, FIVE_MINUTES);
    CutoffIsBucketStart(now - cfg.five, ONE_HOUR);
    CutoffIsBucketStart(now - cfg.aggregated, ONE_HOUR);
    CutoffMonotone(now - cfg.aggregated, now - cfg.five, ONE_HOUR);
    HourBeforeFiveMinutes(now - cfg.five, now - cfg.raw);
  }

  lemma CutoffsMonotone(cfg: Config, t1: int, t2: int)
    requires t1 <= t2
    ensures var c1, c2 := CutoffsAt(cfg, t1), CutoffsAt(cfg, t2);
      c1.raw <= c2.raw && c1.five <= c2.five && c1.hour <= c2.hour
  {
    CutoffMonotone(t1 - cfg.raw, t2 - cfg.raw, FIVE_MINUTES);
    CutoffMonotone(t1 - cfg.five, t2 - cfg.five, ONE_HOUR);
    CutoffMonotone(t1 - cfg.aggregated, t2 - cfg.aggregated, ONE_HOUR);
  }

  /** A transaction in the trace has raised its watermark, and its call's configuration is valid. */
  lemma {:induction false} RawCommitted(trace: seq<Event>, call: Call)
    requires Legal(trace) && RollUpRaw(call) in trace
    ensures call.cfg.Valid() && call.Cutoffs().raw <= Watermarks(trace).raw
  {
    var before, e := trace[..|trace| - 1], trace[|trace| - 1];
    assert trace == before + [e];
    if RollUpRaw(call) in before {
      RawCommitted(before, call);
    }
  }

  lemma {:induction false} FiveCommitted(trace: seq<Event>, call: Call)
    requires Legal(trace) && RollUp5m(call) in trace
    ensures RollUpRaw(call) in trace && call.Cutoffs().five <= Watermarks(trace).five
  {
    var before, e := trace[..|trace| - 1], trace[|trace| - 1];
    assert trace == before + [e];
    if RollUp5m(call) in before {
      FiveCommitted(before, call);
    }
  }

  /** A transaction in its turn finds the watermarks far enough for its cutoff. */
  lemma TurnCutoffs(trace: seq<Event>, e: Event)
    requires Legal(trace) && InTurn(trace, e) && e.Maintains()
    ensures var w, c := Watermarks(trace), e.call.Cutoffs();
      && Aligned(c) && c.hour <= c.five <= c.raw
      && (e.RollUp5m? ==> c.five <= w.raw) && (e.Expiry? ==> c.hour <= w.five)
  {
    if e.Expiry? {
      FiveCommitted(trace, e.call);
    }
    if !e.RollUpRaw? {
      RawCommitted(trace, e.call);
    }
    CutoffsInOrder(e.call.cfg, e.call.now);
  }

  lemma {:induction false} WatermarksSettled(trace: seq<Event>)
    requires Legal(trace)
    ensures Settled(Watermarks(trace))
  {
    if trace != [] {
      var before, e := trace[..|trace| - 1], trace[|trace| - 1];
      WatermarksSettled(before);
      if e.Maintains() {
        TurnCutoffs(before, e);
      }
    }
  }

  // ---------------------------------------------------------------- grouping

  /** The samples of one group. */
  function Rows(ss: seq<Sample>, size: pos, k: Key): seq<Sample> { Filter(InGroup(k, size), ss) }

  lemma GroupByAt(ss: seq<Sample>, size: pos, k: Key)
    ensures k in GroupBy(ss, size) <==> Rows(ss, size, k) != []
    ensures k in GroupBy(ss, size) ==> GroupBy(ss, size)[k] == RowOf(GroupOf(Rows(ss, size, k)))
  {
    GroupNonEmpty(ss, size, k);
  }

  lemma GroupByAppend(ss: seq<Sample>, x: Sample, size: pos)
    ensures var k := KeyOf(x, size);
      GroupBy(ss + [x], size) == GroupBy(ss, size)[k := RowOf(GroupOf(Rows(ss, size, k) + [x]))]
  {
    forall k
      ensures k in GroupBy(ss + [x], size) <==> k in GroupBy(ss, size) || k == KeyOf(x, size)
      ensures k in GroupBy(ss + [x], size) ==>
                GroupBy(ss + [x], size)[k] == if k == KeyOf(x, size) then RowOf(GroupOf(Rows(ss, size, k) + [x]))
                                              else GroupBy(ss, size)[k]
    {
      GroupByAt(ss, size, k);
      GroupByAt(ss + [x], size, k);
      FilterAppend(InGroup(k, size), ss, x);
    }
  }

  lemma BucketBelow(t: int, c: int, size: pos)
    requires t >= 0 && c >= 0 && c % size == 0
    ensures SqlBucket(t, size) < c <==> t < c
  {
    var q, n := t / size, c / size;
    DivBounds(t, size);
    DivBack(c, size);
    MulOrder(q, n, size);
    MulOrder(n, q, size);
  }

  function WithinGroup(lo: int, hi: int, k: Key, size: pos): Sample -> bool {
    (x: Sample) => lo <= x.at < hi && KeyOf(x, size) == k
  }

  lemma RowsBetween(h: seq<Sample>, lo: int, hi: int, size: pos, k: Key)
    ensures Rows(Between(h, lo, hi), size, k) == Filter(WithinGroup(lo, hi, k, size), h)
  {
    var p, q := Within(lo, hi), InGroup(k, size);
    FilterTwice(p, q, h);
    FilterSame(Both(p, q), WithinGroup(lo, hi, k, size), h);
  }

  /** Cutting the time range at a bucket boundary cuts the grouped table in two. */
  lemma {:induction false} SplitAt(h: seq<Sample>, lo: int, c: int, hi: int, size: pos)
    requires 0 <= lo <= c <= hi && c % size == 0
    ensures var past, recent := GroupBy(Between(h, lo, c), size), GroupBy(Between(h, c, hi), size);
      && GroupBy(Between(h, lo, hi), size) == past + recent
      && (forall k :: k in past ==> k.bucket < c)
      && (forall k :: k in recent ==> c <= k.bucket)
  {
    var whole := GroupBy(Between(h, lo, hi), size);
    var past, recent := GroupBy(Between(h, lo, c), size), GroupBy(Between(h, c, hi), size);
    forall k
      ensures k in past ==> k.bucket < c
      ensures k in recent ==> c <= k.bucket
      ensures k in whole <==> k in past + recent
      ensures k in whole ==> whole[k] == (past + recent)[k]
    {
      GroupByAt(Between(h, lo, hi), size, k);
      GroupByAt(Between(h, lo, c), size, k);
      GroupByAt(Between(h, c, hi), size, k);
      RowsBetween(h, lo, hi, size, k);
      RowsBetween(h, lo, c, size, k);
      RowsBetween(h, c, hi, size, k);
      var all, left, right := WithinGroup(lo, hi, k, size), WithinGroup(lo, c, k, size), WithinGroup(c, hi, k, size);
      forall x: Sample | x.at >= 0 ensures SqlBucket(x.at, size) < c <==> x.at < c {
        BucketBelow(x.at, c, size);
      }
      if k.bucket < c {
        FilterSame(all, left, h);
        FilterNone(right, h);
      } else {
        FilterSame(all, right, h);
        FilterNone(left, h);
      }
    }
  }

  lemma {:induction false} SplitRows(h: seq<Sample>, lo: int, c: int, hi: int, size: pos)
    requires 0 <= lo <= c <= hi && c % size == 0
    ensures RowsBelow(GroupBy(Between(h, lo, hi), size), c) == GroupBy(Between(h, lo, c), size)
    ensures RowsFrom(GroupBy(Between(h, lo, hi), size), c) == GroupBy(Between(h, c, hi), size)
  {
    SplitAt(h, lo, c, hi, size);
  }

  /** Below the range nothing moves. */
  lemma NothingBelow(h: seq<Sample>, lo: int, c: int, hi: int, size: pos)
    requires 0 <= lo <= hi && c <= lo && lo % size == 0
    ensures RowsBelow(GroupBy(Between(h, lo, hi), size), c) == map[]
    ensures RowsFrom(GroupBy(Between(h, lo, hi), size), c) == GroupBy(Between(h, lo, hi), size)
  {
    SplitAt(h, lo, lo, hi, size);
    var empty := Between(h, lo, lo);
    FilterNone(Within(lo, lo), h);
  }

  // ------------------------------------------------------- the transactions

  lemma {:induction false} DownsampleRawRefines(h: seq<Sample>, w: Cutoffs, c: int)
    requires Settled(w) && c % FIVE_MINUTES == 0
    ensures DownsampleRaw(View(h, w), c) == View(h, w.(raw := MaxI(w.raw, c)))
  {
    var t := View(h, w);
    var keep, cut, recent := AtLeast(c), Before(c), AtLeast(w.raw);
    FilterTwice(recent, keep, h);
    FilterTwice(recent, cut, h);
    if c <= w.raw {
      FilterSame(Both(recent, keep), recent, h);
      FilterNone(Both(recent, cut), h);
      assert Below(t.raw, c) == [];
      assert t.five + GroupBy([], FIVE_MINUTES) == t.five;
    } else {
      FilterSame(Both(recent, keep), keep, h);
      FilterSame(Both(recent, cut), Within(w.raw, c), h);
      assert Below(t.raw, c) == Between(h, w.raw, c);
      SplitAt(h, w.five, w.raw, c, FIVE_MINUTES);
    }
  }

  lemma RegroupNothing(size: pos)
    ensures Regroup(map[], size) == map[]
  {
  }

  lemma HourAligned(c: int)
    requires c % ONE_HOUR == 0
    ensures c % FIVE_MINUTES == 0
  {
  }

  lemma {:induction false} Downsample5mRefines(h: seq<Sample>, w: Cutoffs, c: int)
    requires Settled(w) && c % ONE_HOUR == 0 && c <= w.raw
    ensures Downsample5m(View(h, w), c) == View(h, w.(five := MaxI(w.five, c)))
  {
    var t := View(h, w);
    HourAligned(w.five);
    HourAligned(c);
    if c <= w.five {
      NothingBelow(h, w.five, c, w.raw, FIVE_MINUTES);
      RegroupNothing(ONE_HOUR);
    } else {
      SplitRows(h, w.five, c, w.raw, FIVE_MINUTES);
      RegroupIsDirect(Between(h, w.five, c), FIVE_MINUTES, ONE_HOUR);
      SplitAt(h, w.hour, w.five, c, ONE_HOUR);
    }
  }

  lemma ExpireRefines(h: seq<Sample>, w: Cutoffs, c: int)
    requires Settled(w) && c % ONE_HOUR == 0 && c <= w.five
    ensures Expire(View(h, w), c) == View(h, w.(hour := MaxI(w.hour, c)))
  {
    if c <= w.hour {
      NothingBelow(h, w.hour, c, w.five, ONE_HOUR);
    } else {
      SplitRows(h, w.hour, c, w.five, ONE_HOUR);
    }
  }

  /** A maintenance call maps a view to a view, whichever transaction it stops at. */
  lemma MaintainedRefines(h: seq<Sample>, w: Cutoffs, c: Cutoffs, commits: nat)
    requires Settled(w) && Aligned(c) && c.hour <= c.five <= c.raw
    ensures Maintained(View(h, w), c, commits) == View(h, Raised(w, c, commits))
  {
    if commits >= 1 {
      DownsampleRawRefines(h, w, c.raw);
      var w1 := w.(raw := MaxI(w.raw, c.raw));
      if commits >= 2 {
        Downsample5mRefines(h, w1, c.five);
        var w2 := w1.(five := MaxI(w1.five, c.five));
        if commits >= 3 {
          ExpireRefines(h, w2, c.hour);
        }
      }
    }
  }

  lemma AppendRecent(h: seq<Sample>, w: Cutoffs, x: Sample)
    requires Settled(w)
    ensures w.raw <= x.at ==> View(h + [x], w) == View(h, w).(raw := View(h, w).raw + [x])
    ensures x.at < w.raw ==> View(h + [x], w).raw == View(h, w).raw
  {
    FilterAppend(AtLeast(w.raw), h, x);
    FilterAppend(Within(w.five, w.raw), h, x);
    FilterAppend(Within(w.hour, w.five), h, x);
  }

  lemma RowsOfOthers(ss: seq<Sample>, size: pos, server: string, k: Key)
    ensures Rows(Without(ss, server), size, k) == if k.server == server then [] else Rows(ss, size, k)
  {
    var p, q := NotOf(server), InGroup(k, size);
    FilterTwice(p, q, ss);
    forall x: Sample ensures q(x) ==> x.server == k.server {
      assert KeyOf(x, size).server == x.server;
    }
    if k.server == server {
      FilterNone(Both(p, q), ss);
    } else {
      FilterSame(Both(p, q), q, ss);
    }
  }

  lemma GroupByWithout(ss: seq<Sample>, size: pos, server: string)
    ensures GroupBy(Without(ss, server), size) == RowsWithout(GroupBy(ss, size), server)
  {
    var left, right := GroupBy(Without(ss, server), size), RowsWithout(GroupBy(ss, size), server);
    forall k
      ensures k in left <==> k in right
      ensures k in left ==> left[k] == right[k]
    {
      GroupByAt(Without(ss, server), size, k);
      GroupByAt(ss, size, k);
      RowsOfOthers(ss, size, server, k);
    }
  }

  lemma FiltersCommute(p: Sample -> bool, q: Sample -> bool, h: seq<Sample>)
    ensures Filter(p, Filter(q, h)) == Filter(q, Filter(p, h))
  {
    FilterTwice(q, p, h);
    FilterTwice(p, q, h);
    FilterSame(Both(q, p), Both(p, q), h);
  }

  lemma CascadeRefines(h: seq<Sample>, w: Cutoffs, server: string)
    ensures Cascade(View(h, w), server) == View(Without(h, server), w)
  {
    var other := NotOf(server);
    FiltersCommute(other, AtLeast(w.raw), h);
    FiltersCommute(other, Within(w.five, w.raw), h);
    FiltersCommute(other, Within(w.hour, w.five), h);
    GroupByWithout(Between(h, w.five, w.raw), FIVE_MINUTES, server);
    GroupByWithout(Between(h, w.hour, w.five), ONE_HOUR, server);
  }

  // ----------------------------------------------------------------- theorems

  lemma TransactionRefines(trace: seq<Event>, e: Event)
    requires Legal(trace) && Refines(trace) && InTurn(trace, e) && e.Maintains()
    ensures Refines(trace + [e])
  {
    var after := trace + [e];
    assert after[..|after| - 1] == trace;
    var h, w, c := History(trace), Watermarks(trace), e.call.Cutoffs();
    WatermarksSettled(trace);
    TurnCutoffs(trace, e);
    match e {
      case RollUpRaw(_) => DownsampleRawRefines(h, w, c.raw);
      case RollUp5m(_) => Downsample5mRefines(h, w, c.five);
      case Expiry(_) => ExpireRefines(h, w, c.hour);
    }
  }

  /** Whatever the transaction, it keeps the refinement exactly when it is on time. */
  lemma EventRefinesExactly(trace: seq<Event>, e: Event)
    requires Legal(trace) && Refines(trace) && InTurn(trace, e)
    ensures Refines(trace + [e]) <==> OnTimeEvent(trace, e)
  {
    var after := trace + [e];
    assert after[..|after| - 1] == trace;
    var h, w := History(trace), Watermarks(trace);
    var db := Replay(trace);
    WatermarksSettled(trace);
    match e {
      case Save(server, values, at) =>
        if server in db.servers {
          AppendRecent(h, w, Inserted(db.tables.raw, server, values, at));
        }
      case Remove(server, owner) =>
        CascadeRefines(h, w, server);
      case Register(_, _) =>
      case _ => TransactionRefines(trace, e);
    }
  }

  /**
   * After any run whose saves are on time, the tables are the view of the live history: with any
   * clock readings, any valid configuration per call, any crashes, and any interleaving of the
   * transactions of maintenance calls with each other, with saves and with deletions.
   */
  lemma {:induction false} OnTimeRunsRefine(trace: seq<Event>)
    requires Legal(trace) && OnTime(trace)
    ensures Refines(trace)
  {
    if trace != [] {
      var before, e := trace[..|trace| - 1], trace[|trace| - 1];
      OnTimeRunsRefine(before);
      EventRefinesExactly(before, e);
      assert before + [e] == trace;
    } else {
      assert GroupBy([], FIVE_MINUTES) == map[] && GroupBy([], ONE_HOUR) == map[];
    }
  }

  lemma {:induction false} OnTimeHistorySinceEpoch(trace: seq<Event>)
    requires Legal(trace) && OnTime(trace)
    ensures forall x :: x in History(trace) ==> 0 <= x.at
  {
    if trace != [] {
      var before, e := trace[..|trace| - 1], trace[|trace| - 1];
      OnTimeHistorySinceEpoch(before);
      WatermarksSettled(before);
      if e.Remove? {
        FilterMembers(NotOf(e.server), History(before));
      }
    }
  }

  /** The same for the mutable store: an on-time store holds the view of its live history. */
  lemma StoreRefines(store: MetricStore)
    requires store.Valid() && OnTime(store.trace)
    ensures Tables(store.raw, store.five, store.hour) == View(History(store.trace), Watermarks(store.trace))
  {
    OnTimeRunsRefine(store.trace);
  }
}
