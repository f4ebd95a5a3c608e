/**
 * At what age data changes its tier. Everything here is told by the configured retention periods and
 * the clock alone; the cutoffs that the code computes appear in no statement.
 */
module Ages {
  import opened Wrappers
  import opened Sequences
  import opened Aggregates
  import opened Retention
  import opened Refinement
  import opened Schedule
  import opened LateSamples

  /** The bucket of `size` milliseconds that holds `at`, counted from the epoch, is over at the instant `t`. */
  predicate EndsBy(at: int, size: pos, t: int) {
    (at - at % size + size) * 1_000_000 <= t
  }

  /** A cutoff parts the buckets that are over from those that are not. */
  lemma {:induction false} CutoffIsAge(at: int, t: int)
    ensures at < CompletedBucketCutoff(t, FIVE_MINUTES) <==> EndsBy(at, 300_000, t)
    ensures at < CompletedBucketCutoff(t, ONE_HOUR) <==> EndsBy(at, 3_600_000, t)
  {
    FiveMinuteCutoff(t);
    HourCutoff(t);
    FiveMinuteAge(at, CompletedBucketCutoff(t, FIVE_MINUTES), t);
    HourAge(at, CompletedBucketCutoff(t, ONE_HOUR), t);
  }

  lemma FiveMinuteAge(at: int, c: int, t: int)
    requires c % 300_000 == 0 && c * 1_000_000 <= t < (c + 300_000) * 1_000_000
    ensures at < c <==> EndsBy(at, 300_000, t)
  {
  }

  lemma HourAge(at: int, c: int, t: int)
    requires c % 3_600_000 == 0 && c * 1_000_000 <= t < (c + 3_600_000) * 1_000_000
    ensures at < c <==> EndsBy(at, 3_600_000, t)
  {
  }

  // ------------------------------------------------------------ from every state

  /**
   * What a complete call leaves, from every state and for every configuration and clock: a raw sample
   * stays exactly while its 5-minute bucket is not over `cfg.raw` ago, a 5-minute row exactly while its
   * hour is not over `cfg.five` ago, an hour row exactly while its hour is not over `cfg.aggregated` ago.
   */
  lemma {:induction false} CallAges(t: Tables, cfg: Config, now: int)
    ensures var after := Maintained(t, CutoffsAt(cfg, now), 3);
      && (forall x :: x in after.raw <==> x in t.raw && !EndsBy(x.at, 300_000, now - cfg.raw))
      && (forall k :: k in after.five ==> !EndsBy(k.bucket, 3_600_000, now - cfg.five))
      && (forall k :: k in t.five && !EndsBy(k.bucket, 3_600_000, now - cfg.five) ==> k in after.five)
      && (forall k :: k in after.hour ==> !EndsBy(k.bucket, 3_600_000, now - cfg.aggregated))
      && (forall k :: k in t.hour && !EndsBy(k.bucket, 3_600_000, now - cfg.aggregated) ==> k in after.hour)
  {
    var c := CutoffsAt(cfg, now);
    var t1 := DownsampleRaw(t, c.raw);
    var t2 := Downsample5m(t1, c.five);
    RawAges(t, c.raw, now - cfg.raw);
    RowAges(t1.five, c.five, now - cfg.five);
    RowAges(t2.hour, c.hour, now - cfg.aggregated);
    KeysStay(t.five, GroupBy(Below(t.raw, c.raw), FIVE_MINUTES));
    KeysStay(t.hour, Regroup(RowsBelow(t1.five, c.five), ONE_HOUR));
  }

  lemma {:induction false} RawAges(t: Tables, c: int, past: int)
    requires c == CompletedBucketCutoff(past, FIVE_MINUTES)
    ensures forall x :: x in DownsampleRaw(t, c).raw <==> x in t.raw && !EndsBy(x.at, 300_000, past)
  {
    FilterMembers(AtLeast(c), t.raw);
    forall x | x in t.raw ensures x.at < c <==> EndsBy(x.at, 300_000, past) {
      CutoffIsAge(x.at, past);
    }
  }

  lemma {:induction false} RowAges(m: map<Key, Row>, c: int, past: int)
    requires c == CompletedBucketCutoff(past, ONE_HOUR)
    ensures forall k :: k in RowsFrom(m, c) <==> k in m && !EndsBy(k.bucket, 3_600_000, past)
  {
    forall k | k in m ensures k.bucket < c <==> EndsBy(k.bucket, 3_600_000, past) {
      CutoffIsAge(k.bucket, past);
    }
  }

  lemma KeysStay(m: map<Key, Row>, changes: map<Key, Row>)
    ensures forall k :: k in m ==> k in m + changes
  {
  }

  // ---------------------------------------------------------------- over runs

  datatype Tier = RawSample | FiveMinuteRow | HourRow | Gone

  /** Where a sample belongs. */
  function TierOf(at: int, cfg: Config, now: int): Tier {
    if !EndsBy(at, 300_000, now - cfg.raw) then RawSample
    else if !EndsBy(at, 3_600_000, now - cfg.five) then FiveMinuteRow
    else if !EndsBy(at, 3_600_000, now - cfg.aggregated) then HourRow
    else Gone
  }

  function InTier(tier: Tier, cfg: Config, now: int): Sample -> bool { (x: Sample) => TierOf(x.at, cfg, now) == tier }

  /** The tables that a history calls for at a time. */
  function TablesByAge(h: seq<Sample>, cfg: Config, now: int): Tables {
    Tables(Filter(InTier(RawSample, cfg, now), h),
           GroupBy(Filter(InTier(FiveMinuteRow, cfg, now), h), 300_000),
           GroupBy(Filter(InTier(HourRow, cfg, now), h), 3_600_000))
  }

  /** No transaction so far reached a younger age in its tier than the call will. */
  predicate NotBack(trace: seq<Event>, cfg: Config, now: int) {
    && (forall e :: e in trace && e.RollUpRaw? ==> e.call.now - e.call.cfg.raw <= now - cfg.raw)
    && (forall e :: e in trace && e.RollUp5m? ==> e.call.now - e.call.cfg.five <= now - cfg.five)
    && (forall e :: e in trace && e.Expiry? ==> e.call.now - e.call.cfg.aggregated <= now - cfg.aggregated)
  }

  lemma {:induction false} WatermarksBehind(trace: seq<Event>, cfg: Config, now: int)
    requires NotBack(trace, cfg, now)
    ensures var w, c := Watermarks(trace), CutoffsAt(cfg, now);
      w.raw <= MaxI(0, c.raw) && w.five <= MaxI(0, c.five) && w.hour <= MaxI(0, c.hour)
  {
    if trace != [] {
      var before, e := trace[..|trace| - 1], trace[|trace| - 1];
      assert trace == before + [e];
      WatermarksBehind(before, cfg, now);
      assert e in trace;
      OneBehind(e, cfg, now);
    }
  }

  lemma {:induction false} OneBehind(e: Event, cfg: Config, now: int)
    requires NotBack([e], cfg, now)
    ensures var c := CutoffsAt(cfg, now);
      && (e.RollUpRaw? ==> e.call.Cutoffs().raw <= c.raw)
      && (e.RollUp5m? ==> e.call.Cutoffs().five <= c.five)
      && (e.Expiry? ==> e.call.Cutoffs().hour <= c.hour)
  {
    assert e in [e];
    if e.RollUpRaw? {
      CutoffMonotone(e.call.now - e.call.cfg.raw, now - cfg.raw, FIVE_MINUTES);
    } else if e.RollUp5m? {
      CutoffMonotone(e.call.now - e.call.cfg.five, now - cfg.five, ONE_HOUR);
    } else if e.Expiry? {
      CutoffMonotone(e.call.now - e.call.cfg.aggregated, now - cfg.aggregated, ONE_HOUR);
    }
  }

  /** A view at the cutoffs of a call is the view by age, for samples that are not from before 1970. */
  lemma {:induction false} ViewByAge(h: seq<Sample>, w: Cutoffs, cfg: Config, now: int)
    requires cfg.Valid() && forall x :: x in h ==> 0 <= x.at
    requires var c := CutoffsAt(cfg, now); w == Cutoffs(MaxI(0, c.raw), MaxI(0, c.five), MaxI(0, c.hour))
    ensures View(h, w) == TablesByAge(h, cfg, now)
  {
    CutoffsInOrder(cfg, now);
    forall x | x in h
      ensures AtLeast(w.raw)(x) == InTier(RawSample, cfg, now)(x)
      ensures Within(w.five, w.raw)(x) == InTier(FiveMinuteRow, cfg, now)(x)
      ensures Within(w.hour, w.five)(x) == InTier(HourRow, cfg, now)(x)
    {
      CutoffIsAge(x.at, now - cfg.raw);
      CutoffIsAge(x.at, now - cfg.five);
      CutoffIsAge(x.at, now - cfg.aggregated);
    }
    FilterSame(AtLeast(w.raw), InTier(RawSample, cfg, now), h);
    FilterSame(Within(w.five, w.raw), InTier(FiveMinuteRow, cfg, now), h);
    FilterSame(Within(w.hour, w.five), InTier(HourRow, cfg, now), h);
  }

  /**
   * After any on-time run and one complete call whose ages have not gone back, every sample of the
   * live history is in the tier of its age, and the tables are exactly those tiers.
   */
  lemma {:induction false} TiersByAge(trace: seq<Event>, cfg: Config, now: int)
    requires Legal(trace) && OnTime(trace) && cfg.Valid() && NotBack(trace, cfg, now)
    ensures Replay(trace + Committed(Call(cfg, now), 3)).tables == TablesByAge(History(trace), cfg, now)
  {
    var call := Call(cfg, now);
    CallIsLegal(trace, call);
    CallEffect(trace, call);
    OnTimeRunsRefine(trace + Committed(call, 3));
    OnTimeHistorySinceEpoch(trace);
    WatermarksBehind(trace, cfg, now);
    WatermarksSettled(trace);
    ViewByAge(History(trace), Raised(Watermarks(trace), call.Cutoffs(), 3), cfg, now);
  }

  /** The store, when nobody interferes. */
  method MaintainByAge(store: MetricStore, cfg: Config, now: int) returns (r: Outcome)
    requires store.Valid() && OnTime(store.trace) && NotBack(store.trace, cfg, now)
    modifies store
    ensures store.Valid()
    ensures r == if 0 < cfg.raw < cfg.five < cfg.aggregated then Done else Failed(InvalidRetention)
    ensures r.Done? ==> Tables(store.raw, store.five, store.hour) == TablesByAge(old(History(store.trace)), cfg, now)
    ensures r.Failed? ==> store.Contents() == old(store.Contents())
  {
    ghost var trace := store.trace;
    if cfg.Valid() {
      TiersByAge(trace, cfg, now);
    }
    r := store.MaintainAt(cfg, now, 3);
  }
}
