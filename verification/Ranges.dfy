/** What an aggregated row means, and the bounds that validated payloads put on every row. */
module Ranges {
  import opened Wrappers
  import opened Sequences
  import opened Aggregates
  import opened Retention
  import opened Schedule

  datatype Metric = Cpu | Memory | Disk | Load

  function ValueOf(v: Values, m: Metric): real {
    match m case Cpu => v.cpu case Memory => v.memory case Disk => v.disk case Load => v.load
  }

  function TallyFor(g: Group, m: Metric): Tally
    requires g.Group?
  {
    match m case Cpu => g.cpu case Memory => g.memory case Disk => g.disk case Load => g.load
  }

  function StatFor(r: Row, m: Metric): Stat {
    match m case Cpu => r.cpu case Memory => r.memory case Disk => r.disk case Load => r.load
  }

  function Total(ss: seq<Sample>, m: Metric): real {
    if ss == [] then 0.0 else Total(ss[..|ss| - 1], m) + ValueOf(ss[|ss| - 1].values, m)
  }

  /** `lo` and `hi` are the extreme values of metric `m`, and both are attained. */
  ghost predicate Extremes(ss: seq<Sample>, m: Metric, lo: real, hi: real) {
    && (forall x :: x in ss ==> lo <= ValueOf(x.values, m) <= hi)
    && (exists x :: x in ss && ValueOf(x.values, m) == lo)
    && (exists x :: x in ss && ValueOf(x.values, m) == hi)
  }

  lemma ExtremesAppend(ss: seq<Sample>, x: Sample, m: Metric, lo: real, hi: real)
    requires Extremes(ss, m, lo, hi)
    ensures var v := ValueOf(x.values, m); Extremes(ss + [x], m, MinR(lo, v), MaxR(hi, v))
  {
    var v := ValueOf(x.values, m);
    var a :| a in ss && ValueOf(a.values, m) == lo;
    var b :| b in ss && ValueOf(b.values, m) == hi;
    assert a in ss + [x] && b in ss + [x] && x in ss + [x];
  }

  /** `avg` is the arithmetic mean of `n` values that add up to `total`. */
  predicate IsMean(avg: real, n: int, total: real) { avg * n as real == total }

  lemma MeanTimesCount(g: Group, m: Metric)
    requires g.Group?
    ensures IsMean(StatFor(RowOf(g), m).avg, RowOf(g).count, TallyFor(g, m).sum)
    ensures StatFor(RowOf(g), m).min == TallyFor(g, m).min && StatFor(RowOf(g), m).max == TallyFor(g, m).max
  {
    TallyBack(TallyFor(g, m), g.count);
  }

  /** The columns of a row are the mean, the attained extremes and the number of its samples. */
  lemma RowMeaning(ss: seq<Sample>, m: Metric)
    requires ss != []
    ensures var r := RowOf(GroupOf(ss)); var s := StatFor(r, m);
      r.count == |ss| && IsMean(s.avg, r.count, Total(ss, m)) && Extremes(ss, m, s.min, s.max)
  {
    TallyMeaning(ss, m);
    MeanTimesCount(GroupOf(ss), m);
  }

  lemma TallyAppend(init: seq<Sample>, x: Sample, m: Metric)
    ensures var v, g := ValueOf(x.values, m), GroupOf(init + [x]);
      g.Group? && TallyFor(g, m) == if init == [] then Single(v) else JoinTally(TallyFor(GroupOf(init), m), Single(v))
  {
    assert (init + [x])[..|init|] == init;
  }

  ghost predicate Tallies(ss: seq<Sample>, m: Metric, t: Tally) {
    t.sum == Total(ss, m) && Extremes(ss, m, t.min, t.max)
  }

  lemma TalliesOne(x: Sample, m: Metric)
    ensures Tallies([x], m, Single(ValueOf(x.values, m)))
  {
    assert x in [x] && [x][..0] == [] && Total([], m) == 0.0;
  }

  lemma TalliesAppend(init: seq<Sample>, x: Sample, m: Metric, t: Tally)
    requires Tallies(init, m, t)
    ensures Tallies(init + [x], m, JoinTally(t, Single(ValueOf(x.values, m))))
  {
    ExtremesAppend(init, x, m, t.min, t.max);
    assert (init + [x])[..|init|] == init;
  }

  lemma {:induction false} TallyMeaning(ss: seq<Sample>, m: Metric)
    requires ss != []
    ensures Tallies(ss, m, TallyFor(GroupOf(ss), m))
  {
    var init, x := ss[..|ss| - 1], ss[|ss| - 1];
    TallyAppend(init, x, m);
    assert init + [x] == ss;
    if init == [] {
      TalliesOne(x, m);
      assert ss == [x];
    } else {
      TallyMeaning(init, m);
      TalliesAppend(init, x, m, TallyFor(GroupOf(init), m));
    }
  }

  /** The largest uptime, which is attained. */
  ghost predicate Uppermost(ss: seq<Sample>, top: int) {
    (forall x :: x in ss ==> x.values.uptime <= top) && exists x :: x in ss && x.values.uptime == top
  }

  lemma UppermostAppend(ss: seq<Sample>, x: Sample, top: int)
    requires Uppermost(ss, top)
    ensures Uppermost(ss + [x], MaxI(top, x.values.uptime))
  {
    var y :| y in ss && y.values.uptime == top;
    assert y in ss + [x] && x in ss + [x];
  }

  /** `uptime_max` is the largest uptime of the group. */
  lemma {:induction false} UptimeMeaning(ss: seq<Sample>)
    requires ss != []
    ensures Uppermost(ss, RowOf(GroupOf(ss)).uptimeMax)
  {
    var init, x := ss[..|ss| - 1], ss[|ss| - 1];
    assert ss == init + [x];
    if init == [] {
      assert x in ss;
    } else {
      UptimeMeaning(init);
      UppermostAppend(init, x, RowOf(GroupOf(init)).uptimeMax);
    }
  }

  // -------------------------------------------------- the columns, one by one

  const CPU: Values -> real := (v: Values) => v.cpu
  const MEMORY: Values -> real := (v: Values) => v.memory
  const DISK: Values -> real := (v: Values) => v.disk
  const LOAD: Values -> real := (v: Values) => v.load

  /** The sum of one column. */
  function SumOf(ss: seq<Sample>, column: Values -> real): real {
    if ss == [] then 0.0 else SumOf(ss[..|ss| - 1], column) + column(ss[|ss| - 1].values)
  }

  ghost predicate Attained(ss: seq<Sample>, column: Values -> real, v: real) { exists x :: x in ss && column(x.values) == v }

  ghost predicate Describes(s: Stat, ss: seq<Sample>, column: Values -> real) {
    && IsMean(s.avg, |ss|, SumOf(ss, column))
    && (forall x :: x in ss ==> s.min <= column(x.values) <= s.max)
    && Attained(ss, column, s.min) && Attained(ss, column, s.max)
  }

  lemma {:induction false} TotalIsSum(ss: seq<Sample>, m: Metric, column: Values -> real)
    requires forall v :: column(v) == ValueOf(v, m)
    ensures Total(ss, m) == SumOf(ss, column)
  {
    if ss != [] {
      TotalIsSum(ss[..|ss| - 1], m, column);
    }
  }

  lemma {:induction false} ColumnMeaning(ss: seq<Sample>, m: Metric, column: Values -> real)
    requires ss != [] && forall v :: column(v) == ValueOf(v, m)
    ensures Describes(StatFor(RowOf(GroupOf(ss)), m), ss, column)
  {
    RowMeaning(ss, m);
    TotalIsSum(ss, m, column);
    var s := StatFor(RowOf(GroupOf(ss)), m);
    var lo :| lo in ss && ValueOf(lo.values, m) == s.min;
    var hi :| hi in ss && ValueOf(hi.values, m) == s.max;
    assert column(lo.values) == s.min && column(hi.values) == s.max;
  }

  /** Each column of a row stands for its own metric. */
  lemma {:induction false} RowColumns(ss: seq<Sample>)
    requires ss != []
    ensures var r := RowOf(GroupOf(ss));
      && r.count == |ss| && Uppermost(ss, r.uptimeMax)
      && Describes(r.cpu, ss, CPU) && Describes(r.memory, ss, MEMORY)
      && Describes(r.disk, ss, DISK) && Describes(r.load, ss, LOAD)
  {
    RowMeaning(ss, Cpu);
    UptimeMeaning(ss);
    ColumnMeaning(ss, Cpu, CPU);
    ColumnMeaning(ss, Memory, MEMORY);
    ColumnMeaning(ss, Disk, DISK);
    ColumnMeaning(ss, Load, LOAD);
  }

  // ------------------------------------------------------------------ bounds

  /** What `validatePayload` checks about the values; reals are never NaN or infinite. */
  predicate ValidValues(v: Values) {
    && 0.0 <= v.cpu <= 100.0 && 0.0 <= v.memory <= 100.0 && 0.0 <= v.disk <= 100.0 && 0.0 <= v.load
  }

  /** The value checks of `validatePayload`: a loop over the four values, then the three percentages. */
  method ValidateValues(v: Values) returns (ok: bool)
    ensures ok <==> ValidValues(v)
    ensures ok <==> 0.0 <= v.cpu <= 100.0 && 0.0 <= v.memory <= 100.0 && 0.0 <= v.disk <= 100.0 && v.load >= 0.0
  {
    var values := [v.cpu, v.memory, v.disk, v.load];
    var i := 0;
    while i < |values|
      invariant 0 <= i <= |values|
      invariant forall j :: 0 <= j < i ==> values[j] >= 0.0
    {
      if values[i] < 0.0 {
        return false;
      }
      i := i + 1;
    }
    assert values[0] >= 0.0 && values[1] >= 0.0 && values[2] >= 0.0 && values[3] >= 0.0;
    return !(v.cpu > 100.0 || v.memory > 100.0 || v.disk > 100.0);
  }

  predicate Bounded(m: Metric, hi: real) { m != Load ==> hi <= 100.0 }

  ghost predicate GoodStat(s: Stat, m: Metric) {
    0.0 <= s.min <= s.avg <= s.max && Bounded(m, s.max)
  }

  ghost predicate GoodTally(t: Tally, n: pos, m: Metric) {
    && 0.0 <= t.min && Bounded(m, t.max)
    && t.min * n as real <= t.sum <= t.max * n as real
  }

  ghost predicate GoodRow(r: Row) { forall m :: GoodStat(StatFor(r, m), m) }

  ghost predicate GoodGroup(g: Group) {
    g.Group? ==> forall m :: GoodTally(TallyFor(g, m), g.count, m)
  }

  ghost predicate GoodRows(t: map<Key, Row>) { forall k :: k in t ==> GoodRow(t[k]) }

  lemma ScaleUp(a: real, b: real, n: pos)
    requires a <= b
    ensures a * n as real <= b * n as real
  {
  }

  lemma ScaleStrict(a: real, b: real, n: pos)
    ensures a < b ==> a * n as real < b * n as real
  {
  }

  lemma ScaleSum(a: real, n: pos, k: pos)
    ensures a * (n + k) as real == a * n as real + a * k as real
  {
  }

  lemma JoinTallyGood(a: Tally, n: pos, b: Tally, k: pos, m: Metric)
    requires GoodTally(a, n, m) && GoodTally(b, k, m)
    ensures GoodTally(JoinTally(a, b), n + k, m)
  {
    var lo, hi := MinR(a.min, b.min), MaxR(a.max, b.max);
    SumAtLeast(lo, a.min, a.sum, n, b.min, b.sum, k);
    SumAtMost(hi, a.max, a.sum, n, b.max, b.sum, k);
  }

  lemma SumAtLeast(lo: real, x: real, sx: real, n: pos, y: real, sy: real, k: pos)
    requires lo <= x && lo <= y && x * n as real <= sx && y * k as real <= sy
    ensures lo * (n + k) as real <= sx + sy
  {
    ScaleUp(lo, x, n);
    ScaleUp(lo, y, k);
    ScaleSum(lo, n, k);
    AddBounds(lo * n as real, x * n as real, sx, lo * k as real, y * k as real, sy);
  }

  lemma AddBounds(a: real, b: real, c: real, d: real, e: real, f: real)
    requires a <= b <= c && d <= e <= f
    ensures a + d <= c + f
  {
  }

  lemma SumAtMost(hi: real, x: real, sx: real, n: pos, y: real, sy: real, k: pos)
    requires x <= hi && y <= hi && sx <= x * n as real && sy <= y * k as real
    ensures sx + sy <= hi * (n + k) as real
  {
    ScaleUp(x, hi, n);
    ScaleUp(y, hi, k);
    ScaleSum(hi, n, k);
    AddBounds(sx, x * n as real, hi * n as real, sy, y * k as real, hi * k as real);
  }

  lemma JoinGood(a: Group, b: Group)
    requires GoodGroup(a) && GoodGroup(b)
    ensures GoodGroup(Join(a, b))
  {
    if a.Group? && b.Group? {
      forall m ensures GoodTally(TallyFor(Join(a, b), m), a.count + b.count, m) {
        JoinTallyGood(TallyFor(a, m), a.count, TallyFor(b, m), b.count, m);
      }
    }
  }

  lemma DivideBetween(lo: real, sum: real, hi: real, n: pos)
    requires lo * n as real <= sum <= hi * n as real
    ensures lo <= sum / n as real <= hi
  {
    var q := sum / n as real;
    assert q * n as real == sum;
    ScaleStrict(q, lo, n);
    ScaleStrict(hi, q, n);
  }

  lemma RowGood(g: Group)
    requires GoodGroup(g) && g.Group?
    ensures GoodRow(RowOf(g))
  {
    forall m ensures GoodStat(StatFor(RowOf(g), m), m) {
      assert GoodTally(TallyFor(g, m), g.count, m);
      MetricGood(g, m);
    }
  }

  lemma MetricGood(g: Group, m: Metric)
    requires g.Group? && GoodTally(TallyFor(g, m), g.count, m)
    ensures GoodStat(StatFor(RowOf(g), m), m)
  {
    var t := TallyFor(g, m);
    StatGood(t, g.count, m);
    assert StatFor(RowOf(g), m) == StatOf(t, g.count);
  }

  lemma StatGood(t: Tally, n: pos, m: Metric)
    requires GoodTally(t, n, m)
    ensures GoodStat(StatOf(t, n), m)
  {
    DivideBetween(t.min, t.sum, t.max, n);
  }

  lemma WeightedGood(r: Row)
    requires GoodRow(r)
    ensures GoodGroup(Weighted(r))
  {
    forall m ensures GoodTally(TallyFor(Weighted(r), m), r.count, m) {
      var s := StatFor(r, m);
      assert GoodStat(s, m);
      ScaleUp(s.min, s.avg, r.count);
      ScaleUp(s.avg, s.max, r.count);
    }
  }

  lemma {:induction false} GroupGood(ss: seq<Sample>)
    requires forall x :: x in ss ==> ValidValues(x.values)
    ensures GoodGroup(GroupOf(ss))
  {
    if ss != [] {
      GroupGood(ss[..|ss| - 1]);
      assert GoodGroup(One(ss[|ss| - 1].values));
      JoinGood(GroupOf(ss[..|ss| - 1]), One(ss[|ss| - 1].values));
    }
  }

  lemma {:induction false} MergeGood(t: map<Key, Row>, server: string, lo: int, hi: int)
    requires GoodRows(t)
    ensures GoodGroup(MergeRange(t, server, lo, hi))
    decreases hi - lo
  {
    if lo < hi {
      MergeGood(t, server, lo, hi - 1);
      var k := Key(server, hi - 1);
      if k in t {
        WeightedGood(t[k]);
        JoinGood(MergeRange(t, server, lo, hi - 1), Weighted(t[k]));
      }
    }
  }

  lemma GroupByGood(ss: seq<Sample>, size: pos)
    requires forall x :: x in ss ==> ValidValues(x.values)
    ensures GoodRows(GroupBy(ss, size))
  {
    forall k | k in GroupBy(ss, size) ensures GoodRow(GroupBy(ss, size)[k]) {
      GroupNonEmpty(ss, size, k);
      FilterMembers(InGroup(k, size), ss);
      GroupGood(Filter(InGroup(k, size), ss));
      RowGood(GroupOf(Filter(InGroup(k, size), ss)));
    }
  }

  lemma RegroupGood(t: map<Key, Row>, size: pos)
    requires GoodRows(t)
    ensures GoodRows(Regroup(t, size))
  {
    forall g | g in Regroup(t, size) ensures GoodRow(Regroup(t, size)[g]) {
      RegroupAt(t, size, g);
      MergeGood(t, g.server, GroupLow(g.bucket, size), GroupHigh(g.bucket, size));
      RowGood(MergeRange(t, g.server, GroupLow(g.bucket, size), GroupHigh(g.bucket, size)));
    }
  }

  ghost predicate GoodTables(t: Tables) {
    (forall x :: x in t.raw ==> ValidValues(x.values)) && GoodRows(t.five) && GoodRows(t.hour)
  }

  lemma RawStepGood(t: Tables, c: int)
    requires GoodTables(t)
    ensures GoodTables(DownsampleRaw(t, c))
  {
    FilterMembers(Before(c), t.raw);
    FilterMembers(AtLeast(c), t.raw);
    GroupByGood(Below(t.raw, c), FIVE_MINUTES);
  }

  lemma FiveStepGood(t: Tables, c: int)
    requires GoodTables(t)
    ensures GoodTables(Downsample5m(t, c))
  {
    RegroupGood(RowsBelow(t.five, c), ONE_HOUR);
  }

  /** Every saved payload passed validation. */
  predicate ValidSaves(trace: seq<Event>) {
    forall e :: e in trace && e.Save? ==> ValidValues(e.values)
  }

  /**
   * In every run of validated payloads, late or not, each row of both tiers has
   * `0 <= min <= avg <= max`, with `max <= 100` for the three percentages.
   */
  lemma {:induction false} RowsStayInRange(trace: seq<Event>)
    requires ValidSaves(trace)
    ensures GoodTables(Replay(trace).tables)
  {
    if trace != [] {
      var before, e := trace[..|trace| - 1], trace[|trace| - 1];
      RowsStayInRange(before);
      var db := Replay(before);
      match e {
        case RollUpRaw(call) => RawStepGood(db.tables, call.Cutoffs().raw);
        case RollUp5m(call) => FiveStepGood(db.tables, call.Cutoffs().five);
        case Remove(server, owner) => FilterMembers(NotOf(server), db.tables.raw);
        case _ =>
      }
    }
  }
}
