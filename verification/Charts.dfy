/** Chart queries over the raw table. */
module Charts {
  import opened Wrappers
  import opened Sequences
  import opened Aggregates
  import opened Retention
  import opened Refinement
  import opened Ranges

  const MINUTE: int := 60_000_000_000  // nanoseconds
  const HOUR: int := 60 * MINUTE
  const DAY: int := 24 * HOUR

  datatype Window = Window(duration: int, bucket: string)

  function ChartRange(value: string): Option<Window> {
    if value == "15m" then Some(Window(15 * MINUTE, "15 seconds"))
    else if value == "1h" then Some(Window(HOUR, "1 minute"))
    else if value == "6h" then Some(Window(6 * HOUR, "5 minutes"))
    else if value == "24h" then Some(Window(24 * HOUR, "15 minutes"))
    else None
  }

  function BucketMillis(bucket: string): Option<pos> {
    if bucket == "15 seconds" then Some(15_000)
    else if bucket == "1 minute" then Some(60_000)
    else if bucket == "5 minutes" then Some(300_000)
    else if bucket == "15 minutes" then Some(900_000)
    else None
  }

  function UnixMilli(t: int): int { t / NANOS_PER_MILLI }

  /** `WHERE server_id=? AND collected_at>=? AND collected_at<=?`. */
  function Shown(server: string, start: int, end: int): Sample -> bool {
    (x: Sample) => x.server == server && start <= x.at <= end
  }

  function Selected(raw: seq<Sample>, server: string, start: int, end: int): seq<Sample> {
    Filter(Shown(server, start, end), raw)
  }

  /** One row of the chart query: its bucket and the aggregate of the samples in it. */
  datatype Bar = Bar(at: int, row: Row)

  /** `GROUP BY (collected_at / size) * size ORDER BY bucket`, over the buckets from `lo` to `hi`. */
  function Bars(ss: seq<Sample>, server: string, size: pos, lo: int, hi: int): seq<Bar>
    decreases hi - lo
  {
    if hi < lo then []
    else
      var groups := GroupBy(ss, size);
      var rest := Bars(ss, server, size, lo, hi - size);
      if Key(server, hi) in groups then rest + [Bar(hi, groups[Key(server, hi)])] else rest
  }

  function ChartBars(raw: seq<Sample>, server: string, start: int, end: int, size: pos): seq<Bar> {
    Bars(Selected(raw, server, start, end), server, size, SqlBucket(start, size), SqlBucket(end, size))
  }

  /** A record of the response. */
  datatype Point = Point(at: int, cpu: real, memory: real, disk: real, load: real, uptime: int)

  function PointOf(b: Bar): Point {
    Point(b.at, b.row.cpu.avg, b.row.memory.avg, b.row.disk.avg, b.row.load.avg, b.row.uptimeMax)
  }

  datatype Summary = Summary(average: real, peak: real)

  /** `COALESCE(AVG(x),0), COALESCE(MAX(x),0)`. */
  function Statistic(ss: seq<Sample>, m: Metric): Summary {
    if ss == [] then Summary(0.0, 0.0)
    else
      var s := StatFor(RowOf(GroupOf(ss)), m);
      Summary(s.avg, s.max)
  }

  datatype Statistics = Statistics(cpu: Summary, memory: Summary, disk: Summary, load: Summary)

  function StatisticsOf(ss: seq<Sample>): Statistics {
    Statistics(Statistic(ss, Cpu), Statistic(ss, Memory), Statistic(ss, Disk), Statistic(ss, Load))
  }

  /** The raw chart of a store; `None` for a bucket name that is not supported. */
  method RawChart(store: MetricStore, server: string, start: int, end: int, bucket: string)
    returns (r: Option<(seq<Point>, Statistics)>)
    ensures r.Some? <==> BucketMillis(bucket).Some?
    ensures r.Some? ==>
              var (records, stats) := r.value;
              var bars := ChartBars(store.raw, server, UnixMilli(start), UnixMilli(end), BucketMillis(bucket).value);
              && |records| == |bars|
              && (forall i :: 0 <= i < |bars| ==> records[i] == PointOf(bars[i]))
              && stats == StatisticsOf(Selected(store.raw, server, UnixMilli(start), UnixMilli(end)))
  {
    var size := BucketMillis(bucket);
    if size.None? {
      return None;
    }
    var rows := ChartBars(store.raw, server, UnixMilli(start), UnixMilli(end), size.value);
    var out: seq<Point> := [];
    var i := 0;
    while i < |rows|
      invariant 0 <= i <= |rows| && |out| == i
      invariant forall j :: 0 <= j < i ==> out[j] == PointOf(rows[j])
    {
      out := out + [PointOf(rows[i])];
      i := i + 1;
    }
    return Some((out, StatisticsOf(Selected(store.raw, server, UnixMilli(start), UnixMilli(end)))));
  }

  // ------------------------------------------------------- shape of the chart

  predicate Ascending(bars: seq<Bar>) {
    forall i, j :: 0 <= i < j < |bars| ==> bars[i].at < bars[j].at
  }

  lemma {:induction false} BarsShape(ss: seq<Sample>, server: string, size: pos, lo: int, hi: int)
    requires lo % size == 0 && hi % size == 0
    ensures var bars := Bars(ss, server, size, lo, hi);
      && Ascending(bars)
      && (forall b :: b in bars ==> lo <= b.at <= hi && Key(server, b.at) in GroupBy(ss, size)
                                    && b.row == GroupBy(ss, size)[Key(server, b.at)])
    decreases hi - lo
  {
    if lo <= hi {
      StepDown(hi, size);
      BarsShape(ss, server, size, lo, hi - size);
    }
  }

  /** There is at most one bar per bucket. */
  lemma {:induction false} BarsFit(ss: seq<Sample>, server: string, size: pos, lo: int, hi: int)
    ensures var bars := Bars(ss, server, size, lo, hi);
      (lo <= hi ==> |bars| * size <= hi - lo + size) && (hi < lo ==> bars == [])
    decreases hi - lo
  {
    if lo <= hi {
      BarsFit(ss, server, size, lo, hi - size);
      Distribute(|Bars(ss, server, size, lo, hi - size)|, 1, size);
      MulOrder(0, 1, size);
    }
  }

  lemma StepDown(hi: int, size: pos)
    requires hi % size == 0
    ensures (hi - size) % size == 0
  {
    DivBack(hi, size);
    Distribute(hi / size, -1, size);
    MulOrder(0, 1, size);
    MulMod(hi / size - 1, size);
  }

  /** No bucket with a sample is left out. */
  lemma {:induction false} BarsComplete(ss: seq<Sample>, server: string, size: pos, lo: int, hi: int, at: int)
    requires lo % size == 0 && hi % size == 0 && at % size == 0 && lo <= at <= hi
    requires Key(server, at) in GroupBy(ss, size)
    ensures Bar(at, GroupBy(ss, size)[Key(server, at)]) in Bars(ss, server, size, lo, hi)
    decreases hi - lo
  {
    if at < hi {
      StepDown(hi, size);
      DivBack(at, size);
      DivBack(hi, size);
      MulOrder(at / size, hi / size, size);
      assert at / size < hi / size by { MulOrder(hi / size, at / size, size); }
      BarsComplete(ss, server, size, lo, hi - size, at);
    }
  }

  lemma DivMonotone(a: int, b: int, size: pos)
    requires 0 <= a <= b
    ensures 0 <= a / size <= b / size
  {
    DivBounds(a, size);
    DivBounds(b, size);
    MulOrder(b / size, a / size, size);
  }

  lemma BucketMonotone(a: int, b: int, size: pos)
    requires a <= b
    ensures SqlBucket(a, size) <= SqlBucket(b, size)
  {
    if 0 <= a {
      DivMonotone(a, b, size);
    } else if b < 0 {
      DivMonotone(-b, -a, size);
    } else {
      DivMonotone(0, -a, size);
      DivMonotone(0, b, size);
    }
    MulOrder(SqlDiv(a, size), SqlDiv(b, size), size);
  }

  lemma SelectedInside(raw: seq<Sample>, server: string, start: int, end: int, size: pos, k: Key)
    requires k in GroupBy(Selected(raw, server, start, end), size)
    ensures k.server == server && k.bucket % size == 0
    ensures SqlBucket(start, size) <= k.bucket <= SqlBucket(end, size)
  {
    var ss := Selected(raw, server, start, end);
    var i :| 0 <= i < |ss| && KeyOf(ss[i], size) == k;
    FilterMembers(Shown(server, start, end), raw);
    assert ss[i] in ss;
    BucketMonotone(start, ss[i].at, size);
    BucketMonotone(ss[i].at, end, size);
    BucketAligned(ss[i].at, size);
  }

  /**
   * The chart has exactly one point per non-empty bucket, in strictly ascending order, each the
   * aggregate of the samples of that bucket.
   */
  lemma ChartIsExact(raw: seq<Sample>, server: string, start: int, end: int, size: pos)
    ensures var groups, bars := GroupBy(Selected(raw, server, start, end), size), ChartBars(raw, server, start, end, size);
      && Ascending(bars)
      && (forall b :: b in bars ==> Key(server, b.at) in groups && b.row == groups[Key(server, b.at)])
      && (forall k :: k in groups ==> k.server == server && Bar(k.bucket, groups[k]) in bars)
  {
    var ss := Selected(raw, server, start, end);
    var lo, hi := SqlBucket(start, size), SqlBucket(end, size);
    var groups := GroupBy(ss, size);
    BucketAligned(start, size);
    BucketAligned(end, size);
    BarsShape(ss, server, size, lo, hi);
    forall k | k in groups ensures k.server == server && Bar(k.bucket, groups[k]) in Bars(ss, server, size, lo, hi) {
      SelectedInside(raw, server, start, end, size, k);
      BarsComplete(ss, server, size, lo, hi, k.bucket);
    }
  }

  /** For the four ranges of the API the chart has at most `duration / bucket + 1` points. */
  lemma ChartLength(raw: seq<Sample>, server: string, value: string, end: int)
    requires ChartRange(value).Some?
    ensures var w := ChartRange(value).value;
      BucketMillis(w.bucket).Some?
      && |ChartBars(raw, server, UnixMilli(end - w.duration), UnixMilli(end), BucketMillis(w.bucket).value)|
         <= w.duration / (BucketMillis(w.bucket).value * NANOS_PER_MILLI) + 1
  {
    var w := ChartRange(value).value;
    var size := BucketMillis(w.bucket).value;
    var n := w.duration / (size * NANOS_PER_MILLI);
    var start := UnixMilli(end - w.duration);
    assert UnixMilli(end) == start + n * size;
    SpanOfWindow(start, n, size);
    BarsCount(raw, server, start, start + n * size, size, n);
  }

  /** The four ranges in numbers: how far they look back, in milliseconds, and how many points they show at most. */
  lemma {:induction false} ApiRanges(raw: seq<Sample>, server: string, value: string, end: int)
    ensures ChartRange(value).Some? <==> value in {"15m", "1h", "6h", "24h"}
    ensures ChartRange(value).Some? ==>
              var w := ChartRange(value).value; var start := UnixMilli(end - w.duration);
              && BucketMillis(w.bucket).Some?
              && ApiRange(value, UnixMilli(end) - start, |ChartBars(raw, server, start, UnixMilli(end), BucketMillis(w.bucket).value)|)
  {
    if ChartRange(value).Some? {
      ChartLength(raw, server, value, end);
    }
  }

  predicate ApiRange(value: string, back: int, points: nat) {
    || (value == "15m" && back == 900_000 && points <= 61)
    || (value == "1h" && back == 3_600_000 && points <= 61)
    || (value == "6h" && back == 21_600_000 && points <= 73)
    || (value == "24h" && back == 86_400_000 && points <= 97)
  }

  lemma BarsCount(raw: seq<Sample>, server: string, start: int, stop: int, size: pos, n: nat)
    requires SqlBucket(start, size) <= SqlBucket(stop, size) <= SqlBucket(start, size) + n * size
    ensures |ChartBars(raw, server, start, stop, size)| <= n + 1
  {
    BucketAligned(start, size);
    BucketAligned(stop, size);
    BarsFit(Selected(raw, server, start, stop), server, size, SqlBucket(start, size), SqlBucket(stop, size));
    MulOrder(n + 1, |ChartBars(raw, server, start, stop, size)|, size);
    Distribute(n, 1, size);
  }

  /** A window of `n` buckets' length touches at most `n + 1` buckets. */
  lemma {:induction false} SpanOfWindow(start: int, n: nat, size: pos)
    ensures 0 <= SqlBucket(start + n * size, size) - SqlBucket(start, size) <= n * size
  {
    var stop := start + n * size;
    MulNonNegative(n, size);
    BucketMonotone(start, stop, size);
    if stop >= 0 && start < 0 {
      BucketNear(start, size);
      BucketNear(stop, size);
    } else {
      BucketsApart(start, stop, n, size);
    }
  }

  /** A bucket start is less than one size away, toward zero. */
  lemma {:induction false} BucketNear(t: int, size: pos)
    ensures t >= 0 ==> SqlBucket(t, size) <= t < SqlBucket(t, size) + size
    ensures t < 0 ==> t <= SqlBucket(t, size) < t + size
  {
    if t >= 0 {
      DivBounds(t, size);
    } else {
      DivBounds(-t, size);
      MulNegate((-t) / size, size);
    }
  }

  lemma {:induction false} BucketsApart(start: int, stop: int, n: nat, size: pos)
    requires stop == start + n * size && (start >= 0 || stop < 0)
    ensures SqlBucket(stop, size) - SqlBucket(start, size) <= n * size
  {
    var x, y := SqlDiv(start, size), SqlDiv(stop, size);
    BucketNear(start, size);
    BucketNear(stop, size);
    MulNonNegative(n, size);
    Distribute(x, n, size);
    MulOrder(x + n, y, size);
  }

  // ----------------------------------------------------- points and statistics

  function RowTotal(r: Row, m: Metric): real { StatFor(r, m).avg * r.count as real }

  lemma RowTotalIs(r: Row, m: Metric, total: real)
    requires IsMean(StatFor(r, m).avg, r.count, total)
    ensures RowTotal(r, m) == total
  {
  }

  /** Each point's average times the number of samples behind it. */
  function WeightedTotal(bars: seq<Bar>, m: Metric): real {
    if bars == [] then 0.0
    else
      WeightedTotal(bars[..|bars| - 1], m) + RowTotal(bars[|bars| - 1].row, m)
  }

  function TotalCount(bars: seq<Bar>): int {
    if bars == [] then 0 else TotalCount(bars[..|bars| - 1]) + bars[|bars| - 1].row.count
  }

  lemma {:induction false} TotalOfUnion(p: Sample -> bool, q: Sample -> bool, ss: seq<Sample>, m: Metric)
    requires forall x :: x in ss ==> !(p(x) && q(x))
    ensures Total(Filter(Either(p, q), ss), m) == Total(Filter(p, ss), m) + Total(Filter(q, ss), m)
    ensures |Filter(Either(p, q), ss)| == |Filter(p, ss)| + |Filter(q, ss)|
  {
    if ss != [] {
      TotalOfUnion(p, q, ss[..|ss| - 1], m);
    }
  }

  lemma WeightedAppend(bars: seq<Bar>, b: Bar, m: Metric)
    ensures WeightedTotal(bars + [b], m) == WeightedTotal(bars, m) + RowTotal(b.row, m)
    ensures TotalCount(bars + [b]) == TotalCount(bars) + b.row.count
  {
    assert (bars + [b])[..|bars|] == bars;
  }

  function Inside(ss: seq<Sample>, server: string, lo: int, hi: int, size: pos): seq<Sample> {
    Filter(InRange(server, lo, hi + 1, size), ss)
  }

  lemma InsideStep(ss: seq<Sample>, server: string, lo: int, hi: int, size: pos, m: Metric)
    requires lo % size == 0 && hi % size == 0 && lo <= hi
    ensures var last := Rows(ss, size, Key(server, hi));
      && Total(Inside(ss, server, lo, hi, size), m)
         == Total(Inside(ss, server, lo, hi - size, size), m) + Total(last, m)
      && |Inside(ss, server, lo, hi, size)| == |Inside(ss, server, lo, hi - size, size)| + |last|
  {
    var whole := InRange(server, lo, hi + 1, size);
    var p, q := InRange(server, lo, hi - size + 1, size), InGroup(Key(server, hi), size);
    forall x | x in ss
      ensures whole(x) == Either(p, q)(x)
      ensures !(p(x) && q(x))
    {
      NoBucketBetween(x.at, hi, size);
    }
    FilterSame(whole, Either(p, q), ss);
    TotalOfUnion(p, q, ss, m);
  }

  lemma {:induction false} BarsAddUp(ss: seq<Sample>, server: string, size: pos, lo: int, hi: int, m: Metric)
    requires lo % size == 0 && hi % size == 0
    ensures var bars, inside := Bars(ss, server, size, lo, hi), Inside(ss, server, lo, hi, size);
      WeightedTotal(bars, m) == Total(inside, m) && TotalCount(bars) == |inside|
    decreases hi - lo
  {
    if hi < lo {
      FilterNone(InRange(server, lo, hi + 1, size), ss);
    } else {
      var k := Key(server, hi);
      StepDown(hi, size);
      BarsAddUp(ss, server, size, lo, hi - size, m);
      InsideStep(ss, server, lo, hi, size, m);
      GroupByAt(ss, size, k);
      if k in GroupBy(ss, size) {
        RowMeaning(Rows(ss, size, k), m);
        var row := GroupBy(ss, size)[k];
        RowTotalIs(row, m, Total(Rows(ss, size, k), m));
        WeightedAppend(Bars(ss, server, size, lo, hi - size), Bar(hi, row), m);
      }
    }
  }

  lemma NoBucketBetween(t: int, hi: int, size: pos)
    requires hi % size == 0
    ensures hi - size < SqlBucket(t, size) <= hi ==> SqlBucket(t, size) == hi
  {
    var b := SqlBucket(t, size);
    BucketAligned(t, size);
    DivBack(b, size);
    DivBack(hi, size);
    MulOrder(b / size, hi / size, size);
  }

  lemma SelectedIsInside(raw: seq<Sample>, server: string, start: int, end: int, size: pos)
    ensures var ss := Selected(raw, server, start, end);
      Inside(ss, server, SqlBucket(start, size), SqlBucket(end, size), size) == ss
  {
    var ss := Selected(raw, server, start, end);
    var p := InRange(server, SqlBucket(start, size), SqlBucket(end, size) + 1, size);
    FilterMembers(Shown(server, start, end), raw);
    forall x | x in ss ensures p(x) {
      BucketMonotone(start, x.at, size);
      BucketMonotone(x.at, end, size);
    }
    FilterAll(p, ss);
  }

  lemma BarBelowPeak(ss: seq<Sample>, size: pos, k: Key, m: Metric)
    requires k in GroupBy(ss, size)
    ensures StatFor(GroupBy(ss, size)[k], m).avg <= Statistic(ss, m).peak
  {
    var rows := Rows(ss, size, k);
    GroupByAt(ss, size, k);
    FilterMembers(InGroup(k, size), ss);
    assert rows[0] in rows && rows[0] in ss;
    RowMeaning(ss, m);
    MeanAtMost(rows, m, Statistic(ss, m).peak);
  }

  lemma AverageTimesCount(ss: seq<Sample>, m: Metric)
    ensures IsMean(Statistic(ss, m).average, |ss|, Total(ss, m))
  {
    if ss == [] {
      assert Total(ss, m) == 0.0;
    } else {
      RowMeaning(ss, m);
    }
  }

  /**
   * The count-weighted mean of the points is the reported average, and no point exceeds the
   * reported peak.
   */
  lemma PointsAgreeWithStatistics(raw: seq<Sample>, server: string, start: int, end: int, size: pos, m: Metric)
    ensures var ss, bars := Selected(raw, server, start, end), ChartBars(raw, server, start, end, size);
      && TotalCount(bars) == |ss|
      && IsMean(Statistic(ss, m).average, TotalCount(bars), WeightedTotal(bars, m))
      && (forall b :: b in bars ==> StatFor(b.row, m).avg <= Statistic(ss, m).peak)
  {
    var ss, bars := Selected(raw, server, start, end), ChartBars(raw, server, start, end, size);
    BucketAligned(start, size);
    BucketAligned(end, size);
    BarsAddUp(ss, server, size, SqlBucket(start, size), SqlBucket(end, size), m);
    SelectedIsInside(raw, server, start, end, size);
    AverageTimesCount(ss, m);
    ChartIsExact(raw, server, start, end, size);
    forall b | b in bars ensures StatFor(b.row, m).avg <= Statistic(ss, m).peak {
      BarBelowPeak(ss, size, Key(server, b.at), m);
    }
  }

  // --------------------------------------------------- what a point stands for

  /** The times of the bucket that starts at `at`; the bucket around zero is twice as long. */
  predicate InBucket(t: int, at: int, size: pos) {
    if at > 0 then at <= t < at + size else if at < 0 then at - size < t <= at else 0 - size < t < size
  }

  /** The samples behind one bar. */
  function Plotted(server: string, start: int, end: int, at: int, size: pos): Sample -> bool {
    (x: Sample) => x.server == server && start <= x.at <= end && InBucket(x.at, at, size)
  }

  lemma {:induction false} PlottedIsGroup(raw: seq<Sample>, server: string, start: int, end: int, at: int, size: pos)
    requires at % size == 0
    ensures Filter(Plotted(server, start, end, at, size), raw) == Rows(Selected(raw, server, start, end), size, Key(server, at))
  {
    var shown, group := Shown(server, start, end), InGroup(Key(server, at), size);
    FilterTwice(shown, group, raw);
    forall x | x in raw ensures Plotted(server, start, end, at, size)(x) == Both(shown, group)(x) {
      GroupRange(x.at, at, size);
    }
    FilterSame(Plotted(server, start, end, at, size), Both(shown, group), raw);
  }

  /** Each value of a point is the mean of its own metric over the samples of its bucket; its uptime is their largest. */
  ghost predicate Plots(p: Point, ss: seq<Sample>) {
    && ss != [] && Uppermost(ss, p.uptime)
    && IsMean(p.cpu, |ss|, SumOf(ss, CPU)) && IsMean(p.memory, |ss|, SumOf(ss, MEMORY))
    && IsMean(p.disk, |ss|, SumOf(ss, DISK)) && IsMean(p.load, |ss|, SumOf(ss, LOAD))
  }

  lemma {:induction false} PointColumns(raw: seq<Sample>, server: string, start: int, end: int, size: pos, b: Bar)
    requires b in ChartBars(raw, server, start, end, size)
    ensures PointOf(b).at == b.at && Plots(PointOf(b), Filter(Plotted(server, start, end, b.at, size), raw))
  {
    var ss, k := Selected(raw, server, start, end), Key(server, b.at);
    ChartIsExact(raw, server, start, end, size);
    SelectedInside(raw, server, start, end, size, k);
    PlottedIsGroup(raw, server, start, end, b.at, size);
    GroupByAt(ss, size, k);
    RowColumns(Rows(ss, size, k));
  }

  /** Of no samples both numbers are zero; of some, the mean and the largest value, which is attained. */
  ghost predicate Summarises(s: Summary, ss: seq<Sample>, column: Values -> real) {
    if ss == [] then s == Summary(0.0, 0.0)
    else
      && IsMean(s.average, |ss|, SumOf(ss, column)) && Attained(ss, column, s.peak)
      && forall x :: x in ss ==> column(x.values) <= s.peak
  }

  lemma {:induction false} StatisticsColumns(ss: seq<Sample>)
    ensures var s := StatisticsOf(ss);
      && Summarises(s.cpu, ss, CPU) && Summarises(s.memory, ss, MEMORY)
      && Summarises(s.disk, ss, DISK) && Summarises(s.load, ss, LOAD)
  {
    if ss != [] {
      RowColumns(ss);
    }
  }

  predicate AtMostTimes(total: real, top: real, n: int) { total <= top * n as real }

  lemma OneMoreValue(total: real, top: real, n: nat, v: real)
    requires AtMostTimes(total, top, n) && v <= top
    ensures AtMostTimes(total + v, top, n + 1)
  {
    assert top * (n + 1) as real == top * n as real + top;
  }

  lemma {:induction false} TotalAtMost(ss: seq<Sample>, m: Metric, top: real)
    requires forall x :: x in ss ==> ValueOf(x.values, m) <= top
    ensures AtMostTimes(Total(ss, m), top, |ss|)
  {
    if ss != [] {
      TotalAtMost(ss[..|ss| - 1], m, top);
      assert ss[|ss| - 1] in ss;
      OneMoreValue(Total(ss[..|ss| - 1], m), top, |ss| - 1, ValueOf(ss[|ss| - 1].values, m));
    }
  }

  lemma MeanBelow(avg: real, top: real, n: pos, total: real)
    requires IsMean(avg, n, total) && AtMostTimes(total, top, n)
    ensures avg <= top
  {
    ScaleStrict(top, avg, n);
  }

  lemma MeanAtMost(ss: seq<Sample>, m: Metric, top: real)
    requires ss != [] && forall x :: x in ss ==> ValueOf(x.values, m) <= top
    ensures StatFor(RowOf(GroupOf(ss)), m).avg <= top
  {
    TotalAtMost(ss, m, top);
    RowMeaning(ss, m);
    var r := RowOf(GroupOf(ss));
    MeanBelow(StatFor(r, m).avg, top, r.count, Total(ss, m));
  }

  // ------------------------------------------------ charts and retention

  /** Every roll-up so far kept a day of raw samples and read a clock not after `end`. */
  predicate KeepsADay(trace: seq<Event>, end: int) {
    forall e :: e in trace && e.RollUpRaw? ==> 24 * HOUR <= e.call.cfg.raw && e.call.now <= end
  }

  lemma {:induction false} WatermarkBehindWindow(trace: seq<Event>, end: int, duration: int)
    requires KeepsADay(trace, end) && duration <= 24 * HOUR
    ensures Watermarks(trace).raw <= MaxI(0, UnixMilli(end - duration))
  {
    if trace != [] {
      var before, e := trace[..|trace| - 1], trace[|trace| - 1];
      assert trace == before + [e];
      WatermarkBehindWindow(before, end, duration);
      if e.RollUpRaw? {
        assert e in trace;
        FiveMinuteCutoff(e.call.now - e.call.cfg.raw);
      }
    }
  }

  /**
   * For every range of the API, on on-time runs that keep a day of raw samples, the chart and
   * its statistics are those of the full, never pruned history of the live servers.
   */
  lemma ChartsDoNotSeeRetention(trace: seq<Event>, server: string, value: string, end: int, size: pos)
    requires Legal(trace) && OnTime(trace) && KeepsADay(trace, end) && ChartRange(value).Some?
    ensures var start, stop := UnixMilli(end - ChartRange(value).value.duration), UnixMilli(end);
      var raw, full := Replay(trace).tables.raw, History(trace);
      && ChartBars(raw, server, start, stop, size) == ChartBars(full, server, start, stop, size)
      && (forall m :: Statistic(Selected(raw, server, start, stop), m)
                   == Statistic(Selected(full, server, start, stop), m))
  {
    var start, stop := UnixMilli(end - ChartRange(value).value.duration), UnixMilli(end);
    var h, r := History(trace), Watermarks(trace).raw;
    OnTimeRunsRefine(trace);
    WatermarkBehindWindow(trace, end, ChartRange(value).value.duration);
    OnTimeHistorySinceEpoch(trace);
    var p, q := AtLeast(r), Shown(server, start, stop);
    FilterTwice(p, q, h);
    FilterSame(Both(p, q), q, h);
  }

  /** Which table `MetricsChart` reads; it reads the clock once for each comparison that it makes. */
  function ChartTable(start: int, now: int, later: int): string {
    if start < now - 30 * DAY then "metrics_1h"
    else if start < later - 7 * DAY then "metrics_5m"
    else "metrics"
  }

  /** The API ranges are served from raw samples exactly until one of the readings is days later. */
  lemma RangesUseRawTable(value: string, end: int, now: int, later: int)
    requires ChartRange(value).Some?
    ensures var d := ChartRange(value).value.duration; var table := ChartTable(end - d, now, later);
      && (table == "metrics" <==> now - end <= 30 * DAY - d && later - end <= 7 * DAY - d)
      && (table == "metrics_5m" <==> now - end <= 30 * DAY - d && later - end > 7 * DAY - d)
      && (now <= end + 6 * DAY && later <= end + 6 * DAY ==> table == "metrics")
  {
    assert "metrics" != "metrics_5m" && "metrics" != "metrics_1h" && "metrics_5m"[8] != "metrics_1h"[8];
  }
}
