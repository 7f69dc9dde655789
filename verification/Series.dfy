/**
 * Cloud Monitoring time series and their translation into Prometheus metrics.
 * Times are nanoseconds since Go's zero time; floating-point values are reals.
 */
module Series {
  import opened Basics
  import opened Histogram
  import opened Names
  import opened Labels

  // ---------- Times ----------

  type Time = int

  const SECOND: int := 1_000_000_000
  const MILLISECOND: int := 1_000_000

  /** From Go's zero time, 1 January of year 1, to the Unix epoch: 719162 days. */
  const UNIX_EPOCH: Time := 719_162 * 86_400 * SECOND

  function UnixSeconds(t: Time): int {
    (t - UNIX_EPOCH) / SECOND
  }

  function UnixMillis(t: Time): int {
    (t - UNIX_EPOCH) / MILLISECOND
  }

  /** The Unix milliseconds of an instant are the whole milliseconds from the epoch to it. */
  lemma UnixMillisIff(t: Time, ms: int)
    ensures ms == UnixMillis(t) <==> UNIX_EPOCH + ms * MILLISECOND <= t < UNIX_EPOCH + (ms + 1) * MILLISECOND
  {
  }

  // ---------- Upstream messages ----------

  /** OtherKind is UNSPECIFIED or a number the program does not know. */
  datatype Kind = GAUGE | DELTA | CUMULATIVE | OtherKind(code: int)

  /** OtherType is BOOL, STRING, MONEY, UNSPECIFIED or a number the program does not know. */
  datatype ValueType = INT64 | DOUBLE | DISTRIBUTION | OtherType(code: int)

  /** The oneof of a point's value; a distribution may be a nil message. */
  datatype TypedValue =
    | IntValue(i: int64)
    | DoubleValue(r: real)
    | DistributionValue(dist: Option<Distribution>)
    | OtherValue

  /** A missing interval has neither time. */
  datatype Point = Point(startTime: Option<Time>, endTime: Option<Time>, value: TypedValue)

  /** Points come newest first. */
  datatype TimeSeries = TimeSeries(
    metricLabels: map<string, string>, resource: Option<Resource>,
    kind: Kind, valueType: ValueType, points: seq<Point>)

  // ---------- Prometheus metrics ----------

  datatype FamilyType = GaugeFamily | CounterFamily | HistogramFamily

  datatype Metric = Metric(
    labels: LabelBag,
    gauge: Option<real>, counter: Option<real>, histogram: Option<PromHistogram>,
    timestampMs: Option<int>)

  datatype Converted = Converted(familyName: string, familyType: FamilyType, metric: Metric)

  // ---------- Conversion ----------

  function ScalarValue(p: Point, valueType: ValueType): real {
    match valueType
    case INT64 => if p.value.IntValue? then p.value.i as real else 0.0
    case DOUBLE => if p.value.DoubleValue? then p.value.r else 0.0
    case _ => 0.0
  }

  /** A missing end time reads as the Unix epoch. */
  function PointEndMillis(p: Point): int {
    if p.endTime.Some? then UnixMillis(p.endTime.value) else 0
  }

  function PointStartUnix(p: Point): int {
    if p.startTime.Some? then UnixSeconds(p.startTime.value) else 0
  }

  /** The point started in Unix second n; one without a start time counts as started at the epoch. */
  ghost predicate StartsInSecond(p: Point, n: int) {
    var start := if p.startTime.Some? then p.startTime.value else UNIX_EPOCH;
    UNIX_EPOCH + n * SECOND <= start < UNIX_EPOCH + (n + 1) * SECOND
  }

  lemma StartsInSecondIff(p: Point, n: int)
    ensures StartsInSecond(p, n) <==> n == PointStartUnix(p)
  {
  }

  ghost predicate SameStartSecond(p: Point, q: Point) {
    exists n :: StartsInSecond(p, n) && StartsInSecond(q, n)
  }

  lemma SameStartSecondIff(p: Point, q: Point)
    ensures SameStartSecond(p, q) <==> PointStartUnix(p) == PointStartUnix(q)
  {
    StartsInSecondIff(p, PointStartUnix(p));
    StartsInSecondIff(q, PointStartUnix(p));
  }

  function SeriesLabels(series: TimeSeries): LabelBag {
    CloudLabels(series.metricLabels, series.resource)
  }

  function StartLabel(p: Point): LabelPair {
    LabelPair("start_time_unix", FormatInt(PointStartUnix(p)))
  }

  ghost predicate Scalar(series: TimeSeries) {
    series.valueType.INT64? || series.valueType.DOUBLE?
  }

  /** The series Prometheus can represent; all others are skipped. */
  ghost predicate Convertible(series: TimeSeries) {
    && series.points != []
    && (|| (Scalar(series) && !series.kind.OtherKind?)
        || (series.valueType.DISTRIBUTION?
            && series.points[0].value.DistributionValue?
            && series.points[0].value.dist.Some?))
  }

  function ConvertSeries(metricType: string, series: TimeSeries): (r: Option<Converted>)
    ensures r.Some? <==> Convertible(series)
  {
    var name := PromName(metricType);
    var labels := SeriesLabels(series);
    match series.valueType
    case DISTRIBUTION =>
      if series.points == [] then None
      else
        (match series.points[0].value
         case DistributionValue(Some(dist)) =>
           Some(Converted(name, HistogramFamily, Metric(labels, None, None, Some(HistogramOf(dist)), None)))
         case _ => None)
    case OtherType(_) => None
    case _ =>
      match series.kind
      case OtherKind(_) => None
      case CUMULATIVE =>
        if series.points == [] then None
        else
          var val := ScalarValue(series.points[0], series.valueType);
          Some(Converted(name, CounterFamily,
                         Metric(labels + multiset{StartLabel(series.points[0])}, None, Some(val), None, None)))
      case _ =>
        if series.points == [] then None
        else
          var val := ScalarValue(series.points[0], series.valueType);
          Some(Converted(name, GaugeFamily, Metric(labels, Some(val), None, None, None)))
  }

  /** A converted series as exported: stamped with the end of its newest point on request. */
  function ExportSeries(metricType: string, emitTimestamps: bool, series: TimeSeries): (r: Option<Converted>)
    ensures r.Some? <==> Convertible(series)
  {
    match ConvertSeries(metricType, series)
    case None => None
    case Some(c) =>
      if emitTimestamps && |series.points| > 0 then
        Some(c.(metric := c.metric.(timestampMs := Some(PointEndMillis(series.points[0])))))
      else
        Some(c)
  }

  /** The number a scalar series exports. */
  function Value(s: TimeSeries): real
    requires s.points != []
  {
    ScalarValue(s.points[0], s.valueType)
  }

  /**
   * Only the newest point matters: older points change nothing, and the value
   * of the newest is what a scalar series exports, a distribution its histogram.
   */
  lemma ExportsNewestPoint(metricType: string, emit: bool, s: TimeSeries)
    requires Convertible(s)
    ensures ExportSeries(metricType, emit, s) == ExportSeries(metricType, emit, s.(points := s.points[..1]))
    ensures var m := ExportSeries(metricType, emit, s).value.metric;
      && (s.valueType.DISTRIBUTION? ==> m.histogram == Some(HistogramOf(s.points[0].value.dist.value)))
      && (Scalar(s) ==> m.gauge == Some(Value(s)) || m.counter == Some(Value(s)))
      && m.timestampMs == if emit then Some(PointEndMillis(s.points[0])) else None
  {
    assert s.points[..1] == [s.points[0]];
  }

  /** x is the number in the field of the point that the value type names; a field that is not set reads as zero. */
  ghost predicate HoldsNumber(p: Point, valueType: ValueType, x: real) {
    && (valueType.INT64? && p.value.IntValue? ==> x == p.value.i as real)
    && (valueType.DOUBLE? && p.value.DoubleValue? ==> x == p.value.r)
    && (valueType.INT64? && !p.value.IntValue? ==> x == 0.0)
    && (valueType.DOUBLE? && !p.value.DoubleValue? ==> x == 0.0)
  }

  /** ms are the Unix milliseconds of the point's end; a missing end counts as the epoch. */
  ghost predicate EndsAtMillis(p: Point, ms: int) {
    var end := if p.endTime.Some? then p.endTime.value else UNIX_EPOCH;
    UNIX_EPOCH + ms * MILLISECOND <= end < UNIX_EPOCH + (ms + 1) * MILLISECOND
  }

  /**
   * Scalar gauges and deltas become gauges, scalar cumulatives counters,
   * distributions histograms, whatever their kind; each carries the newest
   * point's payload and nothing else.
   */
  ghost predicate CarriesPayload(s: TimeSeries, c: Converted)
    requires s.points != []
  {
    var p, m := s.points[0], c.metric;
    match c.familyType
    case HistogramFamily =>
      && s.valueType.DISTRIBUTION? && p.value.DistributionValue? && p.value.dist.Some?
      && m.histogram == Some(HistogramOf(p.value.dist.value)) && m.gauge.None? && m.counter.None?
    case CounterFamily =>
      && (s.valueType.INT64? || s.valueType.DOUBLE?) && s.kind.CUMULATIVE?
      && m.counter.Some? && HoldsNumber(p, s.valueType, m.counter.value) && m.gauge.None? && m.histogram.None?
    case GaugeFamily =>
      && (s.valueType.INT64? || s.valueType.DOUBLE?) && (s.kind.GAUGE? || s.kind.DELTA?)
      && m.gauge.Some? && HoldsNumber(p, s.valueType, m.gauge.value) && m.counter.None? && m.histogram.None?
  }

  /** Which series are exported: those with a point that Prometheus can represent. */
  lemma ExportedIff(metricType: string, emit: bool, s: TimeSeries)
    ensures ExportSeries(metricType, emit, s).Some?
       <==> s.points != []
            && match s.valueType
               case INT64 => s.kind in {GAUGE, DELTA, CUMULATIVE}
               case DOUBLE => s.kind in {GAUGE, DELTA, CUMULATIVE}
               case DISTRIBUTION => s.points[0].value.DistributionValue? && s.points[0].value.dist.Some?
               case OtherType(_) => false
  {
  }

  /** How a converted series is exported, and with what time. */
  lemma ExportTable(metricType: string, emit: bool, s: TimeSeries)
    requires ExportSeries(metricType, emit, s).Some?
    ensures s.points != []
    ensures var c := ExportSeries(metricType, emit, s).value;
      && c.familyName == PromName(metricType)
      && CarriesPayload(s, c)
      && (c.metric.timestampMs.Some? <==> emit)
      && (emit ==> EndsAtMillis(s.points[0], c.metric.timestampMs.value))
  {
    if s.points[0].endTime.Some? {
      UnixMillisIff(s.points[0].endTime.value, PointEndMillis(s.points[0]));
    }
  }

  // ---------- Family types ----------

  /** The type every family with this kind and value type has. */
  function TypeOf(kind: Kind, valueType: ValueType): FamilyType {
    if valueType.DISTRIBUTION? then HistogramFamily
    else if kind.CUMULATIVE? then CounterFamily
    else GaugeFamily
  }

  /** The metric carries the payload its family type calls for, and no other. */
  ghost predicate PayloadMatches(t: FamilyType, m: Metric) {
    && (m.gauge.Some? <==> t.GaugeFamily?)
    && (m.counter.Some? <==> t.CounterFamily?)
    && (m.histogram.Some? <==> t.HistogramFamily?)
  }

  // ---------- Label sets ----------

  /** A series is exported as a counter exactly when it is scalar and cumulative. */
  ghost predicate IsCounter(series: TimeSeries) {
    Scalar(series) && series.kind.CUMULATIVE?
  }

  ghost function SyntheticNames(series: TimeSeries): set<string> {
    ResourceNames(series.resource) + if IsCounter(series) then {"start_time_unix"} else {}
  }

  lemma WithStartLabelDistinctIff(m: map<string, string>, res: Option<Resource>, start: LabelPair)
    requires start.name == "start_time_unix"
    ensures DistinctNames(CloudLabels(m, res) + multiset{start})
       <==> NamesKeptApart(m, res, ResourceNames(res) + {"start_time_unix"})
  {
    AddDistinct(CloudLabels(m, res), start);
    NamesOfCloudLabels(m, res, start.name);
    CloudLabelsDistinctIff(m, res);
  }

  /** The labels an exported series carries. */
  lemma LabelsOfExport(metricType: string, emit: bool, series: TimeSeries)
    requires Convertible(series)
    ensures ExportSeries(metricType, emit, series).value.metric.labels
         == if IsCounter(series) then SeriesLabels(series) + multiset{StartLabel(series.points[0])}
            else SeriesLabels(series)
  {
  }

  /**
   * The label names of an exported series are pairwise distinct exactly when
   * its metric and resource labels are disjoint and hold none of the names
   * the exporter adds to this series.
   */
  lemma ExportedLabelsDistinctIff(metricType: string, emit: bool, series: TimeSeries)
    requires Convertible(series)
    ensures DistinctNames(ExportSeries(metricType, emit, series).value.metric.labels)
       <==> NamesKeptApart(series.metricLabels, series.resource, SyntheticNames(series))
  {
    LabelsOfExport(metricType, emit, series);
    if IsCounter(series) {
      WithStartLabelDistinctIff(series.metricLabels, series.resource, StartLabel(series.points[0]));
    } else {
      CloudLabelsDistinctIff(series.metricLabels, series.resource);
    }
  }

  /** A label that both the metric and its resource carry is exported twice. */
  lemma SharedLabelCollides(metricType: string)
    ensures var s := TimeSeries(map["zone" := "a"], Some(Resource("gce", map["zone" := "b"])), GAUGE, DOUBLE,
                                [Point(None, None, DoubleValue(1.0))]);
      Convertible(s) && !DistinctNames(ExportSeries(metricType, false, s).value.metric.labels)
  {
    var s := TimeSeries(map["zone" := "a"], Some(Resource("gce", map["zone" := "b"])), GAUGE, DOUBLE,
                        [Point(None, None, DoubleValue(1.0))]);
    assert "zone" in s.metricLabels.Keys && "zone" in ResourceLabels(s.resource).Keys;
    ExportedLabelsDistinctIff(metricType, false, s);
  }

  /** So is a metric label of a counter that is called start_time_unix. */
  lemma StartTimeLabelCollides(metricType: string)
    ensures var s := TimeSeries(map["start_time_unix" := "7"], None, CUMULATIVE, DOUBLE,
                                [Point(None, None, DoubleValue(1.0))]);
      Convertible(s) && !DistinctNames(ExportSeries(metricType, false, s).value.metric.labels)
  {
    var s := TimeSeries(map["start_time_unix" := "7"], None, CUMULATIVE, DOUBLE,
                        [Point(None, None, DoubleValue(1.0))]);
    assert "start_time_unix" in s.metricLabels.Keys && "start_time_unix" in SyntheticNames(s);
    ExportedLabelsDistinctIff(metricType, false, s);
  }

  // ---------- Decimal numbers ----------

  function DigitChar(d: nat): char
    requires d < 10
  {
    "0123456789"[d]
  }

  function Digits(n: nat): string {
    if n < 10 then [DigitChar(n)] else Digits(n / 10) + [DigitChar(n % 10)]
  }

  function FormatInt(i: int): string {
    if i < 0 then "-" + Digits(-i) else Digits(i)
  }

  /** Reads decimal digits from the most significant on. */
  function ReadDigits(s: string): int {
    if s == [] then 0 else 10 * ReadDigits(s[..|s| - 1]) + (s[|s| - 1] as int - '0' as int)
  }

  function ReadInt(s: string): int {
    if s != [] && s[0] == '-' then -ReadDigits(s[1..]) else ReadDigits(s)
  }

  /** Nothing but digits, and no leading zero except in "0". */
  ghost predicate Canonical(s: string) {
    && s != []
    && (forall c :: c in s ==> '0' <= c <= '9')
    && (s[0] == '0' ==> |s| == 1)
  }

  lemma {:induction false} DigitsRead(n: nat)
    ensures Canonical(Digits(n)) && ReadDigits(Digits(n)) == n
    ensures Digits(n)[0] == '0' ==> n == 0
  {
    if n >= 10 {
      DigitsRead(n / 10);
      var s := Digits(n / 10);
      assert (s + [DigitChar(n % 10)])[..|s|] == s;
    } else {
      assert ReadDigits([DigitChar(n)]) == DigitChar(n) as int - '0' as int;
    }
  }

  /** Label values are plain decimals: read back they give the number, without leading zeros. */
  lemma FormatIntReads(i: int)
    ensures ReadInt(FormatInt(i)) == i
    ensures if i < 0 then FormatInt(i)[0] == '-' && Canonical(FormatInt(i)[1..]) else Canonical(FormatInt(i))
  {
    DigitsRead(if i < 0 then -i else i);
    if i < 0 {
      assert FormatInt(i)[1..] == Digits(-i);
    } else {
      assert FormatInt(i)[0] in FormatInt(i);
    }
  }

  /** So different numbers give different values. */
  lemma FormatIntInjective(i: int, j: int)
    ensures FormatInt(i) == FormatInt(j) ==> i == j
  {
    FormatIntReads(i);
    FormatIntReads(j);
  }

  /** A counter is exported with a decimal start_time_unix of n exactly when its newest point started in Unix second n. */
  lemma StartLabelIff(metricType: string, emit: bool, series: TimeSeries, n: int)
    requires Convertible(series) && IsCounter(series)
    ensures ExportSeries(metricType, emit, series).value.metric.labels
         == SeriesLabels(series) + multiset{LabelPair("start_time_unix", FormatInt(n))}
       <==> StartsInSecond(series.points[0], n)
  {
    var b, p, q := SeriesLabels(series), StartLabel(series.points[0]), LabelPair("start_time_unix", FormatInt(n));
    LabelsOfExport(metricType, emit, series);
    StartsInSecondIff(series.points[0], n);
    FormatIntInjective(PointStartUnix(series.points[0]), n);
    if p != q {
      assert (b + multiset{p})[p] == b[p] + 1;
      assert (b + multiset{q})[p] == b[p];
    }
  }
}
