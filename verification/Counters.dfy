/**
 * Exported counters over time. A run is one answer after another, each with
 * any number of series; an upstream series is named by its metric labels and
 * its resource, a Prometheus series by its exported label set.
 */
module Counters {
  import opened Basics
  import opened Labels
  import opened Series

  // ---------- Which series a label set names ----------

  /** Both are answers about one upstream series. */
  ghost predicate SameUpstream(s: TimeSeries, t: TimeSeries) {
    s.metricLabels == t.metricLabels && s.resource == t.resource
  }

  function SchemaOfSeries(s: TimeSeries): Schema {
    SchemaOf(s.metricLabels, s.resource)
  }

  function Merged(s: TimeSeries): map<string, string> {
    MergedLabels(s.metricLabels, s.resource)
  }

  function ExportedLabels(metricType: string, emit: bool, s: TimeSeries): LabelBag
    requires Convertible(s)
  {
    ExportSeries(metricType, emit, s).value.metric.labels
  }

  /** The exported label names of the series do not collide. */
  ghost predicate Collisionless(s: TimeSeries) {
    NamesKeptApart(s.metricLabels, s.resource, SyntheticNames(s))
  }

  lemma MergedWithStart(s: TimeSeries)
    requires Convertible(s) && IsCounter(s) && Collisionless(s)
    ensures var start := StartLabel(s.points[0]);
      && start.name !in Merged(s)
      && SeriesLabels(s) + multiset{start} == multiset(Pairs(Merged(s)[start.name := start.value]))
  {
    var start := StartLabel(s.points[0]);
    MergedBag(s.metricLabels, s.resource);
    PairsAdd(Merged(s), start.name, start.value);
  }

  lemma SameUpdateIff(a: map<string, string>, b: map<string, string>, k: string, v: string, w: string)
    requires k !in a && k !in b
    ensures a[k := v] == b[k := w] <==> a == b && v == w
  {
    if a[k := v] == b[k := w] {
      assert a[k := v] - {k} == a && b[k := w] - {k} == b;
      assert a[k := v][k] == v && b[k := w][k] == w;
    }
  }

  /**
   * Two series without name collisions, both counters or both not, are
   * exported under one label set exactly when their labels merge to the same
   * map and, for counters, their newest points started in the same second.
   */
  lemma ExportedLabelSetIff(metricType: string, emit: bool, s: TimeSeries, t: TimeSeries)
    requires Convertible(s) && Convertible(t) && IsCounter(s) == IsCounter(t)
    requires Collisionless(s) && Collisionless(t)
    ensures ExportedLabels(metricType, emit, s) == ExportedLabels(metricType, emit, t)
       <==> Merged(s) == Merged(t)
            && (IsCounter(s) ==> SameStartSecond(s.points[0], t.points[0]))
  {
    SameStartSecondIff(s.points[0], t.points[0]);
    LabelsOfExport(metricType, emit, s);
    LabelsOfExport(metricType, emit, t);
    if IsCounter(s) {
      var p, q := StartLabel(s.points[0]), StartLabel(t.points[0]);
      MergedWithStart(s);
      MergedWithStart(t);
      PairsInjective(Merged(s)[p.name := p.value], Merged(t)[q.name := q.value]);
      SameUpdateIff(Merged(s), Merged(t), p.name, p.value, q.value);
      FormatIntInjective(PointStartUnix(s.points[0]), PointStartUnix(t.points[0]));
    } else {
      OneLabelSetIff(s.metricLabels, s.resource, t.metricLabels, t.resource);
    }
  }

  /**
   * Two scrapes of one upstream series export the same label set, that is, one
   * Prometheus series, exactly when it is no counter or both newest points
   * started in the same second; name collisions do not matter here.
   */
  lemma SameLabelSetIff(metricType: string, emit: bool, s: TimeSeries, t: TimeSeries)
    requires SameUpstream(s, t) && Convertible(s) && Convertible(t) && IsCounter(s) == IsCounter(t)
    ensures ExportedLabels(metricType, emit, s) == ExportedLabels(metricType, emit, t)
       <==> !IsCounter(s) || SameStartSecond(s.points[0], t.points[0])
  {
    SameStartSecondIff(s.points[0], t.points[0]);
    LabelsOfExport(metricType, emit, s);
    LabelsOfExport(metricType, emit, t);
    if IsCounter(s) {
      var b, p, q := SeriesLabels(s), StartLabel(s.points[0]), StartLabel(t.points[0]);
      FormatIntInjective(PointStartUnix(s.points[0]), PointStartUnix(t.points[0]));
      if p != q {
        assert (b + multiset{p})[p] == b[p] + 1;
        assert (b + multiset{q})[p] == b[p];
      }
    }
  }

  ghost predicate ExportedCounter(s: TimeSeries) {
    Convertible(s) && IsCounter(s)
  }

  /**
   * While a counter keeps its start time, every scrape exports it under one
   * label set, whatever its end times and values.
   */
  lemma OneSeriesPerStart(metricType: string, emit: bool, s: TimeSeries, t: TimeSeries)
    requires SameUpstream(s, t) && ExportedCounter(s) && ExportedCounter(t)
    requires s.points[0].startTime == t.points[0].startTime
    ensures ExportedLabels(metricType, emit, s) == ExportedLabels(metricType, emit, t)
  {
    SameLabelSetIff(metricType, emit, s, t);
    SameStartSecondIff(s.points[0], t.points[0]);
  }

  // ---------- Runs of answers ----------

  /** A counter that is exported in answer i of the run. */
  ghost predicate CounterAt(run: seq<seq<TimeSeries>>, i: int, s: TimeSeries) {
    0 <= i < |run| && s in run[i] && ExportedCounter(s)
  }

  /** While the start time of an upstream series stays the same, its cumulative value does not fall. */
  ghost predicate GrowsBetweenResets(run: seq<seq<TimeSeries>>) {
    forall i, j, s, t | i < j && CounterAt(run, i, s) && CounterAt(run, j, t) && SameUpstream(s, t) ::
      s.points[0].startTime == t.points[0].startTime ==> Value(s) <= Value(t)
  }

  /** Two different start times of an upstream series never fall into the same Unix second. */
  ghost predicate ResetsInDifferentSeconds(run: seq<seq<TimeSeries>>) {
    forall i, j, s, t | i < j && CounterAt(run, i, s) && CounterAt(run, j, t) && SameUpstream(s, t) ::
      SameStartSecond(s.points[0], t.points[0]) ==> s.points[0].startTime == t.points[0].startTime
  }

  /** Exported counter samples with one label set never decrease from answer to answer. */
  ghost predicate NeverDecreases(metricType: string, emit: bool, run: seq<seq<TimeSeries>>) {
    forall i, j, s, t | i < j && CounterAt(run, i, s) && CounterAt(run, j, t) ::
      ExportedLabels(metricType, emit, s) == ExportedLabels(metricType, emit, t) ==>
        CounterOf(metricType, emit, s) <= CounterOf(metricType, emit, t)
  }

  /** The exported counter value. */
  ghost function CounterOf(metricType: string, emit: bool, s: TimeSeries): real
    requires ExportedCounter(s)
  {
    var c := ExportSeries(metricType, emit, s).value.metric.counter;
    if c.Some? then c.value else 0.0
  }

  lemma CounterIsValue(metricType: string, emit: bool, s: TimeSeries)
    requires ExportedCounter(s)
    ensures ExportSeries(metricType, emit, s).value.metric.counter == Some(Value(s))
    ensures CounterOf(metricType, emit, s) == Value(s)
  {
  }

  /** Schemas a counter can have without a name collision. */
  ghost predicate CounterSchemas(schemas: iset<Schema>) {
    forall a :: a in schemas ==> a.Valid() && "start_time_unix" !in a.Names()
  }

  /** All exported counters of the run have one of these schemas. */
  ghost predicate RunOver(schemas: iset<Schema>, run: seq<seq<TimeSeries>>) {
    forall i, s :: CounterAt(run, i, s) ==> SchemaOfSeries(s) in schemas
  }

  /** No two of these schemas export the same names. */
  ghost predicate NamesTellSchemas(schemas: iset<Schema>) {
    forall a, b :: a in schemas && b in schemas && a.Names() == b.Names() ==> a == b
  }

  /** Then a label set names one upstream series and one start second. */
  lemma LabelSetNamesSeriesIff(metricType: string, emit: bool, schemas: iset<Schema>, s: TimeSeries, t: TimeSeries)
    requires CounterSchemas(schemas) && NamesTellSchemas(schemas)
    requires ExportedCounter(s) && ExportedCounter(t)
    requires SchemaOfSeries(s) in schemas && SchemaOfSeries(t) in schemas
    ensures ExportedLabels(metricType, emit, s) == ExportedLabels(metricType, emit, t)
       <==> SameUpstream(s, t) && SameStartSecond(s.points[0], t.points[0])
  {
    SchemaValidIff(s.metricLabels, s.resource);
    SchemaValidIff(t.metricLabels, t.resource);
    assert Collisionless(s) && Collisionless(t);
    ExportedLabelSetIff(metricType, emit, s, t);
    if Merged(s) == Merged(t) {
      NamesOfMerged(s.metricLabels, s.resource);
      NamesOfMerged(t.metricLabels, t.resource);
      OneSchemaIdentifies(s.metricLabels, s.resource, t.metricLabels, t.resource);
    }
  }

  /** Over any run of whole answers, exported counters with one label set never decrease. */
  lemma {:induction false} CountersNeverDecrease(
    metricType: string, emit: bool, schemas: iset<Schema>, run: seq<seq<TimeSeries>>)
    requires CounterSchemas(schemas) && NamesTellSchemas(schemas)
    requires RunOver(schemas, run) && GrowsBetweenResets(run) && ResetsInDifferentSeconds(run)
    ensures NeverDecreases(metricType, emit, run)
  {
    forall i, j, s, t | i < j && CounterAt(run, i, s) && CounterAt(run, j, t)
      && ExportedLabels(metricType, emit, s) == ExportedLabels(metricType, emit, t)
      ensures CounterOf(metricType, emit, s) <= CounterOf(metricType, emit, t)
    {
      LabelSetNamesSeriesIff(metricType, emit, schemas, s, t);
      CounterIsValue(metricType, emit, s);
      CounterIsValue(metricType, emit, t);
    }
  }

  /** A counter with the given labels whose newest point has this start time and value. */
  function Counter(m: map<string, string>, res: Option<Resource>, start: Time, v: real): TimeSeries {
    TimeSeries(m, res, CUMULATIVE, DOUBLE, [Point(Some(start), Some(UNIX_EPOCH + SECOND), DoubleValue(v))])
  }

  /** One answer holding s, then one holding t. */
  function TwoAnswers(s: TimeSeries, t: TimeSeries): seq<seq<TimeSeries>> {
    [[s], [t]]
  }

  lemma OnlyTwo(s: TimeSeries, t: TimeSeries)
    ensures forall i, x :: CounterAt(TwoAnswers(s, t), i, x) ==> (i == 0 && x == s) || (i == 1 && x == t)
  {
  }

  /** Nothing is asked of two different upstream series. */
  lemma StrangersBehave(s: TimeSeries, t: TimeSeries)
    requires !SameUpstream(s, t)
    ensures GrowsBetweenResets(TwoAnswers(s, t)) && ResetsInDifferentSeconds(TwoAnswers(s, t))
  {
    OnlyTwo(s, t);
  }

  lemma TwoAnswersFall(metricType: string, emit: bool, s: TimeSeries, t: TimeSeries)
    requires ExportedCounter(s) && ExportedCounter(t) && Value(t) < Value(s)
    requires ExportedLabels(metricType, emit, s) == ExportedLabels(metricType, emit, t)
    ensures !NeverDecreases(metricType, emit, TwoAnswers(s, t))
  {
    var run := TwoAnswers(s, t);
    CounterIsValue(metricType, emit, s);
    CounterIsValue(metricType, emit, t);
    assert CounterAt(run, 0, s) && CounterAt(run, 1, t);
  }

  lemma BlankCounter(a: Schema, start: Time, v: real)
    requires a.Valid() && "start_time_unix" !in a.Names()
    ensures var s := Counter(BlankMetric(a), BlankResource(a), start, v);
      && ExportedCounter(s) && Collisionless(s) && SchemaOfSeries(s) == a && Value(s) == v
      && Merged(s) == map k | k in a.Names() :: ""
  {
    var m, res := BlankMetric(a), BlankResource(a);
    BlankMerged(a);
    SchemaValidIff(m, res);
  }

  lemma BlankCountersConfused(metricType: string, emit: bool, a: Schema, b: Schema, v: real, w: real)
    requires a.Valid() && "start_time_unix" !in a.Names()
    requires b.Valid() && "start_time_unix" !in b.Names() && a.Names() == b.Names()
    ensures var s := Counter(BlankMetric(a), BlankResource(a), UNIX_EPOCH, v);
      var t := Counter(BlankMetric(b), BlankResource(b), UNIX_EPOCH, w);
      && ExportedCounter(s) && ExportedCounter(t)
      && ExportedLabels(metricType, emit, s) == ExportedLabels(metricType, emit, t)
  {
    var s := Counter(BlankMetric(a), BlankResource(a), UNIX_EPOCH, v);
    var t := Counter(BlankMetric(b), BlankResource(b), UNIX_EPOCH, w);
    BlankCounter(a, UNIX_EPOCH, v);
    BlankCounter(b, UNIX_EPOCH, w);
    SameStartSecondIff(s.points[0], t.points[0]);
    ExportedLabelSetIff(metricType, emit, s, t);
  }

  /** Blank counters of two schemas with the same names fall from 5 to 1 under one label set. */
  lemma {:induction false} ConfusedSchemasDecrease(
    metricType: string, emit: bool, schemas: iset<Schema>, a: Schema, b: Schema)
    returns (run: seq<seq<TimeSeries>>)
    requires CounterSchemas(schemas) && a in schemas && b in schemas && a != b && a.Names() == b.Names()
    ensures RunOver(schemas, run) && GrowsBetweenResets(run) && ResetsInDifferentSeconds(run)
    ensures !NeverDecreases(metricType, emit, run)
  {
    var s := Counter(BlankMetric(a), BlankResource(a), UNIX_EPOCH, 5.0);
    var t := Counter(BlankMetric(b), BlankResource(b), UNIX_EPOCH, 1.0);
    run := TwoAnswers(s, t);
    BlankCounter(a, UNIX_EPOCH, 5.0);
    BlankCounter(b, UNIX_EPOCH, 1.0);
    StrangersBehave(s, t);
    OnlyTwo(s, t);
    BlankCountersConfused(metricType, emit, a, b, 5.0, 1.0);
    TwoAnswersFall(metricType, emit, s, t);
  }

  /**
   * Counters with the given schemas never decrease, over every run of answers
   * of a well-behaved upstream, if and only if no two different schemas export
   * the same names.
   */
  lemma {:induction false} CountersNeverDecreaseIff(metricType: string, emit: bool, schemas: iset<Schema>)
    requires CounterSchemas(schemas)
    ensures (forall run :: RunOver(schemas, run) && GrowsBetweenResets(run) && ResetsInDifferentSeconds(run) ==>
               NeverDecreases(metricType, emit, run))
       <==> NamesTellSchemas(schemas)
  {
    if NamesTellSchemas(schemas) {
      forall run | RunOver(schemas, run) && GrowsBetweenResets(run) && ResetsInDifferentSeconds(run)
        ensures NeverDecreases(metricType, emit, run)
      {
        CountersNeverDecrease(metricType, emit, schemas, run);
      }
    } else {
      var a, b :| a in schemas && b in schemas && a.Names() == b.Names() && a != b;
      var run := ConfusedSchemasDecrease(metricType, emit, schemas, a, b);
    }
  }

  // ---------- Witnesses ----------

  /** One Prometheus series falls from 5 to 1 although the upstream behaves. */
  ghost predicate FallsUnderOneLabelSet(metricType: string, s: TimeSeries, t: TimeSeries) {
    && ExportedCounter(s) && ExportedCounter(t)
    && GrowsBetweenResets(TwoAnswers(s, t))
    && ExportedLabels(metricType, false, s) == ExportedLabels(metricType, false, t)
    && CounterOf(metricType, false, s) == 5.0 && CounterOf(metricType, false, t) == 1.0
  }

  /** A reset within one second is invisible in the labels. */
  lemma ResetWithinASecondDecreases(metricType: string)
    ensures FallsUnderOneLabelSet(metricType,
      Counter(map[], None, UNIX_EPOCH + 100 * MILLISECOND, 5.0),
      Counter(map[], None, UNIX_EPOCH + 900 * MILLISECOND, 1.0))
  {
    var s := Counter(map[], None, UNIX_EPOCH + 100 * MILLISECOND, 5.0);
    var t := Counter(map[], None, UNIX_EPOCH + 900 * MILLISECOND, 1.0);
    OnlyTwo(s, t);
    SameLabelSetIff(metricType, false, s, t);
  }

  /** zone=a as a metric label and zone=a as a resource label are one label set. */
  lemma MixedLabelsDecrease(metricType: string)
    ensures var s := Counter(map["zone" := "a"], Some(Resource("gce", map[])), UNIX_EPOCH, 5.0);
      var t := Counter(map[], Some(Resource("gce", map["zone" := "a"])), UNIX_EPOCH, 1.0);
      && FallsUnderOneLabelSet(metricType, s, t)
      && ResetsInDifferentSeconds(TwoAnswers(s, t))
      && Collisionless(s) && Collisionless(t) && !SameUpstream(s, t)
  {
    var s := Counter(map["zone" := "a"], Some(Resource("gce", map[])), UNIX_EPOCH, 5.0);
    var t := Counter(map[], Some(Resource("gce", map["zone" := "a"])), UNIX_EPOCH, 1.0);
    assert "zone" in s.metricLabels && "zone" !in t.metricLabels;
    StrangersBehave(s, t);
    assert Merged(s) == map["zone" := "a", "resource_type" := "gce"] == Merged(t);
    ExportedLabelSetIff(metricType, false, s, t);
  }
}
