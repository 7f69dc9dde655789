/**
 * The streaming loop of the Cloud Monitoring collector. Its specification is
 * the stable grouping of the convertible series by kind and value type.
 */
module Collect {
  import opened Basics
  import opened Series
  import opened Names
  import opened Windows
  import opened Families
  import SG = StableGrouping

  /** What one call of the upstream iterator's Next yields. */
  datatype Event = Item(series: TimeSeries) | Done | Broken(error: string)

  /** The upstream answer: an arbitrary, possibly endless stream of events. */
  type Stream = nat -> Event

  class TimeSeriesIterator {
    const stream: Stream
    var pos: nat

    constructor (stream: Stream)
      ensures this.stream == stream && pos == 0
    {
      this.stream, pos := stream, 0;
    }

    method Next() returns (e: Event)
      modifies this
      ensures e == stream(old(pos)) && pos == old(pos) + 1
    {
      e := stream(pos);
      pos := pos + 1;
    }
  }

  datatype CollectError = BadRequest(build: BuildError) | Upstream(error: string) | MaxSeriesExceeded(limit: nat)

  // ---------- Specification ----------

  datatype FamilyKey = FamilyKey(name: string, kind: Kind, valueType: ValueType)

  /** The keyed metric of a series; one that cannot be converted has none. */
  function ItemOf(metricType: string, emit: bool, s: TimeSeries): seq<(FamilyKey, Converted)> {
    match ExportSeries(metricType, emit, s)
    case None => []
    case Some(c) => [(FamilyKey(c.familyName, s.kind, s.valueType), c)]
  }

  /** The keyed metrics of the convertible series, in order. */
  function Items(metricType: string, emit: bool, ss: seq<TimeSeries>): seq<(FamilyKey, Converted)> {
    if ss == [] then []
    else Items(metricType, emit, ss[..|ss| - 1]) + ItemOf(metricType, emit, ss[|ss| - 1])
  }

  function Metrics(cs: seq<Converted>): seq<Metric> {
    seq(|cs|, i requires 0 <= i < |cs| => cs[i].metric)
  }

  /** A family takes its name and type from the first of its series. */
  function FamilyOf(help: string, cs: seq<Converted>): Family
    requires cs != []
  {
    Family(cs[0].familyName, cs[0].familyType, help, Metrics(cs))
  }

  lemma FamilyAppend(help: string, cs: seq<Converted>, c: Converted)
    ensures var first := if cs == [] then c else cs[0];
      FamilyOf(help, cs + [c]) == Family(first.familyName, first.familyType, help, Metrics(cs) + [c.metric])
  {
    assert Metrics(cs + [c]) == Metrics(cs) + [c.metric];
  }

  ghost function Grouped(items: seq<(FamilyKey, Converted)>, help: string): seq<Family> {
    var keys := SG.Keys(items);
    seq(|keys|, i requires 0 <= i < |keys| =>
      SG.GroupNonempty(items, keys[i]);
      FamilyOf(help, SG.Group(items, keys[i])))
  }

  ghost function FamiliesOf(metricType: string, emit: bool, help: string, ss: seq<TimeSeries>): seq<Family> {
    Grouped(Items(metricType, emit, ss), help)
  }

  /** The stream's first event that is no series is number n. */
  ghost predicate EndsAt(stream: Stream, n: nat) {
    !stream(n).Item? && forall i: nat :: i < n ==> stream(i).Item?
  }

  function Prefix(stream: Stream, n: nat): seq<TimeSeries>
    requires forall i: nat :: i < n ==> stream(i).Item?
  {
    seq(n, i requires 0 <= i < n => stream(i).series)
  }

  // ---------- The loop ----------

  /** The families the items so far amount to, by key. */
  ghost function FamilyMap(items: seq<(FamilyKey, Converted)>, help: string): map<FamilyKey, Family> {
    map k | k in SG.Keys(items) :: SG.GroupNonempty(items, k); FamilyOf(help, SG.Group(items, k))
  }

  /** The family of a key with one more series, which may be its first. */
  function FamilyWith(fams: map<FamilyKey, Family>, help: string, k: FamilyKey, c: Converted): Family {
    if k in fams then Appended(fams[k], c.metric)
    else Family(c.familyName, c.familyType, help, [c.metric])
  }

  lemma FamilyAtKey(items: seq<(FamilyKey, Converted)>, help: string, k: FamilyKey, c: Converted)
    ensures k in FamilyMap(items + [(k, c)], help)
    ensures FamilyMap(items + [(k, c)], help)[k]
         == FamilyWith(FamilyMap(items, help), help, k, c)
  {
    SG.AppendItem(items, k, c);
    SG.GroupNonempty(items, k);
    FamilyAppend(help, SG.Group(items, k), c);
    assert SG.Group(items + [(k, c)], k) == SG.Group(items, k) + [c];
  }

  lemma FamilyElsewhere(items: seq<(FamilyKey, Converted)>, help: string, k: FamilyKey, c: Converted, j: FamilyKey)
    requires j in SG.Keys(items) && j != k
    ensures j in SG.Keys(items + [(k, c)])
    ensures FamilyMap(items + [(k, c)], help)[j] == FamilyMap(items, help)[j]
  {
    SG.AppendItem(items, k, c);
    assert SG.Group(items + [(k, c)], j) == SG.Group(items, j);
  }

  lemma FamilyMapKeys(items: seq<(FamilyKey, Converted)>, help: string, k: FamilyKey, c: Converted)
    ensures FamilyMap(items + [(k, c)], help).Keys == FamilyMap(items, help).Keys + {k}
  {
    SG.AppendItem(items, k, c);
  }

  lemma FamilyMapAppend(items: seq<(FamilyKey, Converted)>, help: string, k: FamilyKey, c: Converted)
    ensures FamilyMap(items + [(k, c)], help)
         == FamilyMap(items, help)[k := FamilyWith(FamilyMap(items, help), help, k, c)]
  {
    var before, after := FamilyMap(items, help), FamilyMap(items + [(k, c)], help);
    FamilyMapKeys(items, help, k, c);
    FamilyAtKey(items, help, k, c);
    forall j | j in before && j != k ensures after[j] == before[j] {
      FamilyElsewhere(items, help, k, c, j);
    }
    UpdatedAt(before, after, k, after[k]);
  }

  /** The loop's state: order and map hold the groups of the items read so far. */
  ghost predicate Filed(
    families: map<FamilyKey, MetricFamily>, order: seq<FamilyKey>,
    items: seq<(FamilyKey, Converted)>, help: string)
    reads families.Values
  {
    order == SG.Keys(items) && OneObjectPerKey(families) && ViewMap(families) == FamilyMap(items, help)
  }

  /** The series read so far are filed. */
  ghost predicate FiledUpTo(
    families: map<FamilyKey, MetricFamily>, order: seq<FamilyKey>,
    metricType: string, emit: bool, help: string, ss: seq<TimeSeries>)
    reads families.Values
  {
    Filed(families, order, Items(metricType, emit, ss), help)
  }

  /** What consuming the stream under a cap must yield, and how many calls of Next it takes. */
  ghost predicate Consumed(
    stream: Stream, maxSeries: nat, calls: nat, r: Result<seq<MetricFamily>, CollectError>,
    metricType: string, emit: bool, help: string)
    reads if r.Success? then r.value else []
  {
    && calls <= maxSeries + 1
    && (forall n: nat :: n <= maxSeries && EndsAt(stream, n) ==>
          && calls == n + 1
          && (stream(n).Broken? ==> r == Failure(Upstream(stream(n).error)))
          && (stream(n).Done? ==>
                r.Success? && Views(r.value) == FamiliesOf(metricType, emit, help, Prefix(stream, n))))
    && ((forall i: nat :: i <= maxSeries ==> stream(i).Item?) ==>
          calls == maxSeries + 1 && r == Failure(MaxSeriesExceeded(maxSeries)))
  }

  /**
   * All or nothing: families come back exactly when the stream ends cleanly
   * within the cap, and then they are the stable grouping of its series. Next
   * is called at most maxSeries + 1 times, whatever the stream does, and the
   * error is the iterator's or the cap's, whichever comes first. A request
   * that cannot be built fails before the stream is touched.
   */
  method Collect(it: TimeSeriesIterator, params: QueryParams, now: Time, enums: Enums, help: string, maxSeries: nat)
    returns (r: Result<seq<MetricFamily>, CollectError>)
    requires it.pos == 0
    modifies it
    ensures r.Success? ==> forall f :: f in r.value ==> fresh(f)
    ensures match BuildRequest(params, now, enums)
            case Failure(e) => r == Failure(BadRequest(e)) && it.pos == 0
            case Success(_) =>
              Consumed(it.stream, maxSeries, it.pos, r, params.metricType, params.emitTimestamps, help)
  {
    var req := BuildRequest(params, now, enums);
    if req.Failure? {
      return Failure(BadRequest(req.error));
    }
    r := CollectStream(it, params.metricType, params.emitTimestamps, help, maxSeries);
  }

  lemma ItemsStep(metricType: string, emit: bool, ss: seq<TimeSeries>, s: TimeSeries)
    ensures Items(metricType, emit, ss + [s]) == Items(metricType, emit, ss) + ItemOf(metricType, emit, s)
    ensures !Convertible(s) ==> Items(metricType, emit, ss + [s]) == Items(metricType, emit, ss)
  {
    assert (ss + [s])[..|ss|] == ss;
  }

  ghost predicate IsPrefix(stream: Stream, ss: seq<TimeSeries>) {
    forall i: nat :: i < |ss| ==> stream(i) == Item(ss[i])
  }

  lemma PrefixAppend(stream: Stream, ss: seq<TimeSeries>, s: TimeSeries)
    requires IsPrefix(stream, ss) && stream(|ss|) == Item(s)
    ensures IsPrefix(stream, ss + [s])
  {
  }

  /** How reading the stream ended, after n series. */
  ghost predicate EndedBy(stream: Stream, maxSeries: nat, calls: nat, n: nat, err: Option<CollectError>) {
    && n <= maxSeries
    && calls == n + 1
    && match err
       case None => stream(n).Done?
       case Some(Upstream(e)) => stream(n) == Broken(e)
       case Some(MaxSeriesExceeded(limit)) => limit == n == maxSeries && stream(n).Item?
       case Some(BadRequest(_)) => false
  }

  /** Reads series until the stream ends, breaks, or exceeds the cap, filing each under its key. */
  method ReadStream(it: TimeSeriesIterator, metricType: string, emit: bool, help: string, maxSeries: nat)
    returns (err: Option<CollectError>, families: map<FamilyKey, MetricFamily>, order: seq<FamilyKey>,
             ghost ss: seq<TimeSeries>)
    requires it.pos == 0
    modifies it
    ensures IsPrefix(it.stream, ss)
    ensures EndedBy(it.stream, maxSeries, it.pos, |ss|, err)
    ensures FiledUpTo(families, order, metricType, emit, help, ss)
    ensures forall k :: k in families ==> fresh(families[k])
  {
    families, order, ss := map[], [], [];
    var count := 0;
    while true
      invariant it.pos == count == |ss| && count <= maxSeries
      invariant IsPrefix(it.stream, ss)
      invariant forall k :: k in families ==> fresh(families[k])
      invariant FiledUpTo(families, order, metricType, emit, help, ss)
      decreases maxSeries - count
    {
      var e := it.Next();
      if !e.Item? {
        err := if e.Done? then None else Some(Upstream(e.error));
        return;
      }
      count := count + 1;
      if count > maxSeries {
        err := Some(MaxSeriesExceeded(maxSeries));
        return;
      }
      families, order := FileSeries(families, order, ss, metricType, emit, e.series, help);
      PrefixAppend(it.stream, ss, e.series);
      ss := ss + [e.series];
    }
  }

  method CollectStream(it: TimeSeriesIterator, metricType: string, emit: bool, help: string, maxSeries: nat)
    returns (r: Result<seq<MetricFamily>, CollectError>)
    requires it.pos == 0
    modifies it
    ensures r.Success? ==> forall f :: f in r.value ==> fresh(f)
    ensures Consumed(it.stream, maxSeries, it.pos, r, metricType, emit, help)
  {
    var err, families, order, ss := ReadStream(it, metricType, emit, help, maxSeries);
    assert Prefix(it.stream, |ss|) == ss;
    assert !it.stream(|ss|).Item? ==> EndsAt(it.stream, |ss|);
    if err.Some? {
      return Failure(err.value);
    }
    var out := InOrder(families, order, Items(metricType, emit, ss), help);
    forall f | f in out ensures fresh(f) {
      var k :| k in families && families[k] == f;
    }
    return Success(out);
  }

  /** The families in the order of their keys. */
  method InOrder(
    families: map<FamilyKey, MetricFamily>, order: seq<FamilyKey>,
    ghost items: seq<(FamilyKey, Converted)>, help: string)
    returns (out: seq<MetricFamily>)
    requires Filed(families, order, items, help)
    ensures forall f :: f in out ==> f in families.Values
    ensures Views(out) == Grouped(items, help)
  {
    out := [];
    for i := 0 to |order|
      invariant |out| == i
      invariant forall j :: 0 <= j < i ==> out[j] in families.Values && out[j].View() == Grouped(items, help)[j]
    {
      assert order[i] in FamilyMap(items, help) && order[i] in ViewMap(families);
      assert families[order[i]].View() == FamilyMap(items, help)[order[i]] == Grouped(items, help)[i];
      out := out + [families[order[i]]];
    }
  }

  /** Converts one series and files it, or skips it. */
  method FileSeries(
    families: map<FamilyKey, MetricFamily>, order: seq<FamilyKey>,
    ghost ss: seq<TimeSeries>, metricType: string, emit: bool, series: TimeSeries, help: string)
    returns (families': map<FamilyKey, MetricFamily>, order': seq<FamilyKey>)
    requires FiledUpTo(families, order, metricType, emit, help, ss)
    modifies families.Values
    ensures FiledUpTo(families', order', metricType, emit, help, ss + [series])
    ensures forall k :: k in families' ==> (k in families && families'[k] == families[k]) || fresh(families'[k])
  {
    ItemsStep(metricType, emit, ss, series);
    var converted := ExportSeries(metricType, emit, series);
    if converted.None? {
      return families, order;
    }
    var c := converted.value;
    var key := FamilyKey(c.familyName, series.kind, series.valueType);
    families', order' := AddSeries(families, order, Items(metricType, emit, ss), key, c, help);
  }

  /** Files one converted series under its key. */
  method AddSeries(
    families: map<FamilyKey, MetricFamily>, order: seq<FamilyKey>,
    ghost items: seq<(FamilyKey, Converted)>, key: FamilyKey, c: Converted, help: string)
    returns (families': map<FamilyKey, MetricFamily>, order': seq<FamilyKey>)
    requires Filed(families, order, items, help)
    modifies families.Values
    ensures Filed(families', order', items + [(key, c)], help)
    ensures forall k :: k in families' ==> (k in families && families'[k] == families[k]) || fresh(families'[k])
  {
    FamilyMapAppend(items, help, key, c);
    SG.AppendItem(items, key, c);
    families', order' := AddToFamily(families, order, key, c.familyName, c.familyType, help, c.metric);
  }

  // ---------- What the specification guarantees ----------

  /** A stream ends cleanly within the cap, or breaks within it, or exceeds it; never two of these. */
  lemma {:induction false} StreamTrichotomy(stream: Stream, maxSeries: nat) returns (n: nat)
    ensures || (n <= maxSeries && EndsAt(stream, n))
            || (n == maxSeries + 1 && forall i: nat :: i <= maxSeries ==> stream(i).Item?)
    ensures forall m: nat :: m <= maxSeries && EndsAt(stream, m) ==> m == n
  {
    n := 0;
    while n <= maxSeries && stream(n).Item?
      invariant n <= maxSeries + 1
      invariant forall i: nat :: i < n ==> stream(i).Item?
    {
      n := n + 1;
    }
  }

  /** Families are returned exactly when the stream ends cleanly with at most maxSeries series. */
  lemma SuccessIff(
    stream: Stream, maxSeries: nat, calls: nat, r: Result<seq<MetricFamily>, CollectError>,
    metricType: string, emit: bool, help: string)
    requires Consumed(stream, maxSeries, calls, r, metricType, emit, help)
    ensures r.Success? <==> exists n: nat :: n <= maxSeries && EndsAt(stream, n) && stream(n).Done?
  {
    var n := StreamTrichotomy(stream, maxSeries);
  }

  ghost function CountConvertible(ss: seq<TimeSeries>): nat {
    if ss == [] then 0
    else
      var n := |ss| - 1;
      CountConvertible(ss[..n]) + if Convertible(ss[n]) then 1 else 0
  }

  lemma {:induction false} ItemsCount(metricType: string, emit: bool, ss: seq<TimeSeries>)
    ensures |Items(metricType, emit, ss)| == CountConvertible(ss)
  {
    if ss != [] {
      ItemsCount(metricType, emit, ss[..|ss| - 1]);
    }
  }

  /** Every convertible series is exported exactly once. */
  lemma MetricsConserved(metricType: string, emit: bool, help: string, ss: seq<TimeSeries>)
    ensures TotalMetrics(FamiliesOf(metricType, emit, help, ss)) == CountConvertible(ss)
  {
    var items := Items(metricType, emit, ss);
    ItemsCount(metricType, emit, ss);
    TotalOfGroups(items, FamiliesOf(metricType, emit, help, ss), SG.Keys(items));
    SG.GroupSizes(items);
  }

  /** Each item is the export of one series and is filed under that series' kind and type. */
  lemma {:induction false} ItemsSound(metricType: string, emit: bool, ss: seq<TimeSeries>)
    ensures forall x :: x in Items(metricType, emit, ss) ==>
      && x.0.name == x.1.familyName == PromName(metricType)
      && x.1.familyType == TypeOf(x.0.kind, x.0.valueType)
      && PayloadMatches(x.1.familyType, x.1.metric)
  {
    if ss != [] {
      ItemsSound(metricType, emit, ss[..|ss| - 1]);
    }
  }

  lemma {:induction false} GroupHolds(items: seq<(FamilyKey, Converted)>, k: FamilyKey, c: Converted)
    requires c in SG.Group(items, k)
    ensures (k, c) in items
  {
    var n := |items| - 1;
    if c in SG.Group(items[..n], k) {
      GroupHolds(items[..n], k, c);
    } else {
      assert items[n] == (k, c);
    }
  }

  /** Every metric of a family carries exactly the payload of the family's type, and no family is empty. */
  lemma FamilyTypesSound(metricType: string, emit: bool, help: string, ss: seq<TimeSeries>, i: nat)
    requires i < |FamiliesOf(metricType, emit, help, ss)|
    ensures var f := FamiliesOf(metricType, emit, help, ss)[i];
      && f.name == PromName(metricType) && f.help == help
      && f.metrics != []
      && forall m :: m in f.metrics ==> PayloadMatches(f.ftype, m)
  {
    var items := Items(metricType, emit, ss);
    var k := SG.Keys(items)[i];
    var g := SG.Group(items, k);
    SG.GroupNonempty(items, k);
    ItemsSound(metricType, emit, ss);
    forall c | c in g
      ensures c.familyName == PromName(metricType)
      ensures c.familyType == TypeOf(k.kind, k.valueType) && PayloadMatches(c.familyType, c.metric)
    {
      GroupHolds(items, k, c);
    }
    assert g[0] in g;
    forall m | m in Metrics(g) ensures PayloadMatches(g[0].familyType, m) {
      var a :| 0 <= a < |g| && g[a].metric == m;
      assert g[a] in g;
    }
  }

  // ---------- The stable partition, in terms of the stream alone ----------

  ghost predicate SameKindAndType(s: TimeSeries, t: TimeSeries) {
    s.kind == t.kind && s.valueType == t.valueType
  }

  function KeyOf(metricType: string, s: TimeSeries): FamilyKey {
    FamilyKey(PromName(metricType), s.kind, s.valueType)
  }

  /** The series is exported as this item. */
  ghost predicate IsItem(metricType: string, emit: bool, s: TimeSeries, item: (FamilyKey, Converted)) {
    ExportSeries(metricType, emit, s) == Some(item.1) && item.0 == KeyOf(metricType, s)
  }

  /** The series is exported as this metric. */
  ghost predicate IsMetric(metricType: string, emit: bool, s: TimeSeries, m: Metric) {
    Convertible(s) && ExportSeries(metricType, emit, s).value.metric == m
  }

  /** pos lists, in order, the positions of all convertible series, whose exports are the items. */
  ghost predicate ItemsAt(
    metricType: string, emit: bool, ss: seq<TimeSeries>, items: seq<(FamilyKey, Converted)>, pos: seq<nat>)
  {
    && SG.Increasing(pos)
    && |pos| == |items|
    && (forall a :: 0 <= a < |pos| ==> pos[a] < |ss| && IsItem(metricType, emit, ss[pos[a]], items[a]))
    && (forall i :: 0 <= i < |ss| && Convertible(ss[i]) ==> i in pos)
  }

  lemma ItemsAtSkip(
    metricType: string, emit: bool, ss: seq<TimeSeries>, items: seq<(FamilyKey, Converted)>, pos: seq<nat>, s: TimeSeries)
    requires ItemsAt(metricType, emit, ss, items, pos) && !Convertible(s)
    ensures ItemsAt(metricType, emit, ss + [s], items, pos)
  {
  }

  lemma ItemsAtAppend(
    metricType: string, emit: bool, ss: seq<TimeSeries>, items: seq<(FamilyKey, Converted)>, pos: seq<nat>,
    s: TimeSeries, item: (FamilyKey, Converted))
    requires ItemsAt(metricType, emit, ss, items, pos) && IsItem(metricType, emit, s, item)
    ensures ItemsAt(metricType, emit, ss + [s], items + [item], pos + [|ss|])
  {
    var pos' := pos + [|ss|];
    forall i | 0 <= i <= |ss| && Convertible((ss + [s])[i]) ensures i in pos' {
      assert i < |ss| ==> i in pos;
      assert pos'[|pos|] == |ss|;
    }
  }

  lemma {:induction false} ItemsArePositions(metricType: string, emit: bool, ss: seq<TimeSeries>) returns (pos: seq<nat>)
    ensures ItemsAt(metricType, emit, ss, Items(metricType, emit, ss), pos)
  {
    pos := [];
    if ss != [] {
      var init, s := ss[..|ss| - 1], ss[|ss| - 1];
      assert ss == init + [s];
      var items := Items(metricType, emit, init);
      pos := ItemsArePositions(metricType, emit, init);
      if Convertible(s) {
        var item := (KeyOf(metricType, s), ExportSeries(metricType, emit, s).value);
        ItemsAtAppend(metricType, emit, init, items, pos, s, item);
        assert Items(metricType, emit, ss) == items + [item];
        pos := pos + [|init|];
      } else {
        ItemsAtSkip(metricType, emit, init, items, pos, s);
      }
    }
  }

  /**
   * idx lists, in stream order, exactly the convertible series that share kind
   * and type with the first of them, and the family holds their exports.
   */
  ghost predicate ListsFamily(metricType: string, emit: bool, ss: seq<TimeSeries>, f: Family, idx: seq<nat>) {
    && SG.Increasing(idx)
    && |idx| == |f.metrics| > 0
    && (forall a :: 0 <= a < |idx| ==> idx[a] < |ss|)
    && (forall a :: 0 <= a < |idx| ==>
          IsMetric(metricType, emit, ss[idx[a]], f.metrics[a]) && SameKindAndType(ss[idx[a]], ss[idx[0]]))
    && (forall i :: 0 <= i < |ss| && Convertible(ss[i]) && SameKindAndType(ss[i], ss[idx[0]]) ==> i in idx)
  }

  /** Positions among the items, read as positions in the stream. */
  function Through(pos: seq<nat>, at: seq<nat>): (idx: seq<nat>)
    requires forall a :: 0 <= a < |at| ==> at[a] < |pos|
  {
    seq(|at|, a requires 0 <= a < |at| => pos[at[a]])
  }

  /** The family of key k is listed by the series behind its items. */
  lemma FamilyListed(
    metricType: string, emit: bool, help: string, ss: seq<TimeSeries>,
    items: seq<(FamilyKey, Converted)>, pos: seq<nat>, k: FamilyKey, at: seq<nat>, g: seq<Converted>)
    requires ItemsAt(metricType, emit, ss, items, pos) && SG.PickedAt(items, k, at, g) && g != []
    ensures ListsFamily(metricType, emit, ss, FamilyOf(help, g), Through(pos, at))
    ensures KeyOf(metricType, ss[pos[at[0]]]) == k
  {
    var idx := Through(pos, at);
    forall a | 0 <= a < |idx|
      ensures IsMetric(metricType, emit, ss[idx[a]], g[a].metric) && KeyOf(metricType, ss[idx[a]]) == k
    {
      assert IsItem(metricType, emit, ss[pos[at[a]]], items[at[a]]);
    }
    forall i | 0 <= i < |ss| && Convertible(ss[i]) && SameKindAndType(ss[i], ss[idx[0]]) ensures i in idx {
      var b :| 0 <= b < |pos| && pos[b] == i;
      assert IsItem(metricType, emit, ss[pos[b]], items[b]);
      var a :| 0 <= a < |at| && at[a] == b;
      assert idx[a] == i;
    }
  }

  lemma FirstIsLeast(items: seq<(FamilyKey, Converted)>, k: FamilyKey, at: seq<nat>, g: seq<Converted>)
    requires k in SG.Keys(items) && SG.PickedAt(items, k, at, g)
    ensures at != [] && at[0] == SG.FirstIndex(items, k)
  {
    var i := SG.FirstIndex(items, k);
    assert i in at;
  }

  /** The row lists the family of key k and starts at the first convertible series with that key. */
  ghost predicate RowOf(
    metricType: string, emit: bool, help: string, ss: seq<TimeSeries>,
    items: seq<(FamilyKey, Converted)>, pos: seq<nat>, k: FamilyKey, row: seq<nat>)
  {
    && |pos| == |items| && k in SG.Keys(items) && SG.Group(items, k) != []
    && ListsFamily(metricType, emit, ss, FamilyOf(help, SG.Group(items, k)), row)
    && row[0] == pos[SG.FirstIndex(items, k)]
    && KeyOf(metricType, ss[row[0]]) == k
  }

  lemma RowExists(
    metricType: string, emit: bool, help: string, ss: seq<TimeSeries>,
    items: seq<(FamilyKey, Converted)>, pos: seq<nat>, k: FamilyKey) returns (row: seq<nat>)
    requires ItemsAt(metricType, emit, ss, items, pos) && k in SG.Keys(items)
    ensures RowOf(metricType, emit, help, ss, items, pos, k, row)
  {
    SG.GroupNonempty(items, k);
    var g := SG.Group(items, k);
    var at := SG.GroupIsSubsequence(items, k);
    FamilyListed(metricType, emit, help, ss, items, pos, k, at, g);
    FirstIsLeast(items, k, at, g);
    row := Through(pos, at);
  }

  /** Every family is listed by its row of idx. */
  ghost predicate FamiliesListed(
    metricType: string, emit: bool, ss: seq<TimeSeries>, fams: seq<Family>, idx: seq<seq<nat>>)
  {
    && |idx| == |fams|
    && forall i :: 0 <= i < |idx| ==> ListsFamily(metricType, emit, ss, fams[i], idx[i])
  }

  /** Rows start at ever later positions. */
  ghost predicate FirstsIncrease(idx: seq<seq<nat>>) {
    && (forall i :: 0 <= i < |idx| ==> idx[i] != [])
    && (forall i, j :: 0 <= i < j < |idx| ==> idx[i][0] < idx[j][0])
  }

  /** Position p of the stream was exported in some family. */
  ghost predicate Exported(idx: seq<seq<nat>>, p: nat) {
    exists i :: 0 <= i < |idx| && p in idx[i]
  }

  ghost predicate Rows(
    metricType: string, emit: bool, help: string, ss: seq<TimeSeries>,
    items: seq<(FamilyKey, Converted)>, pos: seq<nat>, keys: seq<FamilyKey>, idx: seq<seq<nat>>)
  {
    && |idx| == |keys|
    && forall i :: 0 <= i < |idx| ==> RowOf(metricType, emit, help, ss, items, pos, keys[i], idx[i])
  }

  lemma RowsAppend(
    metricType: string, emit: bool, help: string, ss: seq<TimeSeries>,
    items: seq<(FamilyKey, Converted)>, pos: seq<nat>,
    keys: seq<FamilyKey>, idx: seq<seq<nat>>, k: FamilyKey, row: seq<nat>)
    requires Rows(metricType, emit, help, ss, items, pos, keys, idx)
    requires RowOf(metricType, emit, help, ss, items, pos, k, row)
    ensures Rows(metricType, emit, help, ss, items, pos, keys + [k], idx + [row])
  {
    forall i | 0 <= i <= |idx|
      ensures RowOf(metricType, emit, help, ss, items, pos, (keys + [k])[i], (idx + [row])[i])
    {
      assert i < |idx| ==> RowOf(metricType, emit, help, ss, items, pos, keys[i], idx[i]);
    }
  }

  lemma {:induction false} RowsExist(
    metricType: string, emit: bool, help: string, ss: seq<TimeSeries>,
    items: seq<(FamilyKey, Converted)>, pos: seq<nat>, keys: seq<FamilyKey>) returns (idx: seq<seq<nat>>)
    requires ItemsAt(metricType, emit, ss, items, pos) && forall k :: k in keys ==> k in SG.Keys(items)
    ensures Rows(metricType, emit, help, ss, items, pos, keys, idx)
  {
    idx := [];
    if keys != [] {
      var init, k := keys[..|keys| - 1], keys[|keys| - 1];
      assert keys == init + [k];
      idx := RowsExist(metricType, emit, help, ss, items, pos, init);
      var row := RowExists(metricType, emit, help, ss, items, pos, k);
      RowsAppend(metricType, emit, help, ss, items, pos, init, idx, k, row);
      idx := idx + [row];
    }
  }

  lemma RowsIncrease(
    metricType: string, emit: bool, help: string, ss: seq<TimeSeries>,
    items: seq<(FamilyKey, Converted)>, pos: seq<nat>, idx: seq<seq<nat>>)
    requires ItemsAt(metricType, emit, ss, items, pos)
    requires Rows(metricType, emit, help, ss, items, pos, SG.Keys(items), idx)
    ensures FirstsIncrease(idx)
  {
    var keys := SG.Keys(items);
    forall i: nat, j: nat | i < j < |idx| ensures idx[i][0] < idx[j][0] {
      SG.KeysInFirstAppearanceOrder(items, i, j);
      assert RowOf(metricType, emit, help, ss, items, pos, keys[i], idx[i]);
      assert RowOf(metricType, emit, help, ss, items, pos, keys[j], idx[j]);
    }
    forall i | 0 <= i < |idx| ensures idx[i] != [] {
      assert RowOf(metricType, emit, help, ss, items, pos, keys[i], idx[i]);
    }
  }

  lemma RowsCover(
    metricType: string, emit: bool, help: string, ss: seq<TimeSeries>,
    items: seq<(FamilyKey, Converted)>, pos: seq<nat>, idx: seq<seq<nat>>, p: nat)
    requires ItemsAt(metricType, emit, ss, items, pos)
    requires Rows(metricType, emit, help, ss, items, pos, SG.Keys(items), idx)
    requires p < |ss| && Convertible(ss[p])
    ensures Exported(idx, p)
  {
    var b :| 0 <= b < |pos| && pos[b] == p;
    assert IsItem(metricType, emit, ss[pos[b]], items[b]);
    SG.KeysAreThoseThatOccur(items, items[b].0);
    var i :| 0 <= i < |idx| && SG.Keys(items)[i] == items[b].0;
    assert RowOf(metricType, emit, help, ss, items, pos, SG.Keys(items)[i], idx[i]);
    assert SameKindAndType(ss[p], ss[idx[i][0]]);
  }

  /**
   * Collect is a stable partition: every family lists exactly the convertible
   * series of one kind and value type, in stream order; families come in the
   * order in which their first series appear; and every convertible series is
   * in a family.
   */
  lemma {:induction false} StablePartition(metricType: string, emit: bool, help: string, ss: seq<TimeSeries>)
    returns (idx: seq<seq<nat>>)
    ensures FamiliesListed(metricType, emit, ss, FamiliesOf(metricType, emit, help, ss), idx)
    ensures FirstsIncrease(idx)
    ensures forall p: nat :: p < |ss| && Convertible(ss[p]) ==> Exported(idx, p)
  {
    var items, fams := Items(metricType, emit, ss), FamiliesOf(metricType, emit, help, ss);
    var pos := ItemsArePositions(metricType, emit, ss);
    idx := RowsExist(metricType, emit, help, ss, items, pos, SG.Keys(items));
    RowsIncrease(metricType, emit, help, ss, items, pos, idx);
    forall i | 0 <= i < |fams| ensures ListsFamily(metricType, emit, ss, fams[i], idx[i]) {
      assert RowOf(metricType, emit, help, ss, items, pos, SG.Keys(items)[i], idx[i]);
    }
    forall p: nat | p < |ss| && Convertible(ss[p]) ensures Exported(idx, p) {
      RowsCover(metricType, emit, help, ss, items, pos, idx, p);
    }
  }

  // ---------- Distinct family names ----------

  /** All convertible series agree in kind and value type. */
  ghost predicate OneKindAndType(ss: seq<TimeSeries>) {
    forall s, t :: s in ss && t in ss && Convertible(s) && Convertible(t) ==> SameKindAndType(s, t)
  }

  lemma AgreesWithFirst(metricType: string, emit: bool, ss: seq<TimeSeries>, f: Family, row: seq<nat>, p: nat)
    requires ListsFamily(metricType, emit, ss, f, row) && p in row
    ensures p < |ss| && SameKindAndType(ss[p], ss[row[0]])
  {
    var a :| 0 <= a < |row| && row[a] == p;
  }

  lemma InOnlyRow(idx: seq<seq<nat>>, p: nat)
    requires Exported(idx, p) && |idx| <= 1
    ensures |idx| == 1 && p in idx[0]
  {
  }

  lemma TwoFamilies(metricType: string, emit: bool, ss: seq<TimeSeries>, fams: seq<Family>, idx: seq<seq<nat>>)
    requires FamiliesListed(metricType, emit, ss, fams, idx) && FirstsIncrease(idx) && |fams| >= 2
    ensures !OneKindAndType(ss)
  {
    assert ListsFamily(metricType, emit, ss, fams[0], idx[0]);
    assert ListsFamily(metricType, emit, ss, fams[1], idx[1]);
    var s, t := ss[idx[0][0]], ss[idx[1][0]];
    NotInBoth(idx[0], idx[1]);
    assert IsMetric(metricType, emit, s, fams[0].metrics[0]) && IsMetric(metricType, emit, t, fams[1].metrics[0]);
    assert s in ss && t in ss && !SameKindAndType(s, t);
  }

  /**
   * All families of one answer share one name, so the text format's demand for
   * distinct names is met exactly when the convertible series share one kind
   * and value type.
   */
  lemma FamilyNamesDistinctIff(metricType: string, emit: bool, help: string, ss: seq<TimeSeries>)
    ensures NamesDistinct(FamiliesOf(metricType, emit, help, ss)) <==> OneKindAndType(ss)
  {
    var fams := FamiliesOf(metricType, emit, help, ss);
    var idx := StablePartition(metricType, emit, help, ss);
    if |fams| <= 1 {
      forall s, t | s in ss && t in ss && Convertible(s) && Convertible(t) ensures SameKindAndType(s, t) {
        var p :| 0 <= p < |ss| && ss[p] == s;
        var q :| 0 <= q < |ss| && ss[q] == t;
        assert Exported(idx, p) && Exported(idx, q);
        InOnlyRow(idx, p);
        InOnlyRow(idx, q);
        AgreesWithFirst(metricType, emit, ss, fams[0], idx[0], p);
        AgreesWithFirst(metricType, emit, ss, fams[0], idx[0], q);
      }
    } else {
      TwoFamilies(metricType, emit, ss, fams, idx);
      FamilyTypesSound(metricType, emit, help, ss, 0);
      FamilyTypesSound(metricType, emit, help, ss, 1);
    }
  }

  lemma NotInBoth(a: seq<nat>, b: seq<nat>)
    requires a != [] && b != [] && SG.Increasing(b) && a[0] < b[0]
    ensures a[0] !in b
  {
  }

  /** A gauge and a counter of one metric type make two families of one name. */
  lemma MixedAnswerRepeatsName(metricType: string, help: string)
    ensures var p := Point(Some(UNIX_EPOCH), Some(UNIX_EPOCH + SECOND), DoubleValue(1.0));
      var g, c := TimeSeries(map[], None, GAUGE, DOUBLE, [p]), TimeSeries(map[], None, CUMULATIVE, DOUBLE, [p]);
      !NamesDistinct(FamiliesOf(metricType, false, help, [g, c]))
  {
    var p := Point(Some(UNIX_EPOCH), Some(UNIX_EPOCH + SECOND), DoubleValue(1.0));
    var g, c := TimeSeries(map[], None, GAUGE, DOUBLE, [p]), TimeSeries(map[], None, CUMULATIVE, DOUBLE, [p]);
    assert g in [g, c] && c in [g, c] && !SameKindAndType(g, c);
    FamilyNamesDistinctIff(metricType, false, help, [g, c]);
  }
}
