/**
 * What a run of scrapes with emit_timestamps exports over time.
 *
 * The upstream has one point per alignment bucket. A point becomes readable a
 * fixed ingest delay after its bucket ends, and is then returned by every
 * query whose window (start, end] contains the bucket's end, newest first.
 */
module ScrapeRuns {
  import opened Basics
  import opened Series
  import opened Windows

  /** The ends of the buckets a request asks for that are readable at time now. */
  ghost predicate Readable(req: Request, now: Time, delay: int, e: Time)
    requires req.alignmentPeriod > 0
  {
    && (req.endTime - e) % req.alignmentPeriod == 0
    && req.startTime < e <= req.endTime
    && e + delay <= now
  }

  /** The answer holds exactly the readable buckets of the request, newest first. */
  ghost predicate Answers(points: seq<Point>, req: Request, now: Time, delay: int)
    requires req.alignmentPeriod > 0
  {
    && (forall i :: 0 <= i < |points| ==> points[i].endTime.Some? && Readable(req, now, delay, points[i].endTime.value))
    && (forall i, j :: 0 <= i < j < |points| && points[i].endTime.Some? && points[j].endTime.Some? ==>
          points[j].endTime.value < points[i].endTime.value)
    && (forall e :: Readable(req, now, delay, e) ==>
          exists i :: 0 <= i < |points| && points[i].endTime == Some(e))
  }

  /** The end of the newest bucket that is readable at time now. */
  function NewestEnd(now: Time, delay: int, p: int): Time {
    Truncate(now - delay, p)
  }

  /** The ingest delay rounded up to whole periods. */
  function DelayInPeriods(delay: int, p: int): int
    requires p > 0
  {
    Truncate(delay + p - 1, p)
  }

  // ---------- How long the window has to be ----------

  lemma RoundedDelay(delay: int, p: int)
    requires p > 0
    ensures delay <= DelayInPeriods(delay, p) < delay + p
    ensures Truncate(-delay, p) == -DelayInPeriods(delay, p)
  {
    var c := (delay + p - 1) / p;
    AlignedEnd(delay + p - 1, p);
    assert -delay == -c * p + (c * p - delay);
    DivUnique(-delay, p, -c, c * p - delay);
  }

  /** The newest readable bucket lags the window's end by at most the rounded delay. */
  lemma NewestLag(now: Time, delay: int, p: int)
    requires p > 0
    ensures Truncate(now, p) - NewestEnd(now, delay, p) <= DelayInPeriods(delay, p)
  {
    var c := (delay + p - 1) / p;
    RoundedDelay(delay, p);
    TruncateMonotone(now - c * p, now - delay, p);
    ShiftByMultiple(now, c, p);
  }

  /**
   * The window of every clock contains the newest readable bucket exactly when
   * the interval exceeds the delay rounded up to whole periods.
   */
  lemma WindowAlwaysReachesNewestIff(interval: int, delay: int, p: int)
    requires p > 0
    ensures (forall now: Time :: Truncate(now, p) - interval < NewestEnd(now, delay, p))
       <==> DelayInPeriods(delay, p) < interval
  {
    RoundedDelay(delay, p);
    if DelayInPeriods(delay, p) < interval {
      forall now: Time ensures Truncate(now, p) - interval < NewestEnd(now, delay, p) {
        NewestLag(now, delay, p);
      }
    } else {
      MultipleMod(0, p);
      assert Truncate(0, p) - interval >= NewestEnd(0, delay, p);
    }
  }

  /** An interval of one delay and one period is enough. */
  lemma DelayPlusPeriodSuffices(interval: int, delay: int, p: int)
    requires p > 0 && delay + p <= interval
    ensures DelayInPeriods(delay, p) < interval
  {
    RoundedDelay(delay, p);
  }

  // ---------- One scrape ----------

  /** The window of a request made at time now with timestamps. */
  ghost predicate WindowAt(req: Request, now: Time, interval: int) {
    && req.alignmentPeriod > 0
    && req.endTime == Truncate(now, req.alignmentPeriod)
    && req.startTime == req.endTime - interval
  }

  lemma NewestIsReadable(req: Request, now: Time, delay: int, interval: int)
    requires WindowAt(req, now, interval) && 0 <= delay
    requires DelayInPeriods(delay, req.alignmentPeriod) < interval
    ensures Readable(req, now, delay, NewestEnd(now, delay, req.alignmentPeriod))
  {
    var p := req.alignmentPeriod;
    NewestLag(now, delay, p);
    TruncateMonotone(now - delay, now, p);
    AlignedEnd(now - delay, p);
    var a, b := now / p, (now - delay) / p;
    assert req.endTime - NewestEnd(now, delay, p) == (a - b) * p;
    MultipleMod(a - b, p);
  }

  /** The first point of an answer that holds the newest readable bucket is that bucket. */
  lemma FirstOfAnswer(req: Request, now: Time, delay: int, interval: int, points: seq<Point>)
    requires WindowAt(req, now, interval) && Answers(points, req, now, delay)
    requires Readable(req, now, delay, NewestEnd(now, delay, req.alignmentPeriod))
    ensures points != [] && points[0].endTime == Some(NewestEnd(now, delay, req.alignmentPeriod))
  {
    var e := NewestEnd(now, delay, req.alignmentPeriod);
    var i :| 0 <= i < |points| && points[i].endTime == Some(e);
    if i > 0 {
      var f := points[0].endTime.value;
      assert Readable(req, now, delay, f) && e < f;
      NoneNewer(now, delay, req.alignmentPeriod, req.endTime, f);
    }
  }

  /** When the window is long enough, the first point of the answer is the newest readable bucket. */
  lemma FirstPointIsNewest(params: QueryParams, now: Time, enums: Enums, delay: int, points: seq<Point>)
    requires params.emitTimestamps && delay >= 0 && BuildRequest(params, now, enums).Success?
    requires DelayInPeriods(delay, EffectiveAlignment(params)) < EffectiveInterval(params)
    requires Answers(points, BuildRequest(params, now, enums).value, now, delay)
    ensures points != [] && points[0].endTime == Some(NewestEnd(now, delay, EffectiveAlignment(params)))
  {
    var req := BuildRequest(params, now, enums).value;
    NewestIsReadable(req, now, delay, EffectiveInterval(params));
    FirstOfAnswer(req, now, delay, EffectiveInterval(params), points);
  }

  lemma NoneNewer(now: Time, delay: int, p: int, end: Time, f: Time)
    requires p > 0 && end == Truncate(now, p)
    requires (end - f) % p == 0 && f + delay <= now
    ensures f <= NewestEnd(now, delay, p)
  {
    var k := (end - f) / p;
    assert f == (now / p - k) * p;
    MultipleMod(now / p - k, p);
    TruncateMonotone(f, now - delay, p);
  }

  // ---------- Runs ----------

  datatype Scrape = Scrape(now: Time, series: TimeSeries)

  /** The request was valid and the upstream answered it with a series the exporter can convert. */
  ghost predicate IsScrape(s: Scrape, params: QueryParams, enums: Enums, delay: int) {
    && BuildRequest(params, s.now, enums).Success?
    && Answers(s.series.points, BuildRequest(params, s.now, enums).value, s.now, delay)
    && (s.series.points != [] ==> Convertible(s.series))
  }

  /** Consecutive scrapes whose clock never goes back and moves at most one period. */
  ghost predicate IsRun(run: seq<Scrape>, params: QueryParams, enums: Enums, delay: int) {
    && (forall i :: 0 <= i < |run| ==> IsScrape(run[i], params, enums, delay))
    && (forall i :: 0 < i < |run| ==> run[i - 1].now <= run[i].now <= run[i - 1].now + EffectiveAlignment(params))
  }

  /** The settings the documentation recommends, in their weakest form. */
  ghost predicate Recommended(params: QueryParams, delay: int) {
    && params.emitTimestamps
    && delay >= 0
    && DelayInPeriods(delay, EffectiveAlignment(params)) < EffectiveInterval(params)
  }

  /** The timestamp the exporter attaches to the sample of a scrape. */
  function ExportedTimestamp(params: QueryParams, s: Scrape): Option<int> {
    match ExportSeries(params.metricType, params.emitTimestamps, s.series)
    case None => None
    case Some(c) => c.metric.timestampMs
  }

  /** Every scrape exports the end of the newest readable bucket. */
  lemma ExportsNewestEnd(s: Scrape, params: QueryParams, enums: Enums, delay: int)
    requires IsScrape(s, params, enums, delay) && Recommended(params, delay)
    ensures ExportedTimestamp(params, s)
         == Some(UnixMillis(NewestEnd(s.now, delay, EffectiveAlignment(params))))
  {
    FirstPointIsNewest(params, s.now, enums, delay, s.series.points);
  }

  /** Truncation moves by nothing or one period when the clock moves by at most one. */
  lemma TruncateStep(t: Time, u: Time, p: int)
    requires p > 0 && t <= u <= t + p
    ensures Truncate(u, p) == Truncate(t, p) || Truncate(u, p) == Truncate(t, p) + p
  {
    TruncateMonotone(t, u, p);
    TruncateMonotone(u, t + p, p);
    ShiftByMultiple(t, -1, p);
    var a, b := t / p, u / p;
    DivMonotone(t, u, p);
    DivMonotone(u, t + p, p);
    assert b == a || b == a + 1;
  }

  /** The second timestamp repeats the first or is one step later. */
  ghost predicate SameOrNext(before: Option<int>, after: Option<int>, step: int) {
    before.Some? && after.Some? && (after == before || after.value == before.value + step)
  }

  lemma MillisStep(t: Time, u: Time, delay: int, p: int, step: int)
    requires p > 0 && p == step * MILLISECOND && t <= u <= t + p
    ensures SameOrNext(Some(UnixMillis(NewestEnd(t, delay, p))), Some(UnixMillis(NewestEnd(u, delay, p))), step)
  {
    TruncateStep(t - delay, u - delay, p);
    ShiftByMultiple(NewestEnd(t, delay, p) - UNIX_EPOCH, -step, MILLISECOND);
  }

  lemma {:induction false} TwoScrapes(s: Scrape, t: Scrape, params: QueryParams, enums: Enums, delay: int, step: int)
    requires IsScrape(s, params, enums, delay) && IsScrape(t, params, enums, delay) && Recommended(params, delay)
    requires s.now <= t.now <= s.now + EffectiveAlignment(params)
    requires EffectiveAlignment(params) == step * MILLISECOND
    ensures SameOrNext(ExportedTimestamp(params, s), ExportedTimestamp(params, t), step)
  {
    ExportsNewestEnd(s, params, enums, delay);
    ExportsNewestEnd(t, params, enums, delay);
    MillisStep(s.now, t.now, delay, EffectiveAlignment(params), step);
  }

  /**
   * Over any run whose period is a whole number of milliseconds, exported
   * timestamps never go back, and each scrape repeats the previous timestamp
   * or advances it by exactly one period.
   */
  lemma TimestampsAdvanceByPeriods(
    run: seq<Scrape>, params: QueryParams, enums: Enums, delay: int, step: int, i: nat)
    requires IsRun(run, params, enums, delay) && Recommended(params, delay)
    requires EffectiveAlignment(params) == step * MILLISECOND
    requires 0 < i < |run|
    ensures SameOrNext(ExportedTimestamp(params, run[i - 1]), ExportedTimestamp(params, run[i]), step)
  {
    TwoScrapes(run[i - 1], run[i], params, enums, delay, step);
  }

  /**
   * No bucket end is skipped from the newest one readable at the first scrape
   * to the newest one readable at scrape j.
   */
  lemma {:induction false} NoBucketSkipped(
    run: seq<Scrape>, params: QueryParams, enums: Enums, delay: int, j: nat, e: Time)
    requires IsRun(run, params, enums, delay) && Recommended(params, delay) && j < |run|
    requires e % EffectiveAlignment(params) == 0
    requires run[0].now < e + delay + EffectiveAlignment(params) && e + delay <= run[j].now
    ensures exists i :: 0 <= i <= j && ExportedTimestamp(params, run[i]) == Some(UnixMillis(e))
  {
    var p := EffectiveAlignment(params);
    if run[j].now < e + delay + p {
      ExportsNewestEnd(run[j], params, enums, delay);
      AlignedEndUnique(run[j].now - delay, p, e);
    } else {
      NoBucketSkipped(run, params, enums, delay, j - 1, e);
    }
  }

  // ---------- The documented settings ----------

  /** An explicit period, and an interval of at least the ingest delay plus one period. */
  ghost predicate Documented(params: QueryParams, delay: int) {
    && params.emitTimestamps
    && delay >= 0
    && params.alignmentPeriod > 0
    && params.interval >= delay + params.alignmentPeriod
  }

  /** Consecutive scrapes with these settings, at most one period apart. */
  ghost predicate DocumentedRun(run: seq<Scrape>, params: QueryParams, enums: Enums, delay: int) {
    && Documented(params, delay)
    && (forall i :: 0 <= i < |run| ==> IsScrape(run[i], params, enums, delay))
    && (forall i :: 0 < i < |run| ==> run[i - 1].now <= run[i].now <= run[i - 1].now + params.alignmentPeriod)
  }

  lemma DocumentedIsRecommended(params: QueryParams, delay: int)
    requires Documented(params, delay)
    ensures Recommended(params, delay) && EffectiveAlignment(params) == params.alignmentPeriod
  {
    DelayPlusPeriodSuffices(params.interval, delay, params.alignmentPeriod);
  }

  /** A scrape exports the end of the bucket that is readable but whose successor is not yet. */
  lemma DocumentedScrapeExports(s: Scrape, params: QueryParams, enums: Enums, delay: int, e: Time)
    requires Documented(params, delay) && IsScrape(s, params, enums, delay)
    requires e % params.alignmentPeriod == 0 && e + delay <= s.now < e + delay + params.alignmentPeriod
    ensures ExportedTimestamp(params, s) == Some(UnixMillis(e))
  {
    DocumentedIsRecommended(params, delay);
    ExportsNewestEnd(s, params, enums, delay);
    AlignedEndUnique(s.now - delay, params.alignmentPeriod, e);
  }

  /** From scrape to scrape the timestamp stays or advances by the alignment period that was asked for. */
  lemma DocumentedTimestamps(run: seq<Scrape>, params: QueryParams, enums: Enums, delay: int, step: int, i: nat)
    requires DocumentedRun(run, params, enums, delay) && 0 < i < |run|
    requires params.alignmentPeriod == step * MILLISECOND
    ensures var before, after := ExportedTimestamp(params, run[i - 1]), ExportedTimestamp(params, run[i]);
      before.Some? && after.Some? && (after.value == before.value || after.value == before.value + step)
  {
    DocumentedIsRecommended(params, delay);
    TimestampsAdvanceByPeriods(run, params, enums, delay, step, i);
  }

  /** Every bucket end from the newest one readable at the first scrape to the newest at scrape j is exported. */
  lemma DocumentedNoneSkipped(run: seq<Scrape>, params: QueryParams, enums: Enums, delay: int, j: nat, e: Time)
    requires DocumentedRun(run, params, enums, delay) && j < |run|
    requires e % params.alignmentPeriod == 0
    requires run[0].now < e + delay + params.alignmentPeriod && e + delay <= run[j].now
    ensures exists i :: 0 <= i <= j && ExportedTimestamp(params, run[i]) == Some(UnixMillis(e))
  {
    DocumentedIsRecommended(params, delay);
    NoBucketSkipped(run, params, enums, delay, j, e);
  }

  // ---------- The assumptions can be met ----------

  /** The grid points from e down to, but not including, start. */
  function BucketEnds(e: Time, start: Time, p: int): seq<Time>
    requires p > 0
    decreases e - start
  {
    if e <= start then [] else [e] + BucketEnds(e - p, start, p)
  }

  lemma {:induction false} BucketEndsMembers(e: Time, start: Time, p: int, x: Time)
    requires p > 0
    ensures x in BucketEnds(e, start, p) <==> start < x <= e && (e - x) % p == 0
    decreases e - start
  {
    if e > start {
      BucketEndsMembers(e - p, start, p, x);
      ShiftByMultiple(e - x, 1, p);
      MultipleMod(0, p);
      assert 0 < e - x < p ==> (e - x) % p == e - x;
    }
  }

  /** Strictly decreasing, starting at or below top. */
  ghost predicate DescendingFrom(top: Time, s: seq<Time>) {
    && (forall i :: 0 <= i < |s| ==> s[i] <= top)
    && (forall i, j :: 0 <= i < j < |s| ==> s[j] < s[i])
  }

  lemma DescendingCons(top: Time, below: Time, s: seq<Time>)
    requires below < top && DescendingFrom(below, s)
    ensures DescendingFrom(top, [top] + s)
  {
    var t := [top] + s;
    forall i, j | 0 <= i < j < |t| ensures t[j] < t[i] {
      assert t[j] == s[j - 1] <= below;
      assert i > 0 ==> t[i] == s[i - 1];
    }
  }

  lemma {:induction false} BucketEndsDescend(e: Time, start: Time, p: int)
    requires p > 0
    ensures DescendingFrom(e, BucketEnds(e, start, p))
    decreases e - start
  {
    if e > start {
      BucketEndsDescend(e - p, start, p);
      DescendingCons(e, e - p, BucketEnds(e - p, start, p));
    }
  }

  function PointsAt(ends: seq<Time>): seq<Point> {
    seq(|ends|, i requires 0 <= i < |ends| => Point(None, Some(ends[i]), DoubleValue(0.0)))
  }

  /** Seen from the newest readable bucket, the readable buckets are those on its grid inside the window. */
  lemma ReadableFromNewest(params: QueryParams, now: Time, enums: Enums, delay: int, e: Time)
    requires params.emitTimestamps && delay >= 0 && BuildRequest(params, now, enums).Success?
    ensures var p, req := EffectiveAlignment(params), BuildRequest(params, now, enums).value;
      Readable(req, now, delay, e)
      <==> req.startTime < e <= NewestEnd(now, delay, p) && (NewestEnd(now, delay, p) - e) % p == 0
  {
    var p, end := EffectiveAlignment(params), BuildRequest(params, now, enums).value.endTime;
    var newest := NewestEnd(now, delay, p);
    AlignedEnd(now - delay, p);
    TruncateMonotone(now - delay, now, p);
    var a, b := now / p, (now - delay) / p;
    assert end - e == (newest - e) - (b - a) * p;
    ShiftByMultiple(newest - e, b - a, p);
    if (end - e) % p == 0 && e + delay <= now {
      NoneNewer(now, delay, p, end, e);
    }
  }

  /** For every clock there is an answer of the assumed kind. */
  lemma AnswerExists(params: QueryParams, now: Time, enums: Enums, delay: int) returns (points: seq<Point>)
    requires params.emitTimestamps && delay >= 0 && BuildRequest(params, now, enums).Success?
    ensures Answers(points, BuildRequest(params, now, enums).value, now, delay)
  {
    var p, req := EffectiveAlignment(params), BuildRequest(params, now, enums).value;
    var ends := BucketEnds(NewestEnd(now, delay, p), req.startTime, p);
    points := PointsAt(ends);
    BucketEndsDescend(NewestEnd(now, delay, p), req.startTime, p);
    forall e ensures e in ends <==> Readable(req, now, delay, e) {
      BucketEndsMembers(NewestEnd(now, delay, p), req.startTime, p, e);
      ReadableFromNewest(params, now, enums, delay, e);
    }
    forall e | Readable(req, now, delay, e) ensures exists i :: 0 <= i < |points| && points[i].endTime == Some(e) {
      var i :| 0 <= i < |ends| && ends[i] == e;
      assert points[i].endTime == Some(e);
    }
  }

  /** Every schedule of scrapes at most one period apart has a run. */
  lemma {:induction false} EveryScheduleHasARun(clocks: seq<Time>, params: QueryParams, enums: Enums, delay: int)
    returns (run: seq<Scrape>)
    requires Recommended(params, delay)
    requires forall i :: 0 <= i < |clocks| ==> BuildRequest(params, clocks[i], enums).Success?
    requires forall i :: 0 < i < |clocks| ==>
      clocks[i - 1] <= clocks[i] <= clocks[i - 1] + EffectiveAlignment(params)
    ensures IsRun(run, params, enums, delay)
    ensures |run| == |clocks| && forall i :: 0 <= i < |run| ==> run[i].now == clocks[i]
  {
    run := [];
    if clocks != [] {
      var n := |clocks| - 1;
      var init := EveryScheduleHasARun(clocks[..n], params, enums, delay);
      var points := AnswerExists(params, clocks[n], enums, delay);
      var last := Scrape(clocks[n], TimeSeries(map[], None, GAUGE, DOUBLE, points));
      assert IsScrape(last, params, enums, delay);
      run := init + [last];
    }
  }

  // ---------- Too short a window, too long a gap ----------

  /** The parameters make a request; whether they do never depends on the clock. */
  ghost predicate Accepted(params: QueryParams, enums: Enums) {
    BuildRequest(params, 0, enums).Success?
  }

  /** For every clock there is a scrape of the assumed kind. */
  lemma ScrapeExists(params: QueryParams, now: Time, enums: Enums, delay: int) returns (s: Scrape)
    requires params.emitTimestamps && delay >= 0 && Accepted(params, enums)
    ensures IsScrape(s, params, enums, delay) && s.now == now
  {
    var points := AnswerExists(params, now, enums, delay);
    s := Scrape(now, TimeSeries(map[], None, GAUGE, DOUBLE, points));
  }

  /** When the window is too short for the delay, a scrape at clock zero finds nothing to export. */
  lemma ShortWindowIsEmpty(s: Scrape, params: QueryParams, enums: Enums, delay: int)
    requires params.emitTimestamps && delay >= 0 && IsScrape(s, params, enums, delay) && s.now == 0
    requires EffectiveInterval(params) <= DelayInPeriods(delay, EffectiveAlignment(params))
    ensures s.series.points == [] && ExportedTimestamp(params, s).None?
  {
    var p, points := EffectiveAlignment(params), s.series.points;
    RoundedDelay(delay, p);
    MultipleMod(0, p);
    if points != [] {
      ReadableFromNewest(params, 0, enums, delay, points[0].endTime.value);
      assert false;
    }
  }

  /**
   * Every scrape of a series exports a sample, whatever the clock, exactly when
   * the interval exceeds the delay rounded up to whole periods.
   */
  lemma EveryScrapeExportsIff(params: QueryParams, enums: Enums, delay: int)
    requires params.emitTimestamps && delay >= 0 && Accepted(params, enums)
    ensures (forall s: Scrape :: IsScrape(s, params, enums, delay) ==> ExportedTimestamp(params, s).Some?)
       <==> DelayInPeriods(delay, EffectiveAlignment(params)) < EffectiveInterval(params)
  {
    if DelayInPeriods(delay, EffectiveAlignment(params)) < EffectiveInterval(params) {
      forall s: Scrape | IsScrape(s, params, enums, delay) ensures ExportedTimestamp(params, s).Some? {
        ExportsNewestEnd(s, params, enums, delay);
      }
    } else {
      var s := ScrapeExists(params, 0, enums, delay);
      ShortWindowIsEmpty(s, params, enums, delay);
    }
  }

  lemma MillisMonotone(a: Time, b: Time)
    ensures a <= b ==> UnixMillis(a) <= UnixMillis(b)
    ensures a + MILLISECOND <= b ==> UnixMillis(a) < UnixMillis(b)
  {
  }

  /** The scrape is not strictly between the two. */
  ghost predicate NotBetween(u: Scrape, s: Scrape, t: Scrape) {
    u.now <= s.now || t.now <= u.now
  }

  /**
   * A gap longer than a period can pass over a bucket: between some two
   * scrapes that far apart lies a bucket end that no earlier and no later
   * scrape exports either.
   */
  lemma LongGapSkipsBucket(params: QueryParams, enums: Enums, delay: int, g: int, step: int)
    returns (s: Scrape, t: Scrape, e: Time)
    requires Recommended(params, delay) && Accepted(params, enums)
    requires EffectiveAlignment(params) == step * MILLISECOND && g > EffectiveAlignment(params)
    ensures IsScrape(s, params, enums, delay) && IsScrape(t, params, enums, delay) && t.now == s.now + g
    ensures e % EffectiveAlignment(params) == 0
    ensures NewestEnd(s.now, delay, EffectiveAlignment(params)) < e < NewestEnd(t.now, delay, EffectiveAlignment(params))
    ensures ExportedTimestamp(params, t).Some? && ExportedTimestamp(params, s).Some?
    ensures ExportedTimestamp(params, t).value > ExportedTimestamp(params, s).value + step
    ensures forall u: Scrape :: IsScrape(u, params, enums, delay) && NotBetween(u, s, t) ==>
      ExportedTimestamp(params, u) != Some(UnixMillis(e))
  {
    s := ScrapeExists(params, delay - 1, enums, delay);
    t := ScrapeExists(params, delay - 1 + g, enums, delay);
    e := 0;
    MultipleMod(0, EffectiveAlignment(params));
    EndsAroundZero(delay, EffectiveAlignment(params), g);
    WholePeriod(params, step);
    SkipsMoreThanOne(s, t, params, enums, delay, step);
    OthersMissZero(s, t, params, enums, delay);
  }

  lemma WholePeriod(params: QueryParams, step: int)
    requires EffectiveAlignment(params) == step * MILLISECOND
    ensures EffectiveAlignment(params) >= MILLISECOND
  {
  }

  lemma OthersMissZero(s: Scrape, t: Scrape, params: QueryParams, enums: Enums, delay: int)
    requires Recommended(params, delay)
    requires NewestEnd(s.now, delay, EffectiveAlignment(params)) <= -MILLISECOND
    requires MILLISECOND <= NewestEnd(t.now, delay, EffectiveAlignment(params))
    ensures forall u: Scrape :: IsScrape(u, params, enums, delay) && NotBetween(u, s, t) ==>
      ExportedTimestamp(params, u) != Some(UnixMillis(0))
  {
    forall u: Scrape | IsScrape(u, params, enums, delay) && NotBetween(u, s, t)
      ensures ExportedTimestamp(params, u) != Some(UnixMillis(0))
    {
      NotExported(u, params, enums, delay, s.now, t.now);
    }
  }

  lemma SkipsMoreThanOne(s: Scrape, t: Scrape, params: QueryParams, enums: Enums, delay: int, step: int)
    requires IsScrape(s, params, enums, delay) && IsScrape(t, params, enums, delay) && Recommended(params, delay)
    requires EffectiveAlignment(params) == step * MILLISECOND
    requires NewestEnd(s.now, delay, EffectiveAlignment(params)) == -EffectiveAlignment(params)
    requires EffectiveAlignment(params) <= NewestEnd(t.now, delay, EffectiveAlignment(params))
    ensures ExportedTimestamp(params, t).Some? && ExportedTimestamp(params, s).Some?
    ensures ExportedTimestamp(params, t).value > ExportedTimestamp(params, s).value + step
  {
    ExportsNewestEnd(s, params, enums, delay);
    ExportsNewestEnd(t, params, enums, delay);
    AroundZeroMillis(EffectiveAlignment(params), step, NewestEnd(t.now, delay, EffectiveAlignment(params)));
  }

  lemma EndsAroundZero(delay: int, p: int, g: int)
    requires 0 < p < g
    ensures NewestEnd(delay - 1, delay, p) == -p && p <= NewestEnd(delay - 1 + g, delay, p)
  {
    DivUnique(-1, p, -1, p - 1);
    MultipleMod(1, p);
    TruncateMonotone(p, g - 1, p);
  }

  lemma AroundZeroMillis(p: int, step: int, end: Time)
    requires p > 0 && p == step * MILLISECOND && p <= end
    ensures UnixMillis(-p) + step == UnixMillis(0) && UnixMillis(0) + step <= UnixMillis(end) && step > 0
  {
    ShiftByMultiple(-UNIX_EPOCH, step, MILLISECOND);
    ShiftByMultiple(-UNIX_EPOCH, -step, MILLISECOND);
    MillisMonotone(p, end);
  }

  /** Scrapes no later than one that ends a period before zero, or no earlier than one that ends after it, miss zero. */
  lemma NotExported(u: Scrape, params: QueryParams, enums: Enums, delay: int, before: Time, after: Time)
    requires IsScrape(u, params, enums, delay) && Recommended(params, delay)
    requires u.now <= before || after <= u.now
    requires NewestEnd(before, delay, EffectiveAlignment(params)) <= -MILLISECOND
    requires MILLISECOND <= NewestEnd(after, delay, EffectiveAlignment(params))
    ensures ExportedTimestamp(params, u) != Some(UnixMillis(0))
  {
    var p := EffectiveAlignment(params);
    var end := NewestEnd(u.now, delay, p);
    ExportsNewestEnd(u, params, enums, delay);
    if u.now <= before {
      TruncateMonotone(u.now - delay, before - delay, p);
      MillisMonotone(end, 0);
    } else {
      TruncateMonotone(after - delay, u.now - delay, p);
      MillisMonotone(0, end);
    }
  }

  /**
   * Scrapes a fixed gap apart always export the same or the next bucket,
   * whatever the clock, exactly when the gap is at most one period.
   */
  lemma GapOfOnePeriodIff(params: QueryParams, enums: Enums, delay: int, g: int, step: int)
    requires Recommended(params, delay) && Accepted(params, enums) && g >= 0
    requires EffectiveAlignment(params) == step * MILLISECOND
    ensures (forall s: Scrape, t: Scrape ::
               IsScrape(s, params, enums, delay) && IsScrape(t, params, enums, delay) && t.now == s.now + g ==>
                 SameOrNext(ExportedTimestamp(params, s), ExportedTimestamp(params, t), step))
       <==> g <= EffectiveAlignment(params)
  {
    if g <= EffectiveAlignment(params) {
      forall s: Scrape, t: Scrape |
        IsScrape(s, params, enums, delay) && IsScrape(t, params, enums, delay) && t.now == s.now + g
        ensures SameOrNext(ExportedTimestamp(params, s), ExportedTimestamp(params, t), step)
      {
        TwoScrapes(s, t, params, enums, delay, step);
      }
    } else {
      var s, t, e := LongGapSkipsBucket(params, enums, delay, g, step);
    }
  }
}
