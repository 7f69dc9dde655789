/**
 * The query window of a scrape and the grid its buckets lie on.
 */
module Windows {
  import opened Basics
  import opened Series

  const DEFAULT_INTERVAL: int := 5 * 60 * SECOND

  /** The parameters that shape the request; the filter expression is passed through and not modelled. */
  datatype QueryParams = QueryParams(
    projectId: string, metricType: string, aligner: string, reducer: string, groupByFields: seq<string>,
    interval: int, alignmentPeriod: int, emitTimestamps: bool)

  datatype Request = Request(
    name: string, startTime: Time, endTime: Time,
    alignmentPeriod: int, aligner: int, reducer: int, groupByFields: seq<string>)

  datatype BuildError = MissingProject | MissingMetricType | InvalidAligner | InvalidReducer

  /** The enum names the API knows, with their numbers. */
  datatype Enums = Enums(aligners: map<string, int>, reducers: map<string, int>)

  function EffectiveInterval(params: QueryParams): int {
    if params.interval <= 0 then DEFAULT_INTERVAL else params.interval
  }

  function EffectiveAlignment(params: QueryParams): int {
    if params.alignmentPeriod <= 0 then EffectiveInterval(params) else params.alignmentPeriod
  }

  function OrDefault(s: string, default: string): string {
    if s == "" then default else s
  }

  /** Rounds down to a multiple of d since the zero time. */
  function Truncate(t: Time, d: int): Time {
    if d <= 0 then t else t - t % d
  }

  function BuildRequest(params: QueryParams, now: Time, enums: Enums): (r: Result<Request, BuildError>)
    ensures r == Failure(MissingProject) <==> params.projectId == ""
    ensures r == Failure(MissingMetricType) <==> params.projectId != "" && params.metricType == ""
    ensures r == Failure(InvalidAligner) <==>
            && params.projectId != "" && params.metricType != ""
            && (if params.aligner == "" then "ALIGN_MEAN" else params.aligner) !in enums.aligners
    ensures r == Failure(InvalidReducer) <==>
            && params.projectId != "" && params.metricType != ""
            && (if params.aligner == "" then "ALIGN_MEAN" else params.aligner) in enums.aligners
            && (if params.reducer == "" then "REDUCE_NONE" else params.reducer) !in enums.reducers
    ensures r.Success? ==> r.value.name == "projects/" + params.projectId
    ensures r.Success? && params.alignmentPeriod > 0 ==> r.value.alignmentPeriod == params.alignmentPeriod
    ensures r.Success? && params.alignmentPeriod <= 0 ==> r.value.alignmentPeriod == r.value.endTime - r.value.startTime
    ensures r.Success? && params.interval > 0 ==> r.value.endTime - r.value.startTime == params.interval
    ensures r.Success? && params.interval <= 0 ==> r.value.endTime - r.value.startTime == 300_000_000_000
    ensures r.Success? && !params.emitTimestamps ==> r.value.endTime == now
    ensures r.Success? && params.emitTimestamps ==>
            && 0 < r.value.alignmentPeriod
            && now - r.value.alignmentPeriod < r.value.endTime <= now
    ensures r.Success? ==>
            r.value.aligner == enums.aligners[if params.aligner == "" then "ALIGN_MEAN" else params.aligner]
    ensures r.Success? ==>
            r.value.reducer == enums.reducers[if params.reducer == "" then "REDUCE_NONE" else params.reducer]
    ensures r.Success? ==>
            r.value.groupByFields == if params.reducer in ["", "REDUCE_NONE"] then [] else params.groupByFields
  {
    if params.projectId == "" then Failure(MissingProject)
    else if params.metricType == "" then Failure(MissingMetricType)
    else
      var interval := EffectiveInterval(params);
      var alignment := EffectiveAlignment(params);
      var aligner := OrDefault(params.aligner, "ALIGN_MEAN");
      if aligner !in enums.aligners then Failure(InvalidAligner)
      else
        var reducer := OrDefault(params.reducer, "REDUCE_NONE");
        if reducer !in enums.reducers then Failure(InvalidReducer)
        else
          var end := if params.emitTimestamps then Truncate(now, alignment) else now;
          Success(Request(
            "projects/" + params.projectId, end - interval, end,
            alignment, enums.aligners[aligner], enums.reducers[reducer],
            if reducer != "REDUCE_NONE" then params.groupByFields else []))
  }

  // ---------- Division ----------

  lemma {:induction false} MulAtLeast(d: nat, p: nat)
    ensures d > 0 ==> d * p >= p
  {
    if d > 1 {
      MulAtLeast(d - 1, p);
      assert d * p == (d - 1) * p + p;
    }
  }

  lemma DivUnique(t: int, p: int, q: int, r: int)
    requires p > 0 && 0 <= r < p && t == q * p + r
    ensures t / p == q && t % p == r
  {
    var d := t / p - q;
    assert d * p == r - t % p;
    MulAtLeast(if d < 0 then -d else d, p);
    assert d < 0 ==> (-d) * p == -(d * p);
  }

  lemma DivMonotone(a: int, b: int, p: int)
    requires p > 0 && a <= b
    ensures a / p <= b / p
  {
    if b / p < a / p {
      MulStep(b / p, a / p, p);
    }
  }

  /** Going up by at least one multiplies up by at least p. */
  lemma MulStep(a: int, b: int, p: int)
    requires p > 0 && a < b
    ensures a * p + p <= b * p
  {
    MulAtLeast(b - a, p);
    assert (b - a) * p == b * p - a * p;
  }

  lemma TruncateIsMultiple(t: Time, p: int)
    requires p > 0
    ensures Truncate(t, p) == t / p * p
  {
  }

  lemma MultipleMod(k: int, p: int)
    requires p > 0
    ensures (k * p) % p == 0 && (k * p) / p == k
  {
    DivUnique(k * p, p, k, 0);
  }

  // ---------- The grid ----------

  /** An aligned end lies on the grid, is not in the future, and is less than one period old. */
  lemma AlignedEnd(now: Time, p: int)
    requires p > 0
    ensures Truncate(now, p) % p == 0
    ensures Truncate(now, p) <= now < Truncate(now, p) + p
  {
    MultipleMod(now / p, p);
  }

  /** It is the only instant with these properties. */
  lemma AlignedEndUnique(now: Time, p: int, e: Time)
    requires p > 0 && e % p == 0 && e <= now < e + p
    ensures e == Truncate(now, p)
  {
    DivUnique(now, p, e / p, now - e);
  }

  lemma TruncateMonotone(a: Time, b: Time, p: int)
    requires p > 0 && a <= b
    ensures Truncate(a, p) <= Truncate(b, p)
  {
    DivMonotone(a, b, p);
    if a / p < b / p {
      MulStep(a / p, b / p, p);
    }
  }

  /** Two clocks truncate to the same end exactly when they are in the same period. */
  lemma SameEndIff(a: Time, b: Time, p: int)
    requires p > 0
    ensures Truncate(a, p) == Truncate(b, p) <==> a / p == b / p
  {
    MultipleMod(a / p, p);
    MultipleMod(b / p, p);
    TruncateIsMultiple(a, p);
    TruncateIsMultiple(b, p);
  }

  /** Buckets counted back from an aligned end lie on the grid. */
  lemma BucketsOnGrid(t: Time, p: int, j: int)
    requires p > 0
    ensures (Truncate(t, p) - j * p) % p == 0
  {
    TruncateIsMultiple(t, p);
    assert t / p * p - j * p == (t / p - j) * p;
    MultipleMod(t / p - j, p);
  }

  /**
   * Two aligned scrapes with the same parameters send the same request exactly
   * when their clocks are in the same period; a later clock never asks for an
   * earlier window; and buckets counted back from either end share one grid.
   */
  lemma AlignedRequests(params: QueryParams, a: Time, b: Time, enums: Enums, j: int, k: int)
    requires params.emitTimestamps && a <= b
    requires BuildRequest(params, a, enums).Success?
    ensures var ra, rb := BuildRequest(params, a, enums).value, BuildRequest(params, b, enums).value;
      var p := ra.alignmentPeriod;
      && p == rb.alignmentPeriod > 0 && ra.endTime % p == rb.endTime % p == 0
      && (ra == rb <==> a / p == b / p)
      && ra.endTime <= rb.endTime && ra.startTime <= rb.startTime
      && ra.endTime - ra.startTime == rb.endTime - rb.startTime
      && (ra.endTime - j * p) % p == (rb.endTime - k * p) % p == 0
  {
    var p := EffectiveAlignment(params);
    AlignedEnd(a, p);
    AlignedEnd(b, p);
    SameEndIff(a, b, p);
    TruncateMonotone(a, b, p);
    BucketsOnGrid(a, p, j);
    BucketsOnGrid(b, p, k);
  }

  /** The grid is the grid of Unix time exactly when the period divides the span from the zero time to the epoch. */
  lemma EpochGridIff(p: int)
    requires p > 0
    ensures (forall t: Time :: t % p == 0 <==> (t - UNIX_EPOCH) % p == 0) <==> UNIX_EPOCH % p == 0
  {
    if UNIX_EPOCH % p == 0 {
      forall t: Time ensures t % p == 0 <==> (t - UNIX_EPOCH) % p == 0 {
        ShiftByMultiple(t, UNIX_EPOCH / p, p);
      }
    } else {
      MultipleMod(0, p);
      assert (UNIX_EPOCH - UNIX_EPOCH) % p == 0;
    }
  }

  lemma ShiftByMultiple(t: int, k: int, p: int)
    requires p > 0
    ensures (t - k * p) % p == t % p && (t - k * p) / p == t / p - k
  {
    assert t - k * p == (t / p - k) * p + t % p;
    DivUnique(t - k * p, p, t / p - k, t % p);
  }

  /** So for every divisor of a day the grid is that of Unix time. */
  lemma DivisorsOfADay(p: int)
    requires p > 0 && (86_400 * SECOND) % p == 0
    ensures forall t: Time :: t % p == 0 <==> (t - UNIX_EPOCH) % p == 0
  {
    var q := 86_400 * SECOND / p;
    assert UNIX_EPOCH == (719_162 * q) * p;
    MultipleMod(719_162 * q, p);
    EpochGridIff(p);
  }
}
