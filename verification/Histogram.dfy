/**
 * Conversion of a google.api.Distribution into a Prometheus histogram.
 * Floating-point numbers are reals; the 64-bit counters wrap as they do in Go.
 */
module Histogram {
  import opened Basics

  /**
   * The bucket layout. Unset stands for a missing options message, a missing
   * layout inside it, and a layout kind the program does not know.
   */
  datatype BucketOptions =
    | Unset
    | Linear(num: int, width: real, offset: real)
    | Exponential(num: int, growth: real, scale: real)
    | Explicit(bounds: seq<real>)

  datatype Distribution = Distribution(
    count: int64, mean: real, options: BucketOptions, bucketCounts: seq<int64>)

  datatype Bound = Finite(value: real) | PosInf

  datatype Bucket = Bucket(upper: Bound, cumulative: uint64)

  datatype PromHistogram = PromHistogram(
    sampleCount: uint64, sampleSum: real, buckets: seq<Bucket>)

  // ---------- Bucket bounds ----------

  function Pow(b: real, n: nat): real {
    if n == 0 then 1.0 else Pow(b, n - 1) * b
  }

  /** A negative bucket number counts as zero. */
  function NumFinite(n: int): nat {
    Max(n, 0)
  }

  /** The finite `le` bounds, in closed form. */
  function Bounds(opt: BucketOptions): seq<real> {
    match opt
    case Unset => []
    case Linear(n, width, offset) => seq(NumFinite(n), i requires 0 <= i => offset + width * (i + 1) as real)
    case Exponential(n, growth, scale) => seq(NumFinite(n), i requires 0 <= i => scale * Pow(growth, i + 1))
    case Explicit(bounds) => bounds
  }

  method BucketBounds(opt: BucketOptions) returns (out: seq<real>)
    ensures out == Bounds(opt)
  {
    match opt {
      case Unset =>
        out := [];
      case Linear(num, width, offset) =>
        out := LinearBounds(num, width, offset);
      case Exponential(num, growth, scale) =>
        out := ExponentialBounds(num, growth, scale);
      case Explicit(bounds) =>
        out := bounds;
    }
  }

  method LinearBounds(num: int, width: real, offset: real) returns (out: seq<real>)
    ensures out == Bounds(Linear(num, width, offset))
  {
    var n := if num < 0 then 0 else num;
    var a := new real[n];
    for i := 0 to n
      invariant forall j :: 0 <= j < i ==> a[j] == offset + width * (j + 1) as real
    {
      a[i] := offset + width * (i + 1) as real;
    }
    out := a[..];
    ghost var want := Bounds(Linear(num, width, offset));
    assert |out| == |want| && forall j :: 0 <= j < |want| ==> out[j] == want[j];
  }

  /** Multiplies the running factor once per bucket instead of computing powers. */
  method ExponentialBounds(num: int, growth: real, scale: real) returns (out: seq<real>)
    ensures out == Bounds(Exponential(num, growth, scale))
  {
    var n := if num < 0 then 0 else num;
    var a := new real[n];
    var factor := 1.0;
    for i := 0 to n
      invariant factor == Pow(growth, i)
      invariant forall j :: 0 <= j < i ==> a[j] == scale * Pow(growth, j + 1)
    {
      factor := factor * growth;
      a[i] := scale * factor;
    }
    out := a[..];
    ghost var want := Bounds(Exponential(num, growth, scale));
    assert |out| == |want| && forall j :: 0 <= j < |want| ==> out[j] == want[j];
  }

  /** The bounds read off the layout: how many, the first, and each from the one before. */
  lemma BoundsSpelled(opt: BucketOptions, k: nat)
    ensures match opt
            case Unset => Bounds(opt) == []
            case Explicit(bounds) => Bounds(opt) == bounds
            case Linear(n, width, offset) =>
              && |Bounds(opt)| == (if n < 0 then 0 else n)
              && (k < n ==> Bounds(opt)[k] == (if k == 0 then offset else Bounds(opt)[k - 1]) + width)
            case Exponential(n, growth, scale) =>
              && |Bounds(opt)| == (if n < 0 then 0 else n)
              && (k < n ==> Bounds(opt)[k] == (if k == 0 then scale else Bounds(opt)[k - 1]) * growth)
  {
    if opt.Exponential? && k < opt.num {
      assert Pow(opt.growth, 1) == opt.growth;
      assert Bounds(opt)[k] == opt.scale * Pow(opt.growth, k + 1);
      assert k > 0 ==> Bounds(opt)[k - 1] == opt.scale * Pow(opt.growth, k);
    }
  }

  // ---------- Cumulative counts ----------

  /** The count of bucket i: a missing or negative entry counts as zero. */
  function CountAt(counts: seq<int64>, i: nat): nat {
    if i < |counts| then Max(counts[i], 0) else 0
  }

  /** The exact number of samples the first k buckets report. */
  function PrefixSum(counts: seq<int64>, k: nat): nat {
    if k == 0 then 0 else PrefixSum(counts, k - 1) + CountAt(counts, k - 1)
  }

  function Total(d: Distribution): nat {
    PrefixSum(d.bucketCounts, |d.bucketCounts|)
  }

  /** Go's uint64 addition keeps the sum modulo 2^64. */
  function Wrap(n: nat): uint64 {
    n % TWO_64
  }

  function SampleCount(d: Distribution): uint64 {
    Max(Wrap(Total(d)), d.count)
  }

  function FiniteBuckets(d: Distribution): seq<Bucket> {
    var bounds := Bounds(d.options);
    seq(|bounds|, k requires 0 <= k < |bounds| =>
      Bucket(Finite(bounds[k]), Wrap(PrefixSum(d.bucketCounts, k + 1))))
  }

  function HistogramOf(d: Distribution): PromHistogram {
    PromHistogram(
      SampleCount(d),
      d.mean * d.count as real,
      FiniteBuckets(d) + [Bucket(PosInf, SampleCount(d))])
  }

  lemma BucketAt(d: Distribution, k: nat)
    requires k < |Bounds(d.options)|
    ensures HistogramOf(d).buckets[k]
         == Bucket(Finite(Bounds(d.options)[k]), Wrap(PrefixSum(d.bucketCounts, k + 1)))
  {
  }

  lemma WrapExactIff(n: nat)
    ensures Wrap(n) == n <==> n < TWO_64
  {
  }

  lemma WrapAdd(n: nat, c: nat)
    ensures Wrap(Wrap(n) + c) == Wrap(n + c)
  {
    var q := n / TWO_64;
    assert n == q * TWO_64 + Wrap(n);
    var q' := (Wrap(n) + c) / TWO_64;
    assert n + c == (q + q') * TWO_64 + Wrap(Wrap(n) + c);
  }

  /** Adding one 63-bit count wraps the counter at most once. */
  lemma WrapOnce(n: nat, c: nat)
    requires n < TWO_64 <= n + c && c < TWO_63
    ensures Wrap(n + c) == n + c - TWO_64 < Wrap(n)
  {
  }

  lemma {:induction false} PrefixSumPastEnd(counts: seq<int64>, k: nat)
    requires |counts| <= k
    ensures PrefixSum(counts, k) == PrefixSum(counts, |counts|)
  {
    if |counts| < k {
      PrefixSumPastEnd(counts, k - 1);
    }
  }

  lemma {:induction false} PrefixSumMonotone(counts: seq<int64>, j: nat, k: nat)
    requires j <= k
    ensures PrefixSum(counts, j) <= PrefixSum(counts, k)
  {
    if j < k {
      PrefixSumMonotone(counts, j, k - 1);
    }
  }

  /** Every prefix is at most the sum of all the counts. */
  lemma PrefixSumAtMostTotal(d: Distribution, k: nat)
    ensures PrefixSum(d.bucketCounts, k) <= Total(d)
  {
    if k <= |d.bucketCounts| {
      PrefixSumMonotone(d.bucketCounts, k, |d.bucketCounts|);
    } else {
      PrefixSumPastEnd(d.bucketCounts, k);
    }
  }

  /** One more count, added as Go adds it. */
  lemma Accumulate(counts: seq<int64>, i: nat, cumulative: uint64, c: nat)
    requires cumulative == Wrap(PrefixSum(counts, i)) && c == CountAt(counts, i)
    ensures (cumulative + c) % TWO_64 == Wrap(PrefixSum(counts, i + 1))
  {
    WrapAdd(PrefixSum(counts, i), c);
  }

  method BuildHistogram(d: Distribution) returns (h: PromHistogram)
    ensures h == HistogramOf(d)
  {
    var bounds := BucketBounds(d.options);
    var counts := d.bucketCounts;
    var buckets: seq<Bucket> := [];
    var cumulative: uint64 := 0;
    var i := 0;
    while i < |bounds|
      invariant 0 <= i <= |bounds|
      invariant cumulative == Wrap(PrefixSum(counts, i))
      invariant |buckets| == i && forall j :: 0 <= j < i ==> buckets[j] == FiniteBuckets(d)[j]
    {
      var c: int64 := 0;
      if i < |counts| {
        c := counts[i];
      }
      if c < 0 {
        c := 0;
      }
      Accumulate(counts, i, cumulative, c);
      cumulative := (cumulative + c) % TWO_64;
      buckets := buckets + [Bucket(Finite(bounds[i]), cumulative)];
      i := i + 1;
    }
    while i < |counts|
      invariant |bounds| <= i
      invariant i <= |counts| || i == |bounds|
      invariant cumulative == Wrap(PrefixSum(counts, i))
    {
      var c := counts[i];
      if c < 0 {
        c := 0;
      }
      Accumulate(counts, i, cumulative, c);
      cumulative := (cumulative + c) % TWO_64;
      i := i + 1;
    }
    PrefixSumPastEnd(counts, i);
    assert buckets == FiniteBuckets(d);
    var totalCount := cumulative;
    if d.count > 0 && d.count > totalCount {
      totalCount := d.count;
    }
    buckets := buckets + [Bucket(PosInf, totalCount)];
    h := PromHistogram(totalCount, d.mean * d.count as real, buckets);
  }

  // ---------- Well-formedness ----------

  ghost predicate NonDecreasing(buckets: seq<Bucket>) {
    forall i, j :: 0 <= i < j < |buckets| ==> buckets[i].cumulative <= buckets[j].cumulative
  }

  /** The sum of the counts that are positive. */
  function SumOfPositive(counts: seq<int64>): nat {
    if counts == [] then 0
    else
      var last := counts[|counts| - 1];
      SumOfPositive(counts[..|counts| - 1]) + if last > 0 then last else 0
  }

  /** The first k counts, or all when there are fewer. */
  function FirstCounts(counts: seq<int64>, k: nat): seq<int64> {
    if k <= |counts| then counts[..k] else counts
  }

  lemma {:induction false} PrefixSumIsSum(counts: seq<int64>, k: nat)
    ensures PrefixSum(counts, k) == SumOfPositive(FirstCounts(counts, k))
  {
    if k > 0 {
      PrefixSumIsSum(counts, k - 1);
      if k <= |counts| {
        assert counts[..k][..k - 1] == counts[..k - 1];
      } else if k - 1 == |counts| {
        assert counts[..k - 1] == counts;
      }
    }
  }

  lemma TotalIsSum(d: Distribution)
    ensures Total(d) == SumOfPositive(d.bucketCounts)
  {
    PrefixSumIsSum(d.bucketCounts, |d.bucketCounts|);
    assert d.bucketCounts[..|d.bucketCounts|] == d.bucketCounts;
  }

  /**
   * Every finite bucket adds to the one before it its own count in the
   * message, if that is present and positive, modulo 2^64.
   */
  lemma BucketsStepByCounts(d: Distribution, k: nat)
    requires k < |Bounds(d.options)|
    ensures var bs, counts := HistogramOf(d).buckets, d.bucketCounts;
      bs[k].cumulative == ((if k == 0 then 0 else bs[k - 1].cumulative)
                           + if k < |counts| && counts[k] > 0 then counts[k] else 0) % TWO_64
  {
    var counts := d.bucketCounts;
    BucketAt(d, k);
    if k > 0 {
      BucketAt(d, k - 1);
      WrapAdd(PrefixSum(counts, k), CountAt(counts, k));
    } else {
      assert PrefixSum(counts, 1) == CountAt(counts, 0);
    }
  }

  /** All counts, those beyond the last bound too, end up in the total, unless the message's own count is larger. */
  lemma SampleCountSpelled(d: Distribution)
    ensures var h, sum := HistogramOf(d), SumOfPositive(d.bucketCounts) % TWO_64;
      && h.sampleCount == (if d.count > sum then d.count else sum)
      && h.buckets[|h.buckets| - 1] == Bucket(PosInf, h.sampleCount)
  {
    TotalIsSum(d);
  }

  /** No bucket has lost a sample to overflow, and the total is the larger of the two totals the message carries. */
  ghost predicate Exact(d: Distribution, h: PromHistogram) {
    && (forall k: nat :: k < |h.buckets| - 1 ==>
          h.buckets[k].cumulative == SumOfPositive(FirstCounts(d.bucketCounts, k + 1)))
    && h.sampleCount == Max(SumOfPositive(d.bucketCounts), d.count)
  }

  /** The histogram is exact if and only if the clamped counts sum below 2^64. */
  lemma ExactIffNoOverflow(d: Distribution)
    ensures Exact(d, HistogramOf(d)) <==> SumOfPositive(d.bucketCounts) < TWO_64
  {
    WrapExactIff(Total(d));
    TotalIsSum(d);
    if Total(d) < TWO_64 {
      forall k: nat | k < |Bounds(d.options)|
        ensures HistogramOf(d).buckets[k].cumulative == SumOfPositive(FirstCounts(d.bucketCounts, k + 1))
      {
        BucketAt(d, k);
        PrefixSumIsSum(d.bucketCounts, k + 1);
        PrefixSumAtMostTotal(d, k + 1);
        WrapExactIff(PrefixSum(d.bucketCounts, k + 1));
      }
    }
  }

  /** Without overflow the buckets form a Prometheus histogram: nondecreasing, closed by +Inf at the sample count. */
  lemma WellFormedWhenExact(d: Distribution)
    requires SumOfPositive(d.bucketCounts) < TWO_64
    ensures var h := HistogramOf(d);
      && |h.buckets| == |Bounds(d.options)| + 1
      && h.buckets[|h.buckets| - 1] == Bucket(PosInf, h.sampleCount)
      && NonDecreasing(h.buckets)
  {
    var h := HistogramOf(d);
    TotalIsSum(d);
    WrapExactIff(Total(d));
    forall i: nat, j: nat | i < j < |h.buckets|
      ensures h.buckets[i].cumulative <= h.buckets[j].cumulative
    {
      PrefixSumMonotone(d.bucketCounts, i + 1, j + 1);
      PrefixSumAtMostTotal(d, i + 1);
      PrefixSumAtMostTotal(d, j + 1);
      BucketAt(d, i);
      WrapExactIff(PrefixSum(d.bucketCounts, i + 1));
      if j < |Bounds(d.options)| {
        BucketAt(d, j);
        WrapExactIff(PrefixSum(d.bucketCounts, j + 1));
      }
    }
  }

  /** The first prefix that no longer fits in 64 bits. */
  lemma {:induction false} FirstOverflow(counts: seq<int64>, n: nat) returns (k: nat)
    requires PrefixSum(counts, n) >= TWO_64
    ensures k < n && PrefixSum(counts, k) < TWO_64 <= PrefixSum(counts, k + 1)
  {
    if PrefixSum(counts, n - 1) < TWO_64 {
      k := n - 1;
    } else {
      k := FirstOverflow(counts, n - 1);
    }
  }

  /**
   * The finite buckets are nondecreasing if and only if their counts sum below
   * 2^64: one 63-bit count can wrap the counter at most once, so the first
   * overflow is always visible as a decrease.
   */
  lemma FiniteBucketsOrderedIff(d: Distribution)
    ensures NonDecreasing(FiniteBuckets(d))
       <==> SumOfPositive(FirstCounts(d.bucketCounts, |Bounds(d.options)|)) < TWO_64
  {
    var bs, n, counts := FiniteBuckets(d), |Bounds(d.options)|, d.bucketCounts;
    PrefixSumIsSum(counts, n);
    if PrefixSum(counts, n) < TWO_64 {
      forall i, j | 0 <= i < j < n ensures bs[i].cumulative <= bs[j].cumulative {
        PrefixSumMonotone(counts, i + 1, j + 1);
        PrefixSumMonotone(counts, j + 1, n);
        WrapExactIff(PrefixSum(counts, i + 1));
        WrapExactIff(PrefixSum(counts, j + 1));
      }
    } else {
      var k := FirstOverflow(counts, n);
      assert PrefixSum(counts, 1) == CountAt(counts, 0);
      WrapOnce(PrefixSum(counts, k), CountAt(counts, k));
      assert bs[k].cumulative < bs[k - 1].cumulative;
    }
  }

  /**
   * The whole bucket list, +Inf included, is nondecreasing if and only if the
   * finite counts fit in 64 bits and do not exceed the sample count.
   */
  lemma BucketsOrderedIff(d: Distribution)
    ensures var h, p := HistogramOf(d), SumOfPositive(FirstCounts(d.bucketCounts, |Bounds(d.options)|));
      NonDecreasing(h.buckets) <==> p < TWO_64 && p <= h.sampleCount
  {
    var fs, n := FiniteBuckets(d), |Bounds(d.options)|;
    PrefixSumIsSum(d.bucketCounts, n);
    var last := Bucket(PosInf, SampleCount(d));
    FiniteBucketsOrderedIff(d);
    OrderedAppend(fs, last);
    if n > 0 {
      BucketAt(d, n - 1);
      WrapExactIff(PrefixSum(d.bucketCounts, n));
    }
  }

  lemma OrderedAppend(bs: seq<Bucket>, last: Bucket)
    ensures NonDecreasing(bs + [last])
       <==> NonDecreasing(bs) && (bs != [] ==> bs[|bs| - 1].cumulative <= last.cumulative)
  {
    var all := bs + [last];
    if NonDecreasing(all) {
      forall i, j | 0 <= i < j < |bs| ensures bs[i].cumulative <= bs[j].cumulative {
        assert all[i].cumulative <= all[j].cumulative;
      }
      if bs != [] {
        assert all[|bs| - 1].cumulative <= all[|bs|].cumulative;
      }
    }
  }

  // ---------- Order of the le bounds ----------

  /** The layouts google.api.Distribution allows. */
  ghost predicate ValidLayout(opt: BucketOptions) {
    match opt
    case Unset => true
    case Linear(n, width, _) => n > 0 && width > 0.0
    case Exponential(n, growth, scale) => n > 0 && growth > 1.0 && scale > 0.0
    case Explicit(bounds) => StrictlyIncreasing(bounds)
  }

  ghost predicate StrictlyIncreasing(s: seq<real>) {
    forall i, j :: 0 <= i < j < |s| ==> s[i] < s[j]
  }

  ghost predicate Below(a: Bound, b: Bound) {
    a.Finite? && (b.Finite? ==> a.value < b.value)
  }

  lemma {:induction false} PowPositive(b: real, n: nat)
    requires b > 0.0
    ensures Pow(b, n) > 0.0
  {
    if n > 0 {
      PowPositive(b, n - 1);
    }
  }

  lemma ScaleOrder(w: real, a: real, b: real)
    requires w > 0.0
    ensures w * a < w * b <==> a < b
  {
    assert w * b - w * a == w * (b - a);
  }

  lemma {:induction false} PowIncreasing(b: real, m: nat, n: nat)
    requires b > 1.0 && m < n
    ensures Pow(b, m) < Pow(b, n)
  {
    PowPositive(b, n - 1);
    var p := Pow(b, n - 1);
    assert Pow(b, n) == p * b;
    ScaleOrder(p, 1.0, b);
    if m < n - 1 {
      PowIncreasing(b, m, n - 1);
    }
  }

  lemma LinearBoundsIncreasing(n: int, width: real, offset: real, i: nat, j: nat)
    requires width > 0.0 && i < j < |Bounds(Linear(n, width, offset))|
    ensures Bounds(Linear(n, width, offset))[i] < Bounds(Linear(n, width, offset))[j]
  {
    ScaleOrder(width, (i + 1) as real, (j + 1) as real);
  }

  lemma ExponentialBoundsIncreasing(n: int, growth: real, scale: real, i: nat, j: nat)
    requires growth > 1.0 && scale > 0.0 && i < j < |Bounds(Exponential(n, growth, scale))|
    ensures Bounds(Exponential(n, growth, scale))[i] < Bounds(Exponential(n, growth, scale))[j]
  {
    PowIncreasing(growth, i + 1, j + 1);
    ScaleOrder(scale, Pow(growth, i + 1), Pow(growth, j + 1));
  }

  lemma BoundsIncreasing(opt: BucketOptions)
    requires ValidLayout(opt)
    ensures StrictlyIncreasing(Bounds(opt))
  {
    forall i: nat, j: nat | i < j < |Bounds(opt)| ensures Bounds(opt)[i] < Bounds(opt)[j] {
      match opt {
        case Linear(n, width, offset) =>
          LinearBoundsIncreasing(n, width, offset, i, j);
        case Exponential(n, growth, scale) =>
          ExponentialBoundsIncreasing(n, growth, scale, i, j);
        case _ =>
      }
    }
  }

  /** For every valid layout the le bounds, +Inf included, are strictly increasing. */
  lemma LeStrictlyIncreasing(d: Distribution)
    requires ValidLayout(d.options)
    ensures var bs := HistogramOf(d).buckets;
      forall i, j :: 0 <= i < j < |bs| ==> Below(bs[i].upper, bs[j].upper)
  {
    BoundsIncreasing(d.options);
  }

  // ---------- The sum ----------

  /** Without finite bounds, as for a negative number of buckets, all samples are in +Inf. */
  lemma OnlyInfIff(d: Distribution)
    ensures HistogramOf(d).buckets == [Bucket(PosInf, SampleCount(d))]
       <==> d.options.Unset? || (d.options.Linear? && d.options.num <= 0)
            || (d.options.Exponential? && d.options.num <= 0) || (d.options.Explicit? && d.options.bounds == [])
  {
    assert |HistogramOf(d).buckets| == |Bounds(d.options)| + 1;
  }

  /**
   * The sum is the mean times the message's own count, so it fits the exported
   * sample count exactly when the buckets do not outnumber that count, or the
   * mean is zero.
   */
  lemma SumFitsCountIff(d: Distribution)
    ensures HistogramOf(d).sampleSum == d.mean * HistogramOf(d).sampleCount as real
       <==> d.mean == 0.0 || SumOfPositive(d.bucketCounts) % TWO_64 <= d.count
  {
    TotalIsSum(d);
    var h := HistogramOf(d);
    assert d.mean * h.sampleCount as real - h.sampleSum == d.mean * (h.sampleCount - d.count) as real;
  }
}
