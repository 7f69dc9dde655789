/**
 * What the exported histogram says about the samples behind a distribution.
 *
 * The reference is google.api.Distribution: a layout fixes a sequence of
 * boundaries, and bucket i holds the samples at or above boundary i - 1 and
 * below boundary i. For linear and exponential layouts the exported bounds are
 * this sequence without its first element, so every count is reported one
 * bucket late.
 */
module HistogramMeaning {
  import opened Histogram

  // ---------- google.api.Distribution ----------

  /** The boundaries between buckets: N finite buckets lie between N + 1 boundaries. */
  function Boundaries(opt: BucketOptions): seq<real> {
    match opt
    case Unset => []
    case Linear(n, width, offset) => seq(NumFinite(n) + 1, i requires 0 <= i => offset + width * i as real)
    case Exponential(n, growth, scale) => seq(NumFinite(n) + 1, i requires 0 <= i => scale * Pow(growth, i))
    case Explicit(bounds) => bounds
  }

  predicate InBucket(bs: seq<real>, i: nat, x: real)
    requires i <= |bs|
  {
    (i == 0 || bs[i - 1] <= x) && (i == |bs| || x < bs[i])
  }

  function NumInBucket(samples: seq<real>, bs: seq<real>, i: nat): nat
    requires i <= |bs|
  {
    if samples == [] then 0
    else NumInBucket(samples[1..], bs, i) + (if InBucket(bs, i, samples[0]) then 1 else 0)
  }

  /** The samples strictly below b, as buckets count them. */
  function NumBelow(samples: seq<real>, b: real): nat {
    if samples == [] then 0
    else NumBelow(samples[1..], b) + (if samples[0] < b then 1 else 0)
  }

  /** The samples less than or equal to b, as the Prometheus `le` label promises. */
  function NumAtMost(samples: seq<real>, b: real): nat {
    if samples == [] then 0
    else NumAtMost(samples[1..], b) + (if samples[0] <= b then 1 else 0)
  }

  /** The message d describes these samples: trailing empty buckets may be left out. */
  ghost predicate Describes(d: Distribution, samples: seq<real>) {
    var bs := Boundaries(d.options);
    && ValidLayout(d.options)
    && d.count == |samples|
    && |d.bucketCounts| <= |bs| + 1
    && (forall i :: 0 <= i < |d.bucketCounts| ==> d.bucketCounts[i] == NumInBucket(samples, bs, i))
    && (forall i :: |d.bucketCounts| <= i <= |bs| ==> NumInBucket(samples, bs, i) == 0)
  }

  /** The boundaries read off the layout: the first, and each from the one before. */
  lemma BoundariesSpelled(opt: BucketOptions, k: nat)
    ensures match opt
            case Unset => Boundaries(opt) == []
            case Explicit(bounds) => Boundaries(opt) == bounds
            case Linear(n, width, offset) =>
              n >= 0 ==> |Boundaries(opt)| == n + 1
                         && (k <= n ==> Boundaries(opt)[k] == if k == 0 then offset else Boundaries(opt)[k - 1] + width)
            case Exponential(n, growth, scale) =>
              n >= 0 ==> |Boundaries(opt)| == n + 1
                         && (k <= n ==> Boundaries(opt)[k] == if k == 0 then scale else Boundaries(opt)[k - 1] * growth)
  {
    match opt {
      case Linear(n, width, offset) =>
        if 0 < k <= n {
          assert width * k as real == width * (k - 1) as real + width;
        }
      case Exponential(n, growth, scale) =>
        if 0 < k <= n {
          assert Boundaries(opt)[k] == scale * Pow(growth, k);
          assert Boundaries(opt)[k - 1] == scale * Pow(growth, k - 1);
        }
      case _ =>
    }
  }

  /** Counted over the message, a missing bucket is an empty one. */
  lemma CountsInBuckets(d: Distribution, samples: seq<real>, i: nat)
    requires Describes(d, samples) && i <= |Boundaries(d.options)|
    ensures CountAt(d.bucketCounts, i) == NumInBucket(samples, Boundaries(d.options), i)
  {
  }

  // ---------- Lemmas on counting ----------

  lemma LinearIncreasing(n: int, width: real, offset: real, i: nat, j: nat)
    requires width > 0.0 && i < j < |Boundaries(Linear(n, width, offset))|
    ensures Boundaries(Linear(n, width, offset))[i] < Boundaries(Linear(n, width, offset))[j]
  {
    ScaleOrder(width, i as real, j as real);
  }

  lemma ExponentialIncreasing(n: int, growth: real, scale: real, i: nat, j: nat)
    requires growth > 1.0 && scale > 0.0 && i < j < |Boundaries(Exponential(n, growth, scale))|
    ensures Boundaries(Exponential(n, growth, scale))[i] < Boundaries(Exponential(n, growth, scale))[j]
  {
    PowIncreasing(growth, i, j);
    ScaleOrder(scale, Pow(growth, i), Pow(growth, j));
  }

  lemma BoundariesIncreasing(opt: BucketOptions)
    requires ValidLayout(opt)
    ensures StrictlyIncreasing(Boundaries(opt))
  {
    forall i: nat, j: nat | i < j < |Boundaries(opt)| ensures Boundaries(opt)[i] < Boundaries(opt)[j] {
      match opt {
        case Linear(n, width, offset) =>
          LinearIncreasing(n, width, offset, i, j);
        case Exponential(n, growth, scale) =>
          ExponentialIncreasing(n, growth, scale, i, j);
        case _ =>
      }
    }
  }

  lemma {:induction false} FirstBucket(samples: seq<real>, bs: seq<real>)
    requires |bs| > 0
    ensures NumInBucket(samples, bs, 0) == NumBelow(samples, bs[0])
  {
    if samples != [] {
      FirstBucket(samples[1..], bs);
    }
  }

  lemma {:induction false} NextBucket(samples: seq<real>, bs: seq<real>, k: nat)
    requires 0 < k < |bs| && StrictlyIncreasing(bs)
    ensures NumBelow(samples, bs[k]) == NumBelow(samples, bs[k - 1]) + NumInBucket(samples, bs, k)
  {
    if samples != [] {
      NextBucket(samples[1..], bs, k);
    }
  }

  lemma {:induction false} LastBucket(samples: seq<real>, bs: seq<real>)
    requires |bs| > 0
    ensures |samples| == NumBelow(samples, bs[|bs| - 1]) + NumInBucket(samples, bs, |bs|)
  {
    if samples != [] {
      LastBucket(samples[1..], bs);
    }
  }

  lemma {:induction false} OnlyBucket(samples: seq<real>)
    ensures NumInBucket(samples, [], 0) == |samples|
  {
    if samples != [] {
      OnlyBucket(samples[1..]);
    }
  }

  /** Summing the first k + 1 buckets counts the samples below boundary k. */
  lemma {:induction false} PrefixCountsBelow(d: Distribution, samples: seq<real>, k: nat)
    requires Describes(d, samples) && k < |Boundaries(d.options)|
    ensures PrefixSum(d.bucketCounts, k + 1) == NumBelow(samples, Boundaries(d.options)[k])
  {
    var bs := Boundaries(d.options);
    BoundariesIncreasing(d.options);
    CountsInBuckets(d, samples, k);
    if k == 0 {
      FirstBucket(samples, bs);
      assert PrefixSum(d.bucketCounts, 1) == CountAt(d.bucketCounts, 0);
    } else {
      PrefixCountsBelow(d, samples, k - 1);
      NextBucket(samples, bs, k);
    }
  }

  /** Every sample falls into exactly one bucket. */
  lemma TotalCountsAll(d: Distribution, samples: seq<real>)
    requires Describes(d, samples)
    ensures Total(d) == |samples|
  {
    var bs := Boundaries(d.options);
    PrefixSumPastEnd(d.bucketCounts, |bs| + 1);
    CountsInBuckets(d, samples, |bs|);
    if |bs| == 0 {
      OnlyBucket(samples);
      assert PrefixSum(d.bucketCounts, 1) == CountAt(d.bucketCounts, 0);
    } else {
      LastBucket(samples, bs);
      PrefixCountsBelow(d, samples, |bs| - 1);
    }
  }

  lemma {:induction false} BelowVersusAtMost(samples: seq<real>, a: real, b: real)
    requires a <= b
    ensures NumBelow(samples, a) <= NumAtMost(samples, b)
    ensures NumBelow(samples, a) == NumAtMost(samples, b) <==> forall x :: x in samples ==> !(a <= x <= b)
  {
    if samples != [] {
      BelowVersusAtMost(samples[1..], a, b);
      assert samples[0] in samples;
      assert forall x :: x in samples <==> x == samples[0] || x in samples[1..];
    }
  }

  // ---------- The main results ----------

  /** How far the exported bounds lag behind the boundaries. */
  function Lag(opt: BucketOptions): nat {
    if opt.Linear? || opt.Exponential? then 1 else 0
  }

  /** The k-th exported bound is boundary k for explicit layouts and boundary k + 1 for the others. */
  lemma ExportedBound(opt: BucketOptions, k: nat)
    requires k < |Bounds(opt)|
    ensures |Bounds(opt)| + Lag(opt) == |Boundaries(opt)|
    ensures Bounds(opt)[k] == Boundaries(opt)[k + Lag(opt)]
  {
  }

  /** For every layout, without finite bounds too, +Inf and the sample count carry the exact total. */
  lemma TotalIsExact(d: Distribution, samples: seq<real>)
    requires Describes(d, samples)
    ensures Total(d) == |samples|
    ensures var h := HistogramOf(d);
      && h.buckets[|h.buckets| - 1] == Bucket(PosInf, |samples|)
      && h.sampleCount == |samples|
  {
    TotalCountsAll(d, samples);
    WrapExactIff(Total(d));
  }

  /**
   * The exported count at the k-th bound is the number of samples below the
   * k-th boundary of the layout. It never claims more samples than the bound
   * covers.
   */
  lemma HistogramMeaning(d: Distribution, samples: seq<real>, k: nat)
    requires Describes(d, samples) && k < |Bounds(d.options)|
    ensures var h := HistogramOf(d);
      && h.buckets[k].cumulative == NumBelow(samples, Boundaries(d.options)[k])
      && h.buckets[k].cumulative <= NumAtMost(samples, Bounds(d.options)[k])
      && h.buckets[k].cumulative <= h.sampleCount
  {
    TotalIsExact(d, samples);
    BucketAt(d, k);
    PrefixSumAtMostTotal(d, k + 1);
    WrapExactIff(PrefixSum(d.bucketCounts, k + 1));
    ExportedBound(d.options, k);
    PrefixCountsBelow(d, samples, k);
    BoundariesIncreasing(d.options);
    BelowVersusAtMost(samples, Boundaries(d.options)[k], Bounds(d.options)[k]);
  }

  function Sum(samples: seq<real>): real {
    if samples == [] then 0.0 else Sum(samples[1..]) + samples[0]
  }

  predicate IsMean(mean: real, n: nat, sum: real) {
    if n == 0 then sum == 0.0 else mean == sum / n as real
  }

  lemma MeanTimesCount(mean: real, n: nat, sum: real)
    requires IsMean(mean, n, sum)
    ensures mean * n as real == sum
  {
  }

  /** When the message carries the true count and mean, the exported sum is the sum of the samples. */
  lemma SumIsExact(d: Distribution, samples: seq<real>)
    requires d.count == |samples| && IsMean(d.mean, |samples|, Sum(samples))
    ensures HistogramOf(d).sampleSum == Sum(samples)
  {
    MeanTimesCount(d.mean, |samples|, Sum(samples));
  }

  /**
   * A bucket meets the `le` promise exactly when no sample lies from the
   * boundary it really counts to up to the bound it is labelled with.
   */
  lemma LePromiseIff(d: Distribution, samples: seq<real>, k: nat)
    requires Describes(d, samples) && k < |Bounds(d.options)|
    ensures HistogramOf(d).buckets[k].cumulative == NumAtMost(samples, Bounds(d.options)[k])
       <==> forall x :: x in samples ==> !(Boundaries(d.options)[k] <= x <= Bounds(d.options)[k])
  {
    HistogramMeaning(d, samples, k);
    ExportedBound(d.options, k);
    BoundariesIncreasing(d.options);
    BelowVersusAtMost(samples, Boundaries(d.options)[k], Bounds(d.options)[k]);
  }

  /**
   * Counted the way google.api.Distribution counts (strictly below), an
   * explicit bucket is always exact, and a linear or exponential one is exact
   * if and only if the message reports no sample in the next bucket.
   */
  lemma BelowBoundIff(d: Distribution, samples: seq<real>, k: nat)
    requires Describes(d, samples) && k < |Bounds(d.options)|
    ensures HistogramOf(d).buckets[k].cumulative == NumBelow(samples, Bounds(d.options)[k])
       <==> d.options.Explicit? || k + 1 >= |d.bucketCounts| || d.bucketCounts[k + 1] == 0
  {
    HistogramMeaning(d, samples, k);
    ExportedBound(d.options, k);
    if Lag(d.options) == 1 {
      BoundariesIncreasing(d.options);
      NextBucket(samples, Boundaries(d.options), k + 1);
    }
  }

  /** One sample of 5 in a linear layout 0, 10, 20: the bucket le="10" reports none. */
  lemma LinearUndercounts()
    ensures var d := Distribution(1, 5.0, Linear(2, 10.0, 0.0), [0, 1]);
      && Describes(d, [5.0])
      && HistogramOf(d).buckets[0] == Bucket(Finite(10.0), 0)
      && NumAtMost([5.0], 10.0) == 1
  {
    var d := Distribution(1, 5.0, Linear(2, 10.0, 0.0), [0, 1]);
    var bs := Boundaries(d.options);
    assert bs == [0.0, 10.0, 20.0];
    forall i: nat | i <= |bs| ensures CountAt(d.bucketCounts, i) == NumInBucket([5.0], bs, i) {
      assert NumInBucket([5.0], bs, i) == if InBucket(bs, i, 5.0) then 1 else 0;
    }
    assert PrefixSum(d.bucketCounts, 1) == CountAt(d.bucketCounts, 0) == 0;
    BucketAt(d, 0);
    assert Bounds(d.options)[0] == 10.0;
  }
}
