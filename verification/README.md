# gcp-metrics-exporter: verified model

A Dafny model of the exporter that turns Cloud Monitoring and Managed Prometheus
answers into Prometheus metric families. It covers the translation itself
(`internal/collector`, `internal/gmp`) and the shared state around it: the two
concurrency gates, the two client caches and the descriptor cache
(`internal/handler`, `cmd/server`). `dafny verify dfyconfig.toml` checks it.

| file | what it holds |
|---|---|
| `Histogram.dfy`, `HistogramMeaning.dfy` | bucket bounds and cumulative counts with 64-bit wrap-around; their meaning against google.api.Distribution |
| `Series.dfy`, `Labels.dfy`, `Names.dfy` | conversion of one series, label sets, metric names |
| `Counters.dfy` | exported counters over runs of answers, and which series a label set names |
| `Windows.dfy`, `ScrapeRuns.dfy` | the query window, its grid, and what a run of scrapes with `emit_timestamps` exports |
| `StableGrouping.dfy`, `Families.dfy`, `Collect.dfy`, `GmpCollect.dfy` | the grouping loops of both collectors and the stable partition they refine |
| `Descriptors.dfy`, `Clients.dfy` | the caches as objects, one caller at a time |
| `Server.dfy`, `ServerGate.dfy`, `ServerOutcomes.dfy`, `ServerClients.dfy`, `ServerUnits.dfy` | the wired program as one transition system with any number of concurrent requests |

Modelling choices. Floating-point numbers are reals, so IEEE rounding, infinities and NaN
are not modelled. Times are integer nanoseconds since Go's zero time. Counts are bounded
64-bit integers and the cumulative counter wraps. Go iterates maps in an arbitrary order,
so label sets are bags and the loops over maps pick keys arbitrarily. The upstream is an
arbitrary stream of events, an arbitrary list of samples, or an answer chosen in each step.

Findings. These expectations do not hold of the code. Each has a lemma at a concrete input
and one with the exact condition under which the code meets it.

- Linear and exponential histograms report every bucket one bound late. Input:
  `LinearUndercounts`; conditions: `BelowBoundIff`, `LePromiseIff`. This is the contract
  documented at `internal/collector/collector.go:634-642`; google.api.Distribution ends
  bucket 0 at `offset` or `scale`.
- A counter that is reset within one second of its previous start keeps its label set and
  decreases, although a new series is promised at `README.md:376`. Input:
  `ResetWithinASecondDecreases`; condition: `SameLabelSetIff`.
- Two different upstream series can be exported under one label set, when one has as a
  metric label what the other has as a resource label, and then a counter can decrease.
  Input: `MixedLabelsDecrease`; conditions: `OneLabelSetIff`, `ConfusableIff`,
  `CountersNeverDecreaseIff`.
- A metric label can collide with a resource label or a synthetic one. Inputs:
  `SharedLabelCollides`, `StartTimeLabelCollides`; condition: `ExportedLabelsDistinctIff`.
- A mixed answer yields several families with one name. Input: `MixedAnswerRepeatsName`;
  condition: `FamilyNamesDistinctIff`.
- The descriptor cache can serve a unit that an uncached lookup would not: its key ignores
  the impersonation target, and projects may hold the separator. Inputs:
  `DeniedTargetHidesUnit`, `SeparatorMisserves`; conditions: `CacheRefinesUpstreamIff`,
  `KeysCollideIff`.
- MAX_CONCURRENT_SCRAPES is documented at `README.md:268` as a limit across all endpoints,
  but each endpoint has its own gate. Input: `JointBoundReached`; condition:
  `LimitAcrossEndpointsIff`.

## Model

| member | source | states |
|---|---|---|
| Histogram.BucketBounds | internal/collector/collector.go:643-690 | the bounds of every layout, a negative bucket number counting as none |
| Histogram.BoundsSpelled | internal/collector/collector.go:643-690 | bound by bound: none for an unknown layout, the explicit ones verbatim, offset + width or scale * growth first and one width or factor more each time |
| Histogram.LinearBounds | internal/collector/collector.go:648-661 | the loop yields offset + width * (i + 1) |
| Histogram.ExponentialBounds | internal/collector/collector.go:662-677 | the running product yields scale * growth^(i + 1) |
| Histogram.BuildHistogram | internal/collector/collector.go:579-632 | the two loops compute the histogram that the next two rows read off the message |
| Histogram.BucketsStepByCounts | internal/collector/collector.go:587-601 | bucket k exceeds bucket k - 1, and bucket 0 exceeds zero, by counts[k] if that is present and positive and by nothing otherwise, modulo 2^64 |
| Histogram.SampleCountSpelled | internal/collector/collector.go:604-623 | SampleCount and +Inf are the sum of all positive counts modulo 2^64, or Count if that is larger |
| Histogram.ExactIffNoOverflow | internal/collector/collector.go:583-617 | every finite count is the exact sum of the positive counts up to it and SampleCount is max(sum, Count) if and only if the positive counts sum below 2^64 |
| Histogram.WellFormedWhenExact | internal/collector/collector.go:586-623 | bounds + 1 buckets, nondecreasing, the last is +Inf at SampleCount |
| Histogram.FiniteBucketsOrderedIff | internal/collector/collector.go:587-601 | the finite buckets are nondecreasing if and only if their counts do not overflow 64 bits |
| Histogram.BucketsOrderedIff | internal/collector/collector.go:586-623 | the whole bucket list, +Inf included, is nondecreasing if and only if the finite counts fit in 64 bits and do not exceed SampleCount |
| Histogram.LeStrictlyIncreasing | internal/collector/collector.go:643-690 | the le bounds including +Inf are strictly increasing for every valid layout |
| Histogram.SumFitsCountIff | internal/collector/collector.go:614-625 | the sum is mean times the exported sample count exactly when the buckets do not outnumber Count or the mean is 0 |
| Histogram.OnlyInfIff | internal/collector/collector.go:643-690 | +Inf is the only bucket exactly for an unknown layout, a bucket number of at most zero, or no explicit bounds |
| HistogramMeaning.HistogramMeaning | internal/collector/collector.go:579-632 | for any samples bucketed per google.api.Distribution, the k-th count is the number of samples below the k-th boundary, never more than the samples the bound covers |
| HistogramMeaning.TotalIsExact | internal/collector/collector.go:583-623 | for every layout, without finite bounds too, +Inf and SampleCount are the number of samples |
| HistogramMeaning.SumIsExact | internal/collector/collector.go:625 | with the true count and mean of the samples, the exported sum is their sum |
| HistogramMeaning.LePromiseIff | internal/collector/collector.go:634-642 | a bucket equals the number of samples <= its bound exactly when no sample lies between the boundary it counts to and that bound |
| HistogramMeaning.BelowBoundIff | internal/collector/collector.go:634-642 | a bucket equals the number of samples below its bound exactly for explicit layouts or when the message reports no sample in the next bucket |
| HistogramMeaning.LinearUndercounts | internal/collector/collector.go:658-660 | a linear layout in which a sample of 5 is missing from le="10" |
| Series.ConvertSeries | internal/collector/collector.go:374-462 | a series is converted exactly when it has a point and is scalar of a known kind or carries a distribution |
| Series.ExportedIff | internal/collector/collector.go:374-462 | exactly the series with a point that are INT64 or DOUBLE of a known kind, or carry a distribution |
| Series.ExportTable | README.md:167 | gauge and delta become a gauge, cumulative a counter, distribution a histogram, each with the number or histogram of the newest point, nothing else, and on request the whole milliseconds of its end |
| Series.UnixMillisIff | internal/collector/collector.go:479-483 | the timestamp is the number of whole milliseconds from the epoch to the end |
| Series.ExportsNewestPoint | internal/collector/collector.go:384-443 | only the newest point matters; its value, histogram and end time are what is exported |
| Series.ExportedLabelsDistinctIff | internal/collector/collector.go:508-542 | exported label names are pairwise distinct exactly when metric and resource labels are disjoint and hold no synthetic name of this series |
| Series.SharedLabelCollides | internal/collector/collector.go:508-526 | a zone label of both metric and resource is exported twice |
| Series.StartTimeLabelCollides | internal/collector/collector.go:443-444 | a metric label called start_time_unix is exported twice on a counter |
| Series.FormatIntReads | internal/collector/collector.go:443-444 | start_time_unix is a plain decimal: read back it gives the number, without leading zeros |
| Series.StartLabelIff | internal/collector/collector.go:488-501 | a counter carries start_time_unix n exactly when its newest point started in the n-th second after the epoch, a missing start counting as the epoch |
| Counters.ExportedLabelSetIff | internal/collector/collector.go:415-452 | two collision-free series are exported under one label set exactly when their labels merge to one map and, for counters, some whole second after the epoch holds both start times |
| Counters.SameLabelSetIff | internal/collector/collector.go:415-452 | two scrapes of one upstream series have one label set exactly when it is no counter or one whole second after the epoch holds both start times |
| Counters.OneSeriesPerStart | README.md:376 | scrapes of a counter with one start time export one label set, whatever the end times and values |
| Counters.LabelSetNamesSeriesIff | internal/collector/collector.go:435-444 | when no two schemas export the same names, a counter's label set names one upstream series and one start second |
| Counters.CountersNeverDecrease | README.md:376 | over any run of whole answers with such schemas, exported counter samples with one label set never decrease |
| Counters.CountersNeverDecreaseIff | README.md:376 | for a set of schemas this holds of every run of a well-behaved upstream if and only if no two of them export the same names |
| Counters.MixedLabelsDecrease | internal/collector/collector.go:508-533 | zone=a as a metric label and as a resource label are one label set, which falls from 5 to 1 |
| Counters.ResetWithinASecondDecreases | internal/collector/collector.go:488-501 | a reset within one Unix second makes one Prometheus series fall from 5 to 1 |
| Labels.BuildLabelPairs | internal/collector/collector.go:508-533 | whatever the map order, each pair occurs once for the metric labels, once for the resource labels and once for the resource type that yield it |
| Labels.CloudLabelsCount | internal/collector/collector.go:508-533 | the bag that the label theorems speak of has these multiplicities |
| Labels.CloudLabelsDistinctIff | internal/collector/collector.go:508-533 | these names are distinct exactly when the maps are disjoint and free of resource_type if a resource is present |
| Labels.OneLabelSetIff | internal/collector/collector.go:508-533 | two collision-free series have one label set exactly when metric labels, resource labels and resource type merge to one map |
| Labels.ConfusableIff | internal/collector/collector.go:508-533 | two schemas have different series with one label set exactly when the schemas differ and export the same names |
| Labels.NormalizeLabels | internal/gmp/collector.go:83-99 | whatever the map order, under pairwise distinct names: resource_type from the sample itself or else from monitored_resource, monitored_resource only next to a resource_type, every other label but __name__ as it is, nothing else |
| Labels.NormalizedIff | internal/gmp/collector.go:83-99 | the set that the normalisation theorems speak of has exactly these pairs |
| Labels.NormalizedDistinct | internal/gmp/collector.go:83-99 | normalisation merges no two labels and drops none but the name |
| Labels.NormalizeKernel | internal/gmp/collector.go:83-99 | two label maps normalise alike exactly when, apart from __name__, they are equal or differ by the one rename |
| Names.PromMetricName | internal/collector/collector.go:552-565 | the builder loop yields gcp_ and then each character, with /, . and - as _ |
| Names.BackendsAgreeIff | internal/gmp/collector.go:34-52 | both backends export a metric type under one name exactly when it is written in letters, digits, '_', '/', '.' and '-' |
| Names.GmpFormSpelled | config/prometheus.yml:62 | in the PromQL form the colon stands where the service name ends, every other character that is no letter, digit or _ becomes _ |
| Names.PromNamesCollideIff | internal/collector/collector.go:549-565 | two metric types collide exactly when they differ only by '/', '.', '-' and '_' |
| Names.GmpNamesMergeIff | internal/gmp/collector.go:52 | two Managed Prometheus names merge exactly when they differ only by ':' and '_' |
| Names.GmpNameSpelled | internal/gmp/collector.go:52 | gcp_ and then each character, with : as _ |
| Names.PromNameValidIff | internal/collector/collector.go:549-565 | the result is a valid Prometheus name exactly for metric type characters and ':' |
| Windows.BuildRequest | internal/collector/collector.go:291-351 | which parameters are refused and in which order; the given period, else the window length; the given interval, else 300 s; an end less than a period behind the clock, or the clock itself; name, enum numbers; group_by exactly when reducing |
| Windows.AlignedEnd | internal/collector/collector.go:326-329 | the truncated end is on the grid, not in the future, less than one period old |
| Windows.AlignedEndUnique | internal/collector/collector.go:326-329 | it is the only such instant |
| Windows.AlignedRequests | internal/collector/collector.go:299-333 | both ends of two aligned scrapes are on the grid of the period; they send one request exactly when their clocks share a period; windows never go back; their buckets share one grid |
| Windows.EpochGridIff | internal/collector/collector.go:326-329 | the grid is that of Unix time exactly when the period divides the span from Go's zero time to the epoch |
| Windows.DivisorsOfADay | README.md:217 | so it is for every divisor of a day |
| ScrapeRuns.WindowAlwaysReachesNewestIff | README.md:173 | every clock's window holds the newest readable bucket exactly when the interval exceeds the ingest delay rounded up to whole periods |
| ScrapeRuns.EveryScrapeExportsIff | README.md:173 | under the same condition, and no other, every scrape of a series exports a sample whatever the clock |
| ScrapeRuns.DelayPlusPeriodSuffices | README.md:173 | the documented interval of delay plus one period is enough |
| ScrapeRuns.FirstPointIsNewest | internal/collector/collector.go:258-262 | the first point of the answer is then the newest readable bucket |
| ScrapeRuns.ExportsNewestEnd | internal/collector/collector.go:258-262 | every scrape of a run exports the end of the newest readable bucket |
| ScrapeRuns.TimestampsAdvanceByPeriods | README.md:212-217 | over any run timestamps never go back and each scrape repeats the last one or advances by exactly one period |
| ScrapeRuns.NoBucketSkipped | README.md:173-174 | between the first and the last exported bucket every bucket end is exported |
| ScrapeRuns.DocumentedScrapeExports | README.md:173-174 | with an interval of at least the ingest delay plus the given period, a scrape exports the one multiple of the period whose successor is not yet readable |
| ScrapeRuns.DocumentedTimestamps | README.md:173-174 | then each scrape repeats the last timestamp or advances it by the given period |
| ScrapeRuns.DocumentedNoneSkipped | README.md:173-174 | and every multiple of the period from the newest readable at the first scrape to the newest at the last is exported |
| ScrapeRuns.GapOfOnePeriodIff | README.md:212-217 | scrapes a fixed gap apart always export the same or the next bucket exactly when the gap is at most one period |
| ScrapeRuns.LongGapSkipsBucket | README.md:212-217 | over a longer gap some bucket end is exported by no scrape before or after it |
| ScrapeRuns.EveryScheduleHasARun | README.md:173-174 | every schedule of scrapes at most one period apart has a run with the assumed upstream answers |
| StableGrouping.GroupIsSubsequence | internal/collector/collector.go:264-279 | each group is the in-order subsequence of the values with its key |
| StableGrouping.KeysInFirstAppearanceOrder | internal/collector/collector.go:269-278 | groups come in first-appearance order |
| StableGrouping.FirstAppearanceOrderUnique | internal/collector/collector.go:269-278 | no other listing of the keys is in that order |
| StableGrouping.GroupsPartition | internal/collector/collector.go:264-285 | the groups together hold every value exactly once |
| Families.AddToFamily | internal/collector/collector.go:269-279 | get-or-create and append in place change the one family and no other |
| Collect.Collect | internal/collector/collector.go:216-287 | all or nothing: the families of the stable grouping, or the first of request error, iterator error and cap, after at most maxSeries + 1 calls of Next |
| Collect.CollectStream | internal/collector/collector.go:222-286 | the same for the stream alone |
| Collect.ReadStream | internal/collector/collector.go:237-280 | the reading loop stops at the stream's end, its error or the cap, with everything before filed by key in order |
| Collect.InOrder | internal/collector/collector.go:282-286 | families are listed in the order of their keys |
| Collect.StreamTrichotomy | internal/collector/collector.go:238-251 | exactly one of clean end, error and cap comes first, at a unique position |
| Collect.SuccessIff | internal/collector/collector.go:238-286 | families come back exactly when the stream ends cleanly with at most maxSeries series, skipped ones included |
| Collect.StablePartition | internal/collector/collector.go:229-286 | families list exactly the convertible series of one kind and type in stream order, in first-appearance order, and miss none |
| Collect.MetricsConserved | internal/collector/collector.go:253-286 | the total metric count is the number of convertible series |
| Collect.FamilyTypesSound | internal/collector/collector.go:269-279 | name and HELP are as given, no family is empty and every metric carries exactly the payload of its family's type |
| Collect.FamilyNamesDistinctIff | internal/collector/collector.go:225-233 | family names are distinct exactly when the convertible series share one kind and value type |
| Collect.MixedAnswerRepeatsName | internal/collector/collector.go:225-233 | a gauge and a counter of one metric type make two families of one name |
| GmpCollect.Collect | internal/gmp/collector.go:38-78 | the stable grouping of the named samples by exported name, or the query's error |
| GmpCollect.FamilyNamesDistinct | internal/gmp/collector.go:44-77 | family names are pairwise distinct even when originals merge |
| GmpCollect.FamilyIsSubsequence | internal/gmp/collector.go:47-71 | each family is a gauge family that holds in order exactly the samples exported under its name, each with its value and normalised labels and no more, and HELP carries the first original |
| GmpCollect.EveryNameHasFamily | internal/gmp/collector.go:47-71 | every sample with a nonempty __name__ has a family with its exported name |
| GmpCollect.FamiliesInFirstAppearanceOrder | internal/gmp/collector.go:54-77 | families come in the order of their first samples |
| GmpCollect.MetricsConserved | internal/gmp/collector.go:47-77 | the total metric count is the number of samples with a nonempty __name__ |
| Descriptors.KeysCollideIff | internal/collector/descriptor.go:27-29 | two lookups share a key exactly when they are equal or one project straddles the other's separator |
| Descriptors.KeysInjective | internal/collector/descriptor.go:27-29 | without '\|' in the projects keys are injective |
| Descriptors.DescriptorCache.Unit | internal/collector/descriptor.go:35-52 | one caller alone: a hit serves the stored unit; a miss asks, stores and serves the descriptor's unit, stores "" for not found, no permission and unimplemented, and stores nothing for any other error |
| ServerUnits.UndisturbedIsSolo | internal/collector/descriptor.go:35-52 | the load, call and store steps of the transition system, taken without interruption, do the same |
| Clients.ClientCache.Get | internal/collector/cache.go:57-88 | a cached client is returned as it is; a new one works as the target, else the default, else with the base credentials, and is stored; a failed construction returns the first error and changes nothing |
| Clients.ClientCache.Close | internal/collector/cache.go:94-118 | every client is closed once, the map is emptied, an error is returned exactly when a close failed |
| ServerGate.GateInvariant | internal/handler/handler.go:257-271 | in every state of every run the tokens held are the admitted unfinished requests, at most MaxConcurrent |
| ServerGate.HoldersAreUnreleased | internal/handler/handler.go:257-271 | these are exactly the requests of the endpoint with an Admit and no Release so far |
| ServerGate.JointBound | cmd/server/main.go:258-264 | at most 2 * MaxConcurrent requests are in flight |
| ServerGate.GatesIndependent | cmd/server/main.go:258-264 | a combination of requests in flight is reached by some run exactly when each endpoint respects its own limit |
| ServerGate.JointBoundReached | cmd/server/main.go:258-264 | some run has 2 * MaxConcurrent requests in flight |
| ServerGate.LimitAcrossEndpointsIff | README.md:268 | the limit holds across all endpoints, as documented, only if it is 0 |
| ServerGate.RejectedIffFull | internal/handler/handler.go:259-271 | a request gets 429 exactly when its own endpoint's slots are all held by admitted unfinished requests |
| ServerGate.ReleasedExactlyOnce | internal/handler/handler.go:259-353 | every admitted request takes one token and gives back exactly one on every way out; a rejected one takes none |
| ServerOutcomes.StatusTellsOutcome | internal/handler/handler.go:259-341 | over every run a status stands for the step that caused it and that step for the status; a body is written only after the whole collection succeeded |
| ServerClients.IdentityInvariant | internal/handler/handler.go:232-235 | over every run a request with a client works as the target it names, else as the default, else with the base credentials, and a cached client as its key |
| ServerClients.TargetsNeverShareClient | internal/handler/handler.go:232-235 | requests that name different targets never hold the same client, at any two times of a run |
| ServerClients.OneClientPerNumber | internal/collector/cache.go:57-88 | over every run one client number stands for one client |
| ServerClients.AskedAsClient | internal/collector/descriptor.go:40-42 | over every run a definite answer to a descriptor lookup is the answer to the identity of the request's own client |
| ServerClients.SameClientUntilClose | internal/collector/cache.go:57-88 | until Close, all requests for one target get the very same client |
| ServerClients.CacheGrows | internal/gmp/cache.go:39-60 | no cached client is ever replaced |
| ServerClients.ClosedOnceInvariant | internal/collector/cache.go:94-118 | over every run no client is closed twice and no closed client stays cached |
| ServerUnits.CacheRefinesUpstreamIff | internal/collector/descriptor.go:35-52 | in every interleaving every lookup agrees with asking the upstream, or failed transiently itself, if and only if no two possible calls share a key but not a unit |
| ServerUnits.StoredUnitsArePermanent | internal/collector/descriptor.go:14-20 | a stored unit is the true unit of every call with its key and never changes |
| ServerUnits.SeparatorFreeIsCoherent | internal/collector/descriptor.go:27-29 | '\|'-free projects and answers that do not depend on the caller meet the condition |
| ServerUnits.DeniedTargetHidesUnit | internal/collector/descriptor.go:36-47 | a target without permission makes the cache withhold the unit from one that has it |
| ServerUnits.SeparatorMisserves | internal/collector/descriptor.go:27-38 | metric m of project a\|b is served the unit of metric b\|m of project a |
| ServerUnits.LookupsAfterCaching | internal/collector/descriptor.go:36-52 | after a store only calls already past their load still ask the upstream |
| ServerUnits.LookupsAfterStoreBounded | internal/collector/descriptor.go:36-52 | from a store on, at most MaxConcurrent - 1 further upstream calls are made for its key |

## Left out

- `internal/auth/auth.go`: credential discovery and impersonation are library calls; a token source is an opaque identity.
- `internal/gmp/client.go`: HTTP and JSON decoding; the model starts from a list of samples or an error.
- gRPC, the SDK iterator and `net/http`: the upstream is an arbitrary stream, a response is one status.
- `parseRequest` and `parseGMPRequest` beyond the impersonation default: a request in the transition system either parses or does not; the parsing of durations and booleans is the library's.
- `composeFilter`: its meaning depends on the Cloud Monitoring filter grammar.
- `helpText`, `resultUnit`, `mapError`, `mapGMPError`, `loadConfig`: flat decision tables; the HELP text of Cloud Monitoring families is a parameter.
- `expfmt` encoding, logging, `filterFingerprint`, the series count in log lines, healthz and the healthcheck probe.
- IEEE rounding of values, bounds and `Mean * Count`.
- The defaults for nonpositive limits (`MaxSeries`, `MaxConcurrent`): the effective limit is a parameter.
- Names.PromMetricName: works on characters, so bytes that are not valid UTF-8, which Go replaces, are not modelled.
- Clients.ClientCache.Get: also stands for the Managed Prometheus cache, whose construction cannot fail at dialling and which is never closed.
- Collect.Collect: the iterator is an argument; that listing and descriptor lookup use one client, and that the lookup precedes the loop, is in the transition system only as an order of steps.
- The handlers' `ServeHTTP` methods are the actions of the transition system; a panic inside a handler is not among them.
- Clients.ClientCache.Close: the reported error is the key and the client's own error; its text, with the key quoted, is formatting.
