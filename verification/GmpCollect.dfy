/**
 * The Managed Prometheus collector: one gauge family per exported name, from
 * the samples of an instant query.
 */
module GmpCollect {
  import opened Basics
  import opened Names
  import opened Labels
  import opened Series
  import opened Families
  import SG = StableGrouping

  datatype Sample = Sample(labels: map<string, string>, value: real)

  // ---------- Specification ----------

  /** A sample counts only with a nonempty __name__. */
  predicate HasMetricName(s: Sample) {
    "__name__" in s.labels && s.labels["__name__"] != ""
  }

  function Orig(s: Sample): string {
    if "__name__" in s.labels then s.labels["__name__"] else ""
  }

  function Named(samples: seq<Sample>): seq<Sample> {
    if samples == [] then []
    else
      var n := |samples| - 1;
      Named(samples[..n]) + if HasMetricName(samples[n]) then [samples[n]] else []
  }

  /** The named samples, keyed by the name they are exported under. */
  function Items(samples: seq<Sample>): seq<(string, Sample)> {
    var named := Named(samples);
    seq(|named|, i requires 0 <= i < |named| => (GmpName(Orig(named[i])), named[i]))
  }

  function HelpOf(orig: string): string {
    "GMP metric " + orig + " (instant query, exported as gauge)"
  }

  function MetricOf(s: Sample): Metric {
    Metric(multiset(Normalized(s.labels)), Some(s.value), None, None, None)
  }

  function Metrics(g: seq<Sample>): seq<Metric> {
    seq(|g|, i requires 0 <= i < |g| => MetricOf(g[i]))
  }

  /** The family of an exported name: HELP names the first sample's original. */
  function FamilyOf(name: string, g: seq<Sample>): Family
    requires g != []
  {
    Family(name, GaugeFamily, HelpOf(Orig(g[0])), Metrics(g))
  }

  ghost function FamiliesOf(samples: seq<Sample>): seq<Family> {
    var items := Items(samples);
    var keys := SG.Keys(items);
    seq(|keys|, i requires 0 <= i < |keys| =>
      SG.GroupNonempty(items, keys[i]);
      FamilyOf(keys[i], SG.Group(items, keys[i])))
  }

  // ---------- The loop ----------

  lemma FamilyAppend(name: string, g: seq<Sample>, s: Sample)
    ensures FamilyOf(name, g + [s]) ==
            Family(name, GaugeFamily, HelpOf(Orig(if g == [] then s else g[0])), Metrics(g) + [MetricOf(s)])
  {
    assert Metrics(g + [s]) == Metrics(g) + [MetricOf(s)];
  }

  /** The families the items so far amount to, by name. */
  ghost function FamilyMap(items: seq<(string, Sample)>): map<string, Family> {
    map k | k in SG.Keys(items) :: SG.GroupNonempty(items, k); FamilyOf(k, SG.Group(items, k))
  }

  /** The family of a name with one more sample, which may be its first. */
  function FamilyWith(fams: map<string, Family>, name: string, s: Sample): Family {
    if name in fams then Appended(fams[name], MetricOf(s))
    else Family(name, GaugeFamily, HelpOf(Orig(s)), [MetricOf(s)])
  }

  lemma FamilyAtName(items: seq<(string, Sample)>, name: string, s: Sample)
    ensures name in FamilyMap(items + [(name, s)])
    ensures FamilyMap(items + [(name, s)])[name]
         == FamilyWith(FamilyMap(items), name, s)
  {
    SG.AppendItem(items, name, s);
    SG.GroupNonempty(items, name);
    FamilyAppend(name, SG.Group(items, name), s);
    assert SG.Group(items + [(name, s)], name) == SG.Group(items, name) + [s];
  }

  lemma FamilyElsewhere(items: seq<(string, Sample)>, name: string, s: Sample, j: string)
    requires j in SG.Keys(items) && j != name
    ensures j in SG.Keys(items + [(name, s)])
    ensures FamilyMap(items + [(name, s)])[j] == FamilyMap(items)[j]
  {
    SG.AppendItem(items, name, s);
    assert SG.Group(items + [(name, s)], j) == SG.Group(items, j);
  }

  lemma FamilyMapKeys(items: seq<(string, Sample)>, name: string, s: Sample)
    ensures FamilyMap(items + [(name, s)]).Keys == FamilyMap(items).Keys + {name}
  {
    SG.AppendItem(items, name, s);
  }

  lemma FamilyMapAppend(items: seq<(string, Sample)>, name: string, s: Sample)
    ensures FamilyMap(items + [(name, s)]) == FamilyMap(items)[name := FamilyWith(FamilyMap(items), name, s)]
  {
    var before, after := FamilyMap(items), FamilyMap(items + [(name, s)]);
    FamilyMapKeys(items, name, s);
    FamilyAtName(items, name, s);
    forall j | j in before && j != name ensures after[j] == before[j] {
      FamilyElsewhere(items, name, s, j);
    }
    UpdatedAt(before, after, name, after[name]);
  }

  /** The loop's state: order and map hold the groups of the items read so far. */
  ghost predicate Filed(families: map<string, MetricFamily>, order: seq<string>, items: seq<(string, Sample)>)
    reads families.Values
  {
    order == SG.Keys(items) && OneObjectPerKey(families) && ViewMap(families) == FamilyMap(items)
  }

  lemma ItemsAppend(samples: seq<Sample>, n: nat)
    requires n < |samples|
    ensures HasMetricName(samples[n]) ==>
      Items(samples[..n + 1]) == Items(samples[..n]) + [(GmpName(Orig(samples[n])), samples[n])]
    ensures !HasMetricName(samples[n]) ==> Items(samples[..n + 1]) == Items(samples[..n])
  {
    assert samples[..n + 1][..n] == samples[..n];
  }

  /** Returns the stable grouping of the named samples, or the query's error. */
  method Collect(answer: Result<seq<Sample>, string>) returns (r: Result<seq<MetricFamily>, string>)
    ensures answer.Failure? ==> r == Failure(answer.error)
    ensures answer.Success? ==> r.Success? && Views(r.value) == FamiliesOf(answer.value)
    ensures r.Success? ==> forall f :: f in r.value ==> fresh(f)
  {
    if answer.Failure? {
      return Failure(answer.error);
    }
    var samples := answer.value;
    var families: map<string, MetricFamily> := map[];
    var order: seq<string> := [];
    for i := 0 to |samples|
      invariant forall k :: k in families ==> fresh(families[k])
      invariant Filed(families, order, Items(samples[..i]))
    {
      var s := samples[i];
      ItemsAppend(samples, i);
      if "__name__" !in s.labels {
        continue;
      }
      var orig := s.labels["__name__"];
      if orig == "" {
        continue;
      }
      var name := GmpName(orig);
      var labels := NormalizeLabels(s.labels);
      var metric := Metric(multiset(labels), Some(s.value), None, None, None);
      families, order := AddSample(families, order, Items(samples[..i]), name, HelpOf(orig), s, metric);
    }
    assert samples[..|samples|] == samples;
    var out := InOrder(families, order, samples);
    return Success(out);
  }

  /** The families in the order of their names. */
  method InOrder(families: map<string, MetricFamily>, order: seq<string>, ghost samples: seq<Sample>)
    returns (out: seq<MetricFamily>)
    requires Filed(families, order, Items(samples))
    ensures forall f :: f in out ==> f in families.Values
    ensures Views(out) == FamiliesOf(samples)
  {
    out := [];
    for i := 0 to |order|
      invariant |out| == i
      invariant forall j :: 0 <= j < i ==> out[j] in families.Values && out[j].View() == FamiliesOf(samples)[j]
    {
      assert order[i] in FamilyMap(Items(samples)) && order[i] in ViewMap(families);
      assert families[order[i]].View() == FamilyMap(Items(samples))[order[i]] == FamiliesOf(samples)[i];
      out := out + [families[order[i]]];
    }
  }

  /** Files one named sample under its exported name. */
  method AddSample(
    families: map<string, MetricFamily>, order: seq<string>, ghost items: seq<(string, Sample)>,
    name: string, help: string, s: Sample, metric: Metric)
    returns (families': map<string, MetricFamily>, order': seq<string>)
    requires help == HelpOf(Orig(s)) && metric == MetricOf(s)
    requires Filed(families, order, items)
    modifies families.Values
    ensures Filed(families', order', items + [(name, s)])
    ensures forall k :: k in families' ==> (k in families && families'[k] == families[k]) || fresh(families'[k])
  {
    FamilyMapAppend(items, name, s);
    SG.AppendItem(items, name, s);
    families', order' := AddToFamily(families, order, name, name, GaugeFamily, help, metric);
  }

  // ---------- What the specification guarantees ----------

  /** Family names are pairwise distinct, even when different originals merge. */
  lemma FamilyNamesDistinct(samples: seq<Sample>)
    ensures NamesDistinct(FamiliesOf(samples))
  {
    SG.KeysDistinct(Items(samples));
  }

  /** The sample has a nonempty name and is exported as name. */
  ghost predicate ExportedAs(s: Sample, name: string) {
    "__name__" in s.labels && s.labels["__name__"] != "" && GmpName(s.labels["__name__"]) == name
  }

  /** m is a gauge with the sample's value, its promised labels once each, and nothing else. */
  ghost predicate IsGaugeOf(s: Sample, m: Metric) {
    && m.gauge == Some(s.value)
    && m.counter.None? && m.histogram.None? && m.timestampMs.None?
    && forall p :: m.labels[p] == if Promised(s.labels, p) then 1 else 0
  }

  lemma MetricIsGauge(s: Sample)
    ensures IsGaugeOf(s, MetricOf(s))
  {
    forall p ensures MetricOf(s).labels[p] == if Promised(s.labels, p) then 1 else 0 {
      NormalizedIff(s.labels, p);
    }
  }

  /** pos lists, in order, the positions of all samples that have a name. */
  ghost predicate NamedAt(samples: seq<Sample>, pos: seq<nat>) {
    && SG.Increasing(pos)
    && |pos| == |Named(samples)|
    && (forall a :: 0 <= a < |pos| ==> pos[a] < |samples| && samples[pos[a]] == Named(samples)[a])
    && (forall i :: 0 <= i < |samples| && HasMetricName(samples[i]) ==> i in pos)
  }

  lemma NamedAppend(samples: seq<Sample>, s: Sample)
    ensures Named(samples + [s]) == Named(samples) + if HasMetricName(s) then [s] else []
  {
    assert (samples + [s])[..|samples|] == samples;
  }

  lemma NamedAtAppend(samples: seq<Sample>, s: Sample, pos: seq<nat>)
    requires NamedAt(samples, pos)
    ensures NamedAt(samples + [s], if HasMetricName(s) then pos + [|samples|] else pos)
  {
    var longer := pos + [|samples|];
    NamedAppend(samples, s);
    assert longer[|pos|] == |samples|;
    forall i | i in pos ensures i in longer {
      var a :| 0 <= a < |pos| && pos[a] == i;
      assert longer[a] == i;
    }
  }

  lemma {:induction false} NamedArePositions(samples: seq<Sample>) returns (pos: seq<nat>)
    ensures NamedAt(samples, pos)
  {
    pos := [];
    if samples != [] {
      var init, s := samples[..|samples| - 1], samples[|samples| - 1];
      assert samples == init + [s];
      pos := NamedArePositions(init);
      NamedAtAppend(init, s, pos);
      pos := if HasMetricName(s) then pos + [|init|] else pos;
    }
  }

  lemma {:induction false} NamedHaveNames(samples: seq<Sample>)
    ensures forall a :: 0 <= a < |Named(samples)| ==> HasMetricName(Named(samples)[a])
  {
    if samples != [] {
      NamedHaveNames(samples[..|samples| - 1]);
    }
  }

  /**
   * The family holds, in order, exactly the samples at the positions idx, which
   * are all the samples exported as its name.
   */
  ghost predicate ListsFamily(samples: seq<Sample>, f: Family, idx: seq<nat>) {
    && SG.Increasing(idx)
    && |idx| == |f.metrics| > 0
    && (forall a :: 0 <= a < |idx| ==>
          idx[a] < |samples| && ExportedAs(samples[idx[a]], f.name) && IsGaugeOf(samples[idx[a]], f.metrics[a]))
    && (forall i :: 0 <= i < |samples| && ExportedAs(samples[i], f.name) ==> i in idx)
    && f.ftype == GaugeFamily
    && f.help == "GMP metric " + samples[idx[0]].labels["__name__"] + " (instant query, exported as gauge)"
  }

  /** Picked among the named samples, read as positions among all of them. */
  lemma FamilyListed(samples: seq<Sample>, pos: seq<nat>, name: string, at: seq<nat>, g: seq<Sample>)
    returns (idx: seq<nat>)
    requires NamedAt(samples, pos) && SG.PickedAt(Items(samples), name, at, g) && g != []
    ensures ListsFamily(samples, FamilyOf(name, g), idx)
  {
    idx := seq(|at|, a requires 0 <= a < |at| => pos[at[a]]);
    NamedHaveNames(samples);
    forall a | 0 <= a < |idx|
      ensures ExportedAs(samples[idx[a]], name) && samples[idx[a]] == g[a] && IsGaugeOf(g[a], MetricOf(g[a]))
    {
      assert Items(samples)[at[a]] == (name, g[a]);
      MetricIsGauge(g[a]);
    }
    forall i | 0 <= i < |samples| && ExportedAs(samples[i], name) ensures i in idx {
      var b :| 0 <= b < |pos| && pos[b] == i;
      assert Items(samples)[b].0 == name;
      var a :| 0 <= a < |at| && at[a] == b;
      assert idx[a] == i;
    }
  }

  /**
   * Each family holds, in order, exactly the samples exported under its name,
   * and its HELP carries the original name of the first of them.
   */
  lemma FamilyIsSubsequence(samples: seq<Sample>, i: nat) returns (idx: seq<nat>)
    requires i < |FamiliesOf(samples)|
    ensures ListsFamily(samples, FamiliesOf(samples)[i], idx)
  {
    var items := Items(samples);
    var k := SG.Keys(items)[i];
    SG.GroupNonempty(items, k);
    var pos := NamedArePositions(samples);
    var at := SG.GroupIsSubsequence(items, k);
    idx := FamilyListed(samples, pos, k, at, SG.Group(items, k));
  }

  /** No named sample is missing: there is a family with its exported name. */
  lemma EveryNameHasFamily(samples: seq<Sample>, p: nat, name: string) returns (i: nat)
    requires p < |samples| && ExportedAs(samples[p], name)
    ensures i < |FamiliesOf(samples)| && FamiliesOf(samples)[i].name == name
  {
    var pos := NamedArePositions(samples);
    var b :| 0 <= b < |pos| && pos[b] == p;
    assert Items(samples)[b].0 == name;
    SG.KeysAreThoseThatOccur(Items(samples), name);
    i :| 0 <= i < |SG.Keys(Items(samples))| && SG.Keys(Items(samples))[i] == name;
  }

  /** A family's first position is that of its name's first item. */
  lemma FirstOfFamily(samples: seq<Sample>, pos: seq<nat>, f: Family, idx: seq<nat>)
    requires NamedAt(samples, pos) && ListsFamily(samples, f, idx) && f.name in SG.Keys(Items(samples))
    ensures idx[0] == pos[SG.FirstIndex(Items(samples), f.name)]
  {
    var first := SG.FirstIndex(Items(samples), f.name);
    NamedHaveNames(samples);
    assert ExportedAs(samples[pos[first]], f.name);
    assert pos[first] in idx;
    var b :| 0 <= b < |pos| && pos[b] == idx[0];
    assert Items(samples)[b].0 == f.name;
  }

  /** Families come in the order in which their first samples appear. */
  lemma FamiliesInFirstAppearanceOrder(samples: seq<Sample>, i: nat, a: seq<nat>, j: nat, b: seq<nat>)
    requires i < j < |FamiliesOf(samples)|
    requires ListsFamily(samples, FamiliesOf(samples)[i], a) && ListsFamily(samples, FamiliesOf(samples)[j], b)
    ensures a[0] < b[0]
  {
    var pos := NamedArePositions(samples);
    FirstOfFamily(samples, pos, FamiliesOf(samples)[i], a);
    FirstOfFamily(samples, pos, FamiliesOf(samples)[j], b);
    SG.KeysInFirstAppearanceOrder(Items(samples), i, j);
  }

  function CountNamed(samples: seq<Sample>): nat {
    if samples == [] then 0
    else
      var s := samples[|samples| - 1];
      CountNamed(samples[..|samples| - 1]) + if "__name__" in s.labels && s.labels["__name__"] != "" then 1 else 0
  }

  lemma {:induction false} NamedCount(samples: seq<Sample>)
    ensures |Named(samples)| == CountNamed(samples)
  {
    if samples != [] {
      NamedCount(samples[..|samples| - 1]);
    }
  }

  /** Every sample with a nonempty __name__ is exported exactly once. */
  lemma MetricsConserved(samples: seq<Sample>)
    ensures TotalMetrics(FamiliesOf(samples)) == CountNamed(samples)
  {
    NamedCount(samples);
    TotalOfGroups(Items(samples), FamiliesOf(samples), SG.Keys(Items(samples)));
    SG.GroupSizes(Items(samples));
  }
}
