/**
 * Label pairs of both backends. Go iterates maps in an arbitrary order, so the
 * loops below pick keys arbitrarily and a label set is a bag of pairs.
 */
module Labels {
  import opened Basics

  datatype LabelPair = LabelPair(name: string, value: string)

  datatype Resource = Resource(rtype: string, labels: map<string, string>)

  type LabelBag = multiset<LabelPair>

  function Pairs(m: map<string, string>): set<LabelPair> {
    set k | k in m :: LabelPair(k, m[k])
  }

  /** No name occurs twice. */
  ghost predicate DistinctNames(b: LabelBag) {
    forall p, q :: p in b && q in b && p.name == q.name ==> p == q && b[p] == 1
  }

  ghost predicate HasName(b: LabelBag, name: string) {
    exists q :: q in b && q.name == name
  }

  /** Adding a pair keeps names distinct exactly when the name is new. */
  lemma AddDistinct(b: LabelBag, p: LabelPair)
    ensures DistinctNames(b + multiset{p}) <==> DistinctNames(b) && !HasName(b, p.name)
  {
    var c := b + multiset{p};
    assert p in c && c[p] == b[p] + 1;
    assert forall q :: q in b ==> q in c;
    assert forall q :: q != p ==> c[q] == b[q];
  }

  ghost predicate PositionsDistinct(s: seq<LabelPair>) {
    forall i, j :: 0 <= i < j < |s| ==> s[i].name != s[j].name
  }

  lemma HasNameInList(s: seq<LabelPair>, name: string)
    ensures HasName(multiset(s), name) <==> exists i :: 0 <= i < |s| && s[i].name == name
  {
    if i :| 0 <= i < |s| && s[i].name == name {
      assert s[i] in multiset(s);
    }
  }

  lemma PositionsAppend(s: seq<LabelPair>, p: LabelPair)
    ensures PositionsDistinct(s + [p])
       <==> PositionsDistinct(s) && !exists i :: 0 <= i < |s| && s[i].name == p.name
  {
    var t := s + [p];
    if PositionsDistinct(t) {
      forall i | 0 <= i < |s| ensures s[i].name != p.name {
        assert t[i].name != t[|s|].name;
      }
      forall i, j | 0 <= i < j < |s| ensures s[i].name != s[j].name {
        assert t[i].name != t[j].name;
      }
    }
  }

  /** For a list of pairs distinctness says that all positions carry different names. */
  lemma {:induction false} DistinctNamesOfList(s: seq<LabelPair>)
    ensures DistinctNames(multiset(s)) <==> PositionsDistinct(s)
  {
    if s != [] {
      var n := |s| - 1;
      var init := s[..n];
      assert s == init + [s[n]];
      DistinctNamesOfList(init);
      AddDistinct(multiset(init), s[n]);
      HasNameInList(init, s[n].name);
      PositionsAppend(init, s[n]);
    }
  }

  // ---------- Cloud Monitoring labels ----------

  function ResourceLabels(resource: Option<Resource>): map<string, string> {
    if resource.Some? then resource.value.labels else map[]
  }

  /** Metric labels, resource labels, and the resource type when there is a resource. */
  function CloudLabels(metricLabels: map<string, string>, resource: Option<Resource>): LabelBag {
    var base := multiset(Pairs(metricLabels)) + multiset(Pairs(ResourceLabels(resource)));
    if resource.Some? then base + multiset{LabelPair("resource_type", resource.value.rtype)} else base
  }

  /** How often a series must export a pair: once for each of metric, resource and resource type that yields it. */
  function Occurrences(metricLabels: map<string, string>, resource: Option<Resource>, p: LabelPair): nat {
    (if p.name in metricLabels && metricLabels[p.name] == p.value then 1 else 0)
    + (if resource.Some? && p.name in resource.value.labels && resource.value.labels[p.name] == p.value then 1 else 0)
    + (if resource.Some? && p.name == "resource_type" && p.value == resource.value.rtype then 1 else 0)
  }

  lemma CloudLabelsCount(metricLabels: map<string, string>, resource: Option<Resource>, p: LabelPair)
    ensures CloudLabels(metricLabels, resource)[p] == Occurrences(metricLabels, resource, p)
  {
    PairCount(metricLabels, p);
    PairCount(ResourceLabels(resource), p);
    assert resource.Some? ==>
      (p == LabelPair("resource_type", resource.value.rtype)
       <==> p.name == "resource_type" && p.value == resource.value.rtype);
  }

  lemma PairCount(m: map<string, string>, p: LabelPair)
    ensures multiset(Pairs(m))[p] == if p.name in m && m[p.name] == p.value then 1 else 0
  {
    if p.name in m && m[p.name] == p.value {
      assert p == LabelPair(p.name, m[p.name]);
    }
  }

  lemma PairsOfKeys(m: map<string, string>, todo: set<string>, k: string)
    requires k in todo && todo <= m.Keys
    ensures multiset(Pairs(m - todo)) + multiset{LabelPair(k, m[k])} == multiset(Pairs(m - (todo - {k})))
  {
    var p, before, after := LabelPair(k, m[k]), m - todo, m - (todo - {k});
    assert p !in Pairs(before);
    assert after.Keys == before.Keys + {k};
    forall q | q in Pairs(before) + {p} ensures q in Pairs(after) {
      assert q.name in after && q == LabelPair(q.name, after[q.name]);
    }
    forall q | q in Pairs(after) ensures q in Pairs(before) + {p} {
      assert q.name in after && q == LabelPair(q.name, after[q.name]);
      if q.name != k {
        assert q.name in before;
      }
    }
    assert Pairs(after) == Pairs(before) + {p};
  }

  method AppendPairs(labels: seq<LabelPair>, m: map<string, string>) returns (out: seq<LabelPair>)
    ensures multiset(out) == multiset(labels) + multiset(Pairs(m))
  {
    out := labels;
    var todo := m.Keys;
    while todo != {}
      invariant todo <= m.Keys
      invariant multiset(out) == multiset(labels) + multiset(Pairs(m - todo))
    {
      var k :| k in todo;
      PairsOfKeys(m, todo, k);
      out := out + [LabelPair(k, m[k])];
      todo := todo - {k};
    }
    assert m - {} == m;
  }

  /** Whatever order the maps are walked in, the result is the same bag. */
  method BuildLabelPairs(metricLabels: map<string, string>, resource: Option<Resource>)
    returns (out: seq<LabelPair>)
    ensures multiset(out) == CloudLabels(metricLabels, resource)
    ensures forall p :: multiset(out)[p] == Occurrences(metricLabels, resource, p)
  {
    out := AppendPairs([], metricLabels);
    out := AppendPairs(out, ResourceLabels(resource));
    if resource.Some? {
      out := out + [LabelPair("resource_type", resource.value.rtype)];
    }
    assert multiset(out) == CloudLabels(metricLabels, resource);
    forall p ensures multiset(out)[p] == Occurrences(metricLabels, resource, p) {
      CloudLabelsCount(metricLabels, resource, p);
    }
  }

  function ResourceNames(resource: Option<Resource>): set<string> {
    if resource.Some? then {"resource_type"} else {}
  }

  /** What has to hold for the labels of a series to stay apart, given the synthetic names added to it. */
  ghost predicate NamesKeptApart(metricLabels: map<string, string>, resource: Option<Resource>, synthetic: set<string>) {
    && metricLabels.Keys !! ResourceLabels(resource).Keys
    && synthetic !! metricLabels.Keys
    && synthetic !! ResourceLabels(resource).Keys
  }

  lemma PairNamed(m: map<string, string>, k: string)
    requires k in m
    ensures LabelPair(k, m[k]) in Pairs(m)
  {
  }

  lemma NamesOfBase(m: map<string, string>, r: map<string, string>, name: string)
    ensures HasName(multiset(Pairs(m)) + multiset(Pairs(r)), name) <==> name in m || name in r
  {
    var b := multiset(Pairs(m)) + multiset(Pairs(r));
    if name in m {
      PairNamed(m, name);
      assert LabelPair(name, m[name]) in b;
    }
    if name in r {
      PairNamed(r, name);
      assert LabelPair(name, r[name]) in b;
    }
  }

  /** The pairs of two maps are distinct exactly when the maps share no key. */
  lemma UnionDistinct(m: map<string, string>, r: map<string, string>)
    ensures DistinctNames(multiset(Pairs(m)) + multiset(Pairs(r))) <==> m.Keys !! r.Keys
  {
    var b := multiset(Pairs(m)) + multiset(Pairs(r));
    forall k | k in m && k in r ensures !DistinctNames(b) {
      PairNamed(m, k);
      PairNamed(r, k);
      var p, q := LabelPair(k, m[k]), LabelPair(k, r[k]);
      assert p in b && q in b;
      assert p == q ==> b[p] == 2;
    }
  }

  lemma AddToBase(m: map<string, string>, r: map<string, string>, p: LabelPair)
    ensures DistinctNames(multiset(Pairs(m)) + multiset(Pairs(r)) + multiset{p})
       <==> m.Keys !! r.Keys && p.name !in m && p.name !in r
  {
    AddDistinct(multiset(Pairs(m)) + multiset(Pairs(r)), p);
    UnionDistinct(m, r);
    NamesOfBase(m, r, p.name);
  }

  /**
   * The exported label names of a series are pairwise distinct exactly when its
   * metric and resource labels are disjoint and neither holds a synthetic name.
   */
  lemma CloudLabelsDistinctIff(metricLabels: map<string, string>, resource: Option<Resource>)
    ensures DistinctNames(CloudLabels(metricLabels, resource))
       <==> NamesKeptApart(metricLabels, resource, ResourceNames(resource))
  {
    var r := ResourceLabels(resource);
    if resource.Some? {
      AddToBase(metricLabels, r, LabelPair("resource_type", resource.value.rtype));
    } else {
      UnionDistinct(metricLabels, r);
    }
  }

  lemma NamesOfCloudLabels(metricLabels: map<string, string>, resource: Option<Resource>, name: string)
    requires name != "resource_type"
    ensures HasName(CloudLabels(metricLabels, resource), name)
       <==> name in metricLabels || name in ResourceLabels(resource)
  {
    var r := ResourceLabels(resource);
    NamesOfBase(metricLabels, r, name);
    var b := multiset(Pairs(metricLabels)) + multiset(Pairs(r));
    assert forall q :: q in b ==> q in CloudLabels(metricLabels, resource);
    assert forall q :: q in CloudLabels(metricLabels, resource) ==> q in b || q.name == "resource_type";
  }

  // ---------- Which series a label set names ----------

  /** All exported labels of a series as one map. */
  function MergedLabels(metricLabels: map<string, string>, resource: Option<Resource>): map<string, string> {
    var base := metricLabels + ResourceLabels(resource);
    if resource.Some? then base["resource_type" := resource.value.rtype] else base
  }

  lemma PairsAdd(m: map<string, string>, k: string, v: string)
    requires k !in m
    ensures multiset(Pairs(m[k := v])) == multiset(Pairs(m)) + multiset{LabelPair(k, v)}
  {
    var m' := m[k := v];
    forall q | q in Pairs(m) + {LabelPair(k, v)} ensures q in Pairs(m') {
      assert q.name in m' && q == LabelPair(q.name, m'[q.name]);
    }
    assert Pairs(m') == Pairs(m) + {LabelPair(k, v)};
  }

  lemma PairsOfUnion(m: map<string, string>, r: map<string, string>)
    requires m.Keys !! r.Keys
    ensures multiset(Pairs(m + r)) == multiset(Pairs(m)) + multiset(Pairs(r))
  {
    forall q | q in Pairs(m) + Pairs(r) ensures q in Pairs(m + r) {
      assert q.name in m + r && q == LabelPair(q.name, (m + r)[q.name]);
    }
    assert Pairs(m + r) == Pairs(m) + Pairs(r);
    assert Pairs(m) !! Pairs(r);
  }

  lemma MergedBag(metricLabels: map<string, string>, resource: Option<Resource>)
    requires NamesKeptApart(metricLabels, resource, ResourceNames(resource))
    ensures CloudLabels(metricLabels, resource) == multiset(Pairs(MergedLabels(metricLabels, resource)))
  {
    var r := ResourceLabels(resource);
    PairsOfUnion(metricLabels, r);
    if resource.Some? {
      PairsAdd(metricLabels + r, "resource_type", resource.value.rtype);
    }
  }

  /** A map can be read off its pairs. */
  lemma PairsInjective(a: map<string, string>, b: map<string, string>)
    ensures multiset(Pairs(a)) == multiset(Pairs(b)) <==> a == b
  {
    if multiset(Pairs(a)) == multiset(Pairs(b)) {
      forall p: LabelPair ensures p in Pairs(a) <==> p in Pairs(b) {
        assert p in Pairs(a) <==> p in multiset(Pairs(a));
        assert p in Pairs(b) <==> p in multiset(Pairs(b));
      }
      forall k | k in a ensures k in b && b[k] == a[k] {
        PairNamed(a, k);
        assert LabelPair(k, a[k]) in Pairs(b);
      }
      forall k | k in b ensures k in a && a[k] == b[k] {
        PairNamed(b, k);
        assert LabelPair(k, b[k]) in Pairs(a);
      }
    }
  }

  /** Two series without name collisions export one label set exactly when their merged labels are equal. */
  lemma OneLabelSetIff(m: map<string, string>, res: Option<Resource>, n: map<string, string>, q: Option<Resource>)
    requires NamesKeptApart(m, res, ResourceNames(res)) && NamesKeptApart(n, q, ResourceNames(q))
    ensures CloudLabels(m, res) == CloudLabels(n, q) <==> MergedLabels(m, res) == MergedLabels(n, q)
  {
    MergedBag(m, res);
    MergedBag(n, q);
    PairsInjective(MergedLabels(m, res), MergedLabels(n, q));
  }

  /** Which names of a series are metric labels and which are resource labels. */
  datatype Schema = Schema(metricNames: set<string>, resourceNames: set<string>, hasResource: bool) {

    /** No name is used twice, and only a resource has resource labels. */
    ghost predicate Valid() {
      && metricNames !! resourceNames
      && (hasResource ==> "resource_type" !in metricNames + resourceNames)
      && (!hasResource ==> resourceNames == {})
    }

    /** All exported names. */
    function Names(): set<string> {
      metricNames + resourceNames + if hasResource then {"resource_type"} else {}
    }
  }

  function SchemaOf(metricLabels: map<string, string>, resource: Option<Resource>): Schema {
    Schema(metricLabels.Keys, ResourceLabels(resource).Keys, resource.Some?)
  }

  lemma SchemaValidIff(m: map<string, string>, res: Option<Resource>)
    ensures SchemaOf(m, res).Valid() <==> NamesKeptApart(m, res, ResourceNames(res))
  {
  }

  /** Under one schema a label set names one series. */
  lemma OneSchemaIdentifies(m: map<string, string>, res: Option<Resource>, n: map<string, string>, q: Option<Resource>)
    requires SchemaOf(m, res) == SchemaOf(n, q) && SchemaOf(m, res).Valid()
    requires MergedLabels(m, res) == MergedLabels(n, q)
    ensures m == n && res == q
  {
    var a, b := MergedLabels(m, res), MergedLabels(n, q);
    forall k | k in m ensures n[k] == m[k] {
      assert a[k] == m[k] && b[k] == n[k];
    }
    assert m == n;
    var r, t := ResourceLabels(res), ResourceLabels(q);
    forall k | k in r ensures t[k] == r[k] {
      assert a[k] == r[k] && b[k] == t[k];
    }
    assert r == t;
    if res.Some? {
      assert a["resource_type"] == b["resource_type"];
    }
  }

  /** All labels of the schema, with the empty value. */
  function BlankMetric(s: Schema): map<string, string> {
    map k | k in s.metricNames :: ""
  }

  function BlankResource(s: Schema): Option<Resource> {
    if s.hasResource then Some(Resource("", map k | k in s.resourceNames :: "")) else None
  }

  lemma BlankMerged(s: Schema)
    requires s.Valid()
    ensures SchemaOf(BlankMetric(s), BlankResource(s)) == s
    ensures MergedLabels(BlankMetric(s), BlankResource(s)) == map k | k in s.Names() :: ""
  {
  }

  /** Some two different series of these schemas export one label set. */
  ghost predicate Confusable(s: Schema, t: Schema) {
    exists m: map<string, string>, res: Option<Resource>, n: map<string, string>, q: Option<Resource> ::
      && SchemaOf(m, res) == s && SchemaOf(n, q) == t
      && (m, res) != (n, q)
      && CloudLabels(m, res) == CloudLabels(n, q)
  }

  /**
   * Label sets tell the series of two schemas apart exactly unless the schemas
   * differ and yet export the same names.
   */
  lemma ConfusableIff(s: Schema, t: Schema)
    requires s.Valid() && t.Valid()
    ensures Confusable(s, t) <==> s != t && s.Names() == t.Names()
  {
    if s != t && s.Names() == t.Names() {
      var m, res, n, q := BlankMetric(s), BlankResource(s), BlankMetric(t), BlankResource(t);
      BlankMerged(s);
      BlankMerged(t);
      SchemaValidIff(m, res);
      SchemaValidIff(n, q);
      OneLabelSetIff(m, res, n, q);
      assert (m, res) != (n, q);
    }
    if Confusable(s, t) {
      var m, res, n, q :| SchemaOf(m, res) == s && SchemaOf(n, q) == t && (m, res) != (n, q)
        && CloudLabels(m, res) == CloudLabels(n, q);
      SchemaValidIff(m, res);
      SchemaValidIff(n, q);
      OneLabelSetIff(m, res, n, q);
      NamesOfMerged(m, res);
      NamesOfMerged(n, q);
      if s == t {
        OneSchemaIdentifies(m, res, n, q);
      }
    }
  }

  lemma NamesOfMerged(m: map<string, string>, res: Option<Resource>)
    ensures MergedLabels(m, res).Keys == SchemaOf(m, res).Names()
  {
  }

  // ---------- Managed Prometheus labels ----------

  function ExportedName(labels: map<string, string>, k: string): string {
    if k == "monitored_resource" && "resource_type" !in labels then "resource_type" else k
  }

  /** The labels of a sample without its metric name, monitored_resource renamed when that is free. */
  function Normalized(labels: map<string, string>): set<LabelPair> {
    set k | k in labels && k != "__name__" :: LabelPair(ExportedName(labels, k), labels[k])
  }

  /**
   * What normalisation promises about a pair: resource_type comes from the
   * sample's own label or else from monitored_resource, monitored_resource
   * survives only next to a resource_type, every other label but __name__ is
   * kept as it is.
   */
  ghost predicate Promised(input: map<string, string>, p: LabelPair) {
    if p.name == "resource_type" then
      || ("resource_type" in input && input["resource_type"] == p.value)
      || ("resource_type" !in input && "monitored_resource" in input && input["monitored_resource"] == p.value)
    else if p.name == "monitored_resource" then
      && "resource_type" in input
      && "monitored_resource" in input && input["monitored_resource"] == p.value
    else
      p.name != "__name__" && p.name in input && input[p.name] == p.value
  }

  /** The normalised pairs are exactly the promised ones. */
  lemma NormalizedIff(input: map<string, string>, p: LabelPair)
    ensures p in Normalized(input) <==> Promised(input, p)
  {
    if Promised(input, p) {
      var k := if p.name == "resource_type" && "resource_type" !in input then "monitored_resource" else p.name;
      assert k in input && k != "__name__" && p == LabelPair(ExportedName(input, k), input[k]);
    }
  }

  /** The labels that normalisation looks at. */
  function Unnamed(labels: map<string, string>): map<string, string> {
    labels - {"__name__"}
  }

  /** No two labels are exported under one name. */
  lemma NormalizedDistinct(labels: map<string, string>)
    ensures DistinctNames(multiset(Normalized(labels)))
    ensures |Normalized(labels)| == |Unnamed(labels)|
  {
    assert forall j, k :: j in labels && k in labels && ExportedName(labels, j) == ExportedName(labels, k) ==> j == k;
    NormalizedSize(labels, Unnamed(labels).Keys);
    assert Normalized(labels) == set k | k in Unnamed(labels).Keys :: LabelPair(ExportedName(labels, k), labels[k]);
  }

  lemma {:induction false} NormalizedSize(labels: map<string, string>, keys: set<string>)
    requires keys <= labels.Keys
    ensures |set k | k in keys :: LabelPair(ExportedName(labels, k), labels[k])| == |keys|
  {
    var ps := set k | k in keys :: LabelPair(ExportedName(labels, k), labels[k]);
    if keys == {} {
      assert ps == {};
    } else {
      var j :| j in keys;
      var rest := set k | k in keys - {j} :: LabelPair(ExportedName(labels, k), labels[k]);
      NormalizedSize(labels, keys - {j});
      assert ps == rest + {LabelPair(ExportedName(labels, j), labels[j])};
    }
  }

  lemma NormalizedList(input: map<string, string>, labels: seq<LabelPair>)
    requires multiset(labels) == multiset(Normalized(input))
    ensures PositionsDistinct(labels)
    ensures forall p :: p in labels <==> Promised(input, p)
  {
    NormalizedDistinct(input);
    DistinctNamesOfList(labels);
    forall p ensures p in labels <==> Promised(input, p) {
      NormalizedIff(input, p);
      assert p in labels <==> p in multiset(labels);
    }
  }

  method NormalizeLabels(input: map<string, string>) returns (labels: seq<LabelPair>)
    ensures multiset(labels) == multiset(Normalized(input))
    ensures PositionsDistinct(labels)
    ensures forall p :: p in labels <==> Promised(input, p)
  {
    var hasResourceType := "resource_type" in input;
    labels := [];
    var todo := input.Keys;
    ghost var done: set<LabelPair> := {};
    while todo != {}
      invariant todo <= input.Keys
      invariant done == set k | k in input && k !in todo && k != "__name__" :: LabelPair(ExportedName(input, k), input[k])
      invariant multiset(labels) == multiset(done)
    {
      var key :| key in todo;
      var k, v := key, input[key];
      todo := todo - {key};
      if k == "__name__" {
        continue;
      }
      if k == "monitored_resource" && !hasResourceType {
        k := "resource_type";
      }
      assert LabelPair(k, v) !in done;
      labels := labels + [LabelPair(k, v)];
      done := done + {LabelPair(k, v)};
    }
    assert done == Normalized(input);
    NormalizedList(input, labels);
  }

  /** b is a with monitored_resource renamed, where neither map holds both names. */
  ghost predicate RenamedFrom(a: map<string, string>, b: map<string, string>) {
    && "monitored_resource" in a && "resource_type" !in a
    && b == (a - {"monitored_resource"})["resource_type" := a["monitored_resource"]]
  }

  lemma SameNormalizedWhenRenamed(a: map<string, string>, b: map<string, string>)
    requires RenamedFrom(a, b) && "__name__" !in a
    ensures Normalized(a) == Normalized(b)
  {
    forall p | p in Normalized(a) ensures p in Normalized(b) {
      var k :| k in a && p == LabelPair(ExportedName(a, k), a[k]);
      assert ExportedName(a, k) in b;
    }
    forall p | p in Normalized(b) ensures p in Normalized(a) {
      var k :| k in b && p == LabelPair(k, b[k]);
      if k == "resource_type" {
        assert "monitored_resource" in a;
      } else {
        assert k in a;
      }
    }
  }

  /** A label is exported under name n exactly when some key is exported as n. */
  lemma NormalizedLookup(m: map<string, string>, k: string)
    requires k in m && k != "__name__"
    ensures LabelPair(ExportedName(m, k), m[k]) in Normalized(m)
  {
  }

  lemma SubmapWhenSameNormalized(a: map<string, string>, b: map<string, string>)
    requires Normalized(a) == Normalized(b)
    requires "__name__" !in a && "__name__" !in b
    requires ("monitored_resource" in a && "resource_type" !in a)
        <==> ("monitored_resource" in b && "resource_type" !in b)
    ensures forall k :: k in a ==> k in b && b[k] == a[k]
  {
    forall k | k in a ensures k in b && b[k] == a[k] {
      NormalizedLookup(a, k);
      var p := LabelPair(ExportedName(a, k), a[k]);
      assert p in Normalized(b);
      var j :| j in b && p == LabelPair(ExportedName(b, j), b[j]);
    }
  }

  lemma RenamedWhenSameNormalized(a: map<string, string>, b: map<string, string>)
    requires Normalized(a) == Normalized(b)
    requires "__name__" !in a && "__name__" !in b
    requires "monitored_resource" in a && "resource_type" !in a
    requires !("monitored_resource" in b && "resource_type" !in b)
    ensures RenamedFrom(a, b)
  {
    var c := (a - {"monitored_resource"})["resource_type" := a["monitored_resource"]];
    SameNormalizedWhenRenamed(a, c);
    SubmapWhenSameNormalized(b, c);
    SubmapWhenSameNormalized(c, b);
  }

  /**
   * The kernel of normalisation: two samples get the same label set exactly
   * when, apart from their metric name, they are equal or differ by the single
   * rename of monitored_resource to resource_type.
   */
  lemma NormalizeKernel(x: map<string, string>, y: map<string, string>)
    ensures var a, b := Unnamed(x), Unnamed(y);
      Normalized(x) == Normalized(y) <==> a == b || RenamedFrom(a, b) || RenamedFrom(b, a)
  {
    var a, b := Unnamed(x), Unnamed(y);
    NormalizedIgnoresName(x);
    NormalizedIgnoresName(y);
    if Normalized(a) == Normalized(b) {
      var ra := "monitored_resource" in a && "resource_type" !in a;
      var rb := "monitored_resource" in b && "resource_type" !in b;
      if ra == rb {
        SubmapWhenSameNormalized(a, b);
        SubmapWhenSameNormalized(b, a);
      } else if ra {
        RenamedWhenSameNormalized(a, b);
      } else {
        RenamedWhenSameNormalized(b, a);
      }
    }
    if RenamedFrom(a, b) {
      SameNormalizedWhenRenamed(a, b);
    }
    if RenamedFrom(b, a) {
      SameNormalizedWhenRenamed(b, a);
    }
  }

  lemma NormalizedIgnoresName(m: map<string, string>)
    ensures Normalized(m) == Normalized(Unnamed(m))
  {
    var u := Unnamed(m);
    forall k | k in u ensures LabelPair(ExportedName(u, k), u[k]) == LabelPair(ExportedName(m, k), m[k]) {
    }
    forall p | p in Normalized(m) ensures p in Normalized(u) {
      var k :| k in m && k != "__name__" && p == LabelPair(ExportedName(m, k), m[k]);
      assert k in u;
    }
  }
}
