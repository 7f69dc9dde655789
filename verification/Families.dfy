/** Metric families: the objects both collectors append metrics to, and their values. */
module Families {
  import opened Series
  import SG = StableGrouping

  datatype Family = Family(name: string, ftype: FamilyType, help: string, metrics: seq<Metric>)

  class MetricFamily {
    const name: string
    const ftype: FamilyType
    const help: string
    var metrics: seq<Metric>

    constructor (name: string, ftype: FamilyType, help: string)
      ensures this.name == name && this.ftype == ftype && this.help == help && metrics == []
    {
      this.name, this.ftype, this.help, metrics := name, ftype, help, [];
    }

    ghost function View(): Family
      reads this
    {
      Family(name, ftype, help, metrics)
    }

    method Append(m: Metric)
      modifies this
      ensures metrics == old(metrics) + [m]
    {
      metrics := metrics + [m];
    }
  }

  ghost function Views(out: seq<MetricFamily>): seq<Family>
    reads out
  {
    seq(|out|, i requires 0 <= i < |out| reads out => out[i].View())
  }

  /** The values of a map of families. */
  ghost function ViewMap<K(!new)>(families: map<K, MetricFamily>): map<K, Family>
    reads families.Values
  {
    map k | k in families :: families[k].View()
  }

  lemma UpdatedAt<K(!new), V>(before: map<K, V>, after: map<K, V>, k: K, v: V)
    requires after.Keys == before.Keys + {k} && after[k] == v
    requires forall j :: j in before && j != k ==> after[j] == before[j]
    ensures after == before[k := v]
  {
  }

  function Appended(f: Family, m: Metric): Family {
    f.(metrics := f.metrics + [m])
  }

  /** The objects behind a map of families are allocated for it alone, one per key. */
  ghost predicate OneObjectPerKey<K(!new)>(families: map<K, MetricFamily>) {
    forall j, k :: j in families && k in families && families[j] == families[k] ==> j == k
  }

  /**
   * Get-or-create: appends the metric in place to the family of the key, which
   * is created with the given head when it does not exist yet.
   */
  method AddToFamily<K(==, !new)>(
    families: map<K, MetricFamily>, order: seq<K>, key: K,
    name: string, ftype: FamilyType, help: string, m: Metric)
    returns (families': map<K, MetricFamily>, order': seq<K>)
    requires OneObjectPerKey(families)
    modifies families.Values
    ensures OneObjectPerKey(families')
    ensures order' == if key in families then order else order + [key]
    ensures ViewMap(families')
         == old(ViewMap(families))[key := if key in families then Appended(old(families[key].View()), m)
                                          else Family(name, ftype, help, [m])]
    ensures forall k :: k in families' ==> (k in families && families'[k] == families[k]) || fresh(families'[k])
  {
    families', order' := families, order;
    ghost var views := ViewMap(families);
    if key !in families {
      var fam := new MetricFamily(name, ftype, help);
      families' := families[key := fam];
      order' := order + [key];
    }
    families'[key].Append(m);
    ghost var head := if key in families then Appended(views[key], m) else Family(name, ftype, help, [m]);
    assert ViewMap(families').Keys == views.Keys + {key};
    assert forall k :: k in families' ==> families'[k].View() == (if k == key then head else views[k]);
  }

  ghost predicate NamesDistinct(fams: seq<Family>) {
    forall i, j :: 0 <= i < j < |fams| ==> fams[i].name != fams[j].name
  }

  function TotalMetrics(fams: seq<Family>): nat {
    if fams == [] then 0 else TotalMetrics(fams[..|fams| - 1]) + |fams[|fams| - 1].metrics|
  }

  lemma {:induction false} TotalOfGroups<K(!new), V>(items: seq<(K, V)>, fams: seq<Family>, keys: seq<K>)
    requires |fams| == |keys| && forall i :: 0 <= i < |keys| ==> |fams[i].metrics| == |SG.Group(items, keys[i])|
    ensures TotalMetrics(fams) == |SG.Concatenated(items, keys)|
  {
    if fams != [] {
      TotalOfGroups(items, fams[..|fams| - 1], keys[..|keys| - 1]);
    }
  }
}
