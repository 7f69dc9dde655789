/**
 * The cache of metric-descriptor units. Loads and stores are atomic; the lookup
 * between them is not. Here one caller runs alone; module ServerUnits treats
 * any number of interleaved callers.
 */
module Descriptors {
  import opened Basics

  datatype Code = NotFound | PermissionDenied | Unimplemented | OtherCode

  /** The answer of GetMetricDescriptor. */
  datatype Reply = Descriptor(unit: string) | Failed(code: Code)

  /** The errors that are not cached, so that a later scrape asks again. */
  predicate Transient(r: Reply) {
    r.Failed? && r.code.OtherCode?
  }

  /** The unit an uncached lookup yields. */
  function UnitOf(r: Reply): string {
    if r.Descriptor? then r.unit else ""
  }

  // ---------- Keys ----------

  function DescriptorKey(project: string, metricType: string): string {
    project + "|" + metricType
  }

  /** project q continues p past a separator, and p's metric type makes up for it. */
  ghost predicate Straddles(p: string, m: string, q: string, n: string) {
    exists s: string :: q == p + "|" + s && m == s + "|" + n
  }

  lemma LongerProjectStraddles(p: string, m: string, q: string, n: string)
    requires DescriptorKey(p, m) == DescriptorKey(q, n) && |p| < |q|
    ensures Straddles(p, m, q, n)
  {
    var k, s := DescriptorKey(p, m), q[|p| + 1..];
    assert k == DescriptorKey(q, n);
    assert k[..|q|] == q && k[..|p|] == p && k[|p|] == '|';
    assert q[..|p|] == k[..|q|][..|p|] == k[..|p|];
    assert q[|p|] == k[|p|];
    assert q == p + "|" + s;
    assert m == k[|p| + 1..];
    assert k[|p| + 1..] == s + "|" + n;
  }

  lemma StraddlingKeysCollide(p: string, m: string, q: string, n: string)
    requires Straddles(p, m, q, n)
    ensures DescriptorKey(p, m) == DescriptorKey(q, n)
  {
    var s :| q == p + "|" + s && m == s + "|" + n;
    assert p + "|" + (s + "|" + n) == (p + "|" + s) + "|" + n;
  }

  /** Two lookups share a key exactly when they are equal or one project straddles the separator of the other. */
  lemma KeysCollideIff(p: string, m: string, q: string, n: string)
    ensures DescriptorKey(p, m) == DescriptorKey(q, n)
       <==> (p == q && m == n) || Straddles(p, m, q, n) || Straddles(q, n, p, m)
  {
    if DescriptorKey(p, m) == DescriptorKey(q, n) {
      if |p| < |q| {
        LongerProjectStraddles(p, m, q, n);
      } else if |q| < |p| {
        LongerProjectStraddles(q, n, p, m);
      } else {
        assert DescriptorKey(p, m)[..|p|] == p && DescriptorKey(q, n)[..|q|] == q;
        assert DescriptorKey(p, m)[|p| + 1..] == m && DescriptorKey(q, n)[|q| + 1..] == n;
      }
    }
    if Straddles(p, m, q, n) {
      StraddlingKeysCollide(p, m, q, n);
    }
    if Straddles(q, n, p, m) {
      StraddlingKeysCollide(q, n, p, m);
    }
  }

  /** Without a separator in the project no two lookups collide. */
  lemma KeysInjective(p: string, m: string, q: string, n: string)
    requires '|' !in p && '|' !in q
    ensures DescriptorKey(p, m) == DescriptorKey(q, n) <==> p == q && m == n
  {
    KeysCollideIff(p, m, q, n);
    forall s: string ensures '|' in p + "|" + s && '|' in q + "|" + s {
      assert (p + "|" + s)[|p|] == '|' && (q + "|" + s)[|q|] == '|';
    }
  }

  // ---------- The cache, one caller at a time ----------

  /** What an undisturbed lookup returns, whether it asks the upstream, and the cache it leaves. */
  function SoloLookup(units: map<string, string>, key: string, reply: Reply): (string, bool, map<string, string>) {
    if key in units then (units[key], false, units)
    else (UnitOf(reply), true, if Transient(reply) then units else units[key := UnitOf(reply)])
  }

  class DescriptorCache {
    var units: map<string, string>

    constructor ()
      ensures units == map[]
    {
      units := map[];
    }

    method Load(key: string) returns (r: Option<string>)
      ensures r == if key in units then Some(units[key]) else None
    {
      r := if key in units then Some(units[key]) else None;
    }

    method Store(key: string, unit: string)
      modifies this
      ensures units == old(units)[key := unit]
    {
      units := units[key := unit];
    }

    /** reply is what GetMetricDescriptor answers if it is asked; asked says whether it was. */
    method Unit(project: string, metricType: string, reply: Reply) returns (unit: string, asked: bool)
      modifies this
      ensures (unit, asked, units) == SoloLookup(old(units), DescriptorKey(project, metricType), reply)
      ensures var key := project + "|" + metricType;
        if key in old(units) then
          !asked && unit == old(units)[key] && units == old(units)
        else
          asked && match reply
                   case Descriptor(u) => unit == u && units == old(units)[key := u]
                   case Failed(OtherCode) => unit == "" && units == old(units)
                   case Failed(_) => unit == "" && units == old(units)[key := ""]
    {
      var key := DescriptorKey(project, metricType);
      var cached := Load(key);
      if cached.Some? {
        return cached.value, false;
      }
      if reply.Failed? {
        match reply.code {
          case NotFound => Store(key, "");
          case PermissionDenied => Store(key, "");
          case Unimplemented => Store(key, "");
          case OtherCode =>
        }
        return "", true;
      }
      Store(key, reply.unit);
      return reply.unit, true;
    }
  }
}
