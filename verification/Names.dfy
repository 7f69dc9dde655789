/**
 * Exported metric names of the two backends. A metric type is a sequence of
 * characters (Go ranges over the runes of valid UTF-8).
 */
module Names {

  /** Prepended to every exported name by both backends. */
  const METRIC_NAME_PREFIX := "gcp_"

  // ---------- Cloud Monitoring ----------

  function PromChar(c: char): char {
    if c == '/' || c == '.' || c == '-' then '_' else c
  }

  function PromName(metricType: string): string {
    METRIC_NAME_PREFIX + seq(|metricType|, i requires 0 <= i < |metricType| => PromChar(metricType[i]))
  }

  method PromMetricName(metricType: string) returns (b: string)
    ensures b == PromName(metricType)
    ensures |b| == 4 + |metricType| && b[..4] == "gcp_"
    ensures forall i :: 0 <= i < |metricType| ==>
      b[4 + i] == if metricType[i] in "/.-" then '_' else metricType[i]
  {
    b := METRIC_NAME_PREFIX;
    for i := 0 to |metricType|
      invariant b == PromName(metricType)[..|METRIC_NAME_PREFIX| + i]
    {
      match metricType[i] {
        case '/' => b := b + ['_'];
        case '.' => b := b + ['_'];
        case '-' => b := b + ['_'];
        case r => b := b + [r];
      }
    }
  }

  // ---------- Managed Prometheus ----------

  function GmpChar(c: char): char {
    if c == ':' then '_' else c
  }

  /** The name under which a sample called orig is exported. */
  function GmpName(orig: string): string {
    METRIC_NAME_PREFIX + seq(|orig|, i requires 0 <= i < |orig| => GmpChar(orig[i]))
  }

  lemma GmpNameSpelled(orig: string)
    ensures var b := GmpName(orig);
      && |b| == 4 + |orig| && b[..4] == "gcp_"
      && forall i :: 0 <= i < |orig| ==> b[4 + i] == if orig[i] == ':' then '_' else orig[i]
  {
  }

  predicate IsWordChar(c: char) {
    'a' <= c <= 'z' || 'A' <= c <= 'Z' || '0' <= c <= '9' || c == '_'
  }

  /**
   * The PromQL name Managed Prometheus gives a Cloud Monitoring metric type:
   * the first slash becomes a colon, every other special character an underscore.
   */
  function GmpForm(metricType: string): string {
    seq(|metricType|, i requires 0 <= i < |metricType| =>
      if metricType[i] == '/' && '/' !in metricType[..i] then ':'
      else if IsWordChar(metricType[i]) then metricType[i]
      else '_')
  }

  /** The colon of compute_googleapis_com:instance_cpu_utilization stands where the service name ends. */
  lemma GmpFormSpelled(service: string, path: string, i: nat)
    requires '/' !in service && i < |service + "/" + path|
    ensures var t := service + "/" + path;
      |GmpForm(t)| == |t| && GmpForm(t)[i] == if i == |service| then ':' else if IsWordChar(t[i]) then t[i] else '_'
  {
    var t := service + "/" + path;
    if i <= |service| {
      assert t[..i] == service[..i];
    } else {
      assert t[..i][|service|] == '/';
    }
  }

  // ---------- Agreement and collisions ----------

  predicate MetricTypeChar(c: char) {
    IsWordChar(c) || c == '/' || c == '.' || c == '-'
  }

  lemma AgreeAt(t: string, i: nat)
    requires i < |t|
    ensures |GmpName(GmpForm(t))| == |PromName(t)| == |METRIC_NAME_PREFIX| + |t|
    ensures GmpName(GmpForm(t))[|METRIC_NAME_PREFIX| + i] == PromName(t)[|METRIC_NAME_PREFIX| + i]
       <==> MetricTypeChar(t[i])
  {
  }

  /** Two names with the common prefix are equal when they agree position by position after it. */
  lemma EqualAfterPrefix(g: string, p: string)
    requires METRIC_NAME_PREFIX <= g && METRIC_NAME_PREFIX <= p && |g| == |p|
    requires forall i :: |METRIC_NAME_PREFIX| <= i < |g| ==> g[i] == p[i]
    ensures g == p
  {
    forall i | 0 <= i < |g| ensures g[i] == p[i] {
      if i < |METRIC_NAME_PREFIX| {
        assert g[i] == METRIC_NAME_PREFIX[i] == p[i];
      }
    }
  }

  /**
   * Both backends export a metric type under the same name exactly when it is
   * written in letters, digits, '_', '/', '.' and '-'.
   */
  lemma BackendsAgreeIff(t: string)
    ensures GmpName(GmpForm(t)) == PromName(t) <==> forall c :: c in t ==> MetricTypeChar(c)
  {
    var g, p, n := GmpName(GmpForm(t)), PromName(t), |METRIC_NAME_PREFIX|;
    if g == p {
      forall c | c in t ensures MetricTypeChar(c) {
        var i :| 0 <= i < |t| && t[i] == c;
        AgreeAt(t, i);
      }
    }
    if forall c :: c in t ==> MetricTypeChar(c) {
      forall i | n <= i < |g| ensures g[i] == p[i] {
        AgreeAt(t, i - n);
        assert t[i - n] in t;
      }
      EqualAfterPrefix(g, p);
    }
  }

  /** a and b differ only where both have a character of s. */
  ghost predicate EqualUpTo(a: string, b: string, s: set<char>) {
    && |a| == |b|
    && forall i :: 0 <= i < |a| ==> a[i] == b[i] || (a[i] in s && b[i] in s)
  }

  /** Two metric types collide exactly when they differ only by '/', '.', '-' and '_'. */
  lemma PromNamesCollideIff(a: string, b: string)
    ensures PromName(a) == PromName(b) <==> EqualUpTo(a, b, {'/', '.', '-', '_'})
  {
    var p, q, n := PromName(a), PromName(b), |METRIC_NAME_PREFIX|;
    if p == q {
      forall i | 0 <= i < |a| ensures a[i] == b[i] || (PromChar(a[i]) == PromChar(b[i]) == '_') {
        assert p[n + i] == q[n + i];
      }
    }
  }

  /** Two Managed Prometheus names merge exactly when they differ only by ':' and '_'. */
  lemma GmpNamesMergeIff(a: string, b: string)
    ensures GmpName(a) == GmpName(b) <==> EqualUpTo(a, b, {':', '_'})
  {
    var p, q, n := GmpName(a), GmpName(b), |METRIC_NAME_PREFIX|;
    if p == q {
      forall i | 0 <= i < |a| ensures a[i] == b[i] || (GmpChar(a[i]) == GmpChar(b[i]) == '_') {
        assert p[n + i] == q[n + i];
      }
    }
  }

  /** The grammar of Prometheus metric names: [a-zA-Z_:][a-zA-Z0-9_:]* . */
  ghost predicate ValidPrometheusName(s: string) {
    && s != []
    && !('0' <= s[0] <= '9')
    && forall c :: c in s ==> IsWordChar(c) || c == ':'
  }

  /**
   * The conversion yields a valid Prometheus name exactly when the metric type
   * holds nothing but metric type characters and colons.
   */
  lemma PromNameValidIff(t: string)
    ensures ValidPrometheusName(PromName(t)) <==> forall c :: c in t ==> MetricTypeChar(c) || c == ':'
  {
    var p, n := PromName(t), |METRIC_NAME_PREFIX|;
    if ValidPrometheusName(p) {
      forall c | c in t ensures MetricTypeChar(c) || c == ':' {
        var i :| 0 <= i < |t| && t[i] == c;
        assert p[n + i] in p;
      }
    }
    if forall c :: c in t ==> MetricTypeChar(c) || c == ':' {
      forall c | c in p ensures IsWordChar(c) || c == ':' {
        var i :| 0 <= i < |p| && p[i] == c;
        if i < n {
          assert c in METRIC_NAME_PREFIX;
        } else {
          assert t[i - n] in t;
        }
      }
    }
  }
}
