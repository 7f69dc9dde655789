/**
 * The descriptor cache over every interleaving. Load, the upstream call and
 * Store are separate steps, so any number of requests may be between them.
 */
module ServerUnits {
  import opened Basics
  import opened Descriptors
  import opened Server
  import opened ServerGate

  // ---------- One lookup undisturbed ----------

  /** The steps of one lookup, taken without any other step in between. */
  function Undisturbed(cfg: Config, s: State, id: nat, reply: Reply): State
    requires In(s, id, Loading) && (reply == Answer(cfg, s.reqs[id].call) || Transient(reply))
  {
    var s1 := Apply(cfg, s, Load(id));
    if KeyOf(s.reqs[id].call) in s.units then s1
    else
      var s2 := Apply(cfg, s1, Fetch(id, reply));
      if Transient(reply) then s2 else Apply(cfg, s2, Store(id))
  }

  /** They do what the lookup of the cache object does. */
  lemma UndisturbedIsSolo(cfg: Config, s: State, id: nat, reply: Reply)
    requires In(s, id, Loading) && (reply == Answer(cfg, s.reqs[id].call) || Transient(reply))
    ensures var (unit, asked, units) := SoloLookup(s.units, KeyOf(s.reqs[id].call), reply);
      var s' := Undisturbed(cfg, s, id, reply);
      && s'.units == units
      && In(s', id, Streaming) && s'.reqs[id].unit == Some(unit)
      && (asked <==> In(Apply(cfg, s, Load(id)), id, Fetching))
  {
  }

  // ---------- Agreement with an uncached lookup ----------

  /** The unit an uncached lookup for this call yields, leaving transient errors aside. */
  function TrueUnit(cfg: Config, call: Call): string {
    UnitOf(Answer(cfg, call))
  }

  /** The upstream's fixed answers are not transient. */
  ghost predicate FixedAnswers(cfg: Config) {
    forall call: Call :: !Transient(Answer(cfg, call))
  }

  /** A set of well-formed /metrics calls. */
  ghost predicate MetricsCalls(p: iset<Call>) {
    forall c :: c in p ==> c.endpoint.METRICS? && c.valid
  }

  /** Calls that share a cache key have the same unit. */
  ghost predicate Coherent(cfg: Config, p: iset<Call>) {
    forall c, d :: c in p && d in p && KeyOf(c) == KeyOf(d) ==> TrueUnit(cfg, c) == TrueUnit(cfg, d)
  }

  /** All well-formed /metrics requests of the run are among p. */
  ghost predicate Within(run: Run, p: iset<Call>) {
    forall i :: 0 <= i < |run.actions| ==> ArrivesWithin(run.actions[i], p)
  }

  ghost predicate ArrivesWithin(a: Action, p: iset<Call>) {
    a.Arrive? && a.call.endpoint.METRICS? && a.call.valid ==> a.call in p
  }

  /** The lookup returned what an uncached one would, or "" because its own RPC failed transiently. */
  ghost predicate ServedRight(cfg: Config, r: Req) {
    r.unit.Some? ==> r.unit.value == (if r.transient then "" else TrueUnit(cfg, r.call))
  }

  ghost predicate AllServedRight(cfg: Config, s: State) {
    forall id :: id in s.reqs ==> ServedRight(cfg, s.reqs[id])
  }

  /** The phases before the descriptor lookup has returned. */
  predicate BeforeUnit(p: Phase) {
    p.Waiting? || p.Parsing? || p.Dialing? || p.Loading? || p.Fetching? || p.Storing?
  }

  /** What the phase of a request says about its call and its lookup. */
  ghost predicate Shaped(r: Req) {
    && (r.phase.Loading? || r.phase.Fetching? || r.phase.Storing? ==> r.call.endpoint.METRICS?)
    && (r.phase.Dialing? || r.phase.Loading? || r.phase.Fetching? || r.phase.Storing? ==> r.call.valid)
    && (BeforeUnit(r.phase) ==> !r.transient)
  }

  /** From parsing on, a request of /metrics is one of p; what it found and served is right. */
  ghost predicate RequestFits(cfg: Config, p: iset<Call>, r: Req) {
    && (r.call.endpoint.METRICS? && r.call.valid ==> r.call in p)
    && Shaped(r)
    && (r.phase.Storing? ==> r.phase.found == TrueUnit(cfg, r.call))
    && ServedRight(cfg, r)
  }

  /** Every stored unit is the true unit of each call with its key. */
  ghost predicate UnitsRight(cfg: Config, p: iset<Call>, units: map<string, string>) {
    forall c :: c in p && KeyOf(c) in units ==> units[KeyOf(c)] == TrueUnit(cfg, c)
  }

  ghost predicate Fits(cfg: Config, p: iset<Call>, s: State) {
    UnitsRight(cfg, p, s.units) && forall id :: id in s.reqs ==> RequestFits(cfg, p, s.reqs[id])
  }

  lemma ShapeStep(cfg: Config, s: State, a: Action)
    requires Enabled(cfg, s, a) && !a.CloseClients? && (a.id in s.reqs ==> Shaped(s.reqs[a.id]))
    ensures a.id in Apply(cfg, s, a).reqs && Shaped(Apply(cfg, s, a).reqs[a.id])
  {
  }

  /** How an action settles what its request found and served. */
  lemma UnitMoves(cfg: Config, s: State, a: Action)
    requires Enabled(cfg, s, a) && !a.CloseClients?
    ensures a.id in Apply(cfg, s, a).reqs
    ensures var r := Apply(cfg, s, a).reqs[a.id];
      match a
      case Arrive(_, call) => r.call == call && r.unit.None? && !r.phase.Storing?
      case Load(id) => (
        && r.call == s.reqs[id].call && r.transient == s.reqs[id].transient && !r.phase.Storing?
        && r.unit == if KeyOf(r.call) in s.units then Some(s.units[KeyOf(r.call)]) else s.reqs[id].unit)
      case Fetch(id, reply) => (
        && r.call == s.reqs[id].call
        && if Transient(reply) then r.unit == Some("") && r.transient && !r.phase.Storing?
           else r.phase == Storing(UnitOf(reply)) && r.unit == s.reqs[id].unit && r.transient == s.reqs[id].transient)
      case Store(id) => (
        && r.call == s.reqs[id].call && r.transient == s.reqs[id].transient && !r.phase.Storing?
        && r.unit == Some(s.reqs[id].phase.found))
      case _ => (
        && a.id in s.reqs && r.call == s.reqs[a.id].call && !r.phase.Storing?
        && r.unit == s.reqs[a.id].unit && r.transient == s.reqs[a.id].transient)
  {
  }

  lemma RequestStep(cfg: Config, p: iset<Call>, s: State, a: Action)
    requires FixedAnswers(cfg) && Fits(cfg, p, s) && Enabled(cfg, s, a) && ArrivesWithin(a, p)
    requires !a.CloseClients?
    ensures a.id in Apply(cfg, s, a).reqs && RequestFits(cfg, p, Apply(cfg, s, a).reqs[a.id])
  {
    ShapeStep(cfg, s, a);
    UnitMoves(cfg, s, a);
    if a.id in s.reqs {
      assert RequestFits(cfg, p, s.reqs[a.id]);
      assert !Transient(Answer(cfg, s.reqs[a.id].call));
    }
  }

  lemma UnitsStep(cfg: Config, p: iset<Call>, s: State, a: Action)
    requires Coherent(cfg, p) && Fits(cfg, p, s) && Enabled(cfg, s, a)
    ensures UnitsRight(cfg, p, Apply(cfg, s, a).units)
    ensures forall k :: k in s.units ==> k in Apply(cfg, s, a).units && Apply(cfg, s, a).units[k] == s.units[k]
  {
    if a.Store? {
      var r := s.reqs[a.id];
      assert RequestFits(cfg, p, r);
      forall c | c in p && KeyOf(c) == KeyOf(r.call) ensures TrueUnit(cfg, c) == r.phase.found {
      }
    }
  }

  lemma FitsStep(cfg: Config, p: iset<Call>, s: State, a: Action)
    requires FixedAnswers(cfg) && Coherent(cfg, p) && Fits(cfg, p, s)
    requires Enabled(cfg, s, a) && ArrivesWithin(a, p)
    ensures Fits(cfg, p, Apply(cfg, s, a))
  {
    UnitsStep(cfg, p, s, a);
    if !a.CloseClients? {
      RequestStep(cfg, p, s, a);
      GateMoves(cfg, s, a);
    }
  }

  lemma {:induction false} FitsInvariant(cfg: Config, p: iset<Call>, run: Run, i: nat)
    requires FixedAnswers(cfg) && Coherent(cfg, p)
    requires IsRun(cfg, run) && Within(run, p) && i < |run.states|
    ensures Fits(cfg, p, run.states[i])
  {
    if i > 0 {
      FitsInvariant(cfg, p, run, i - 1);
      assert IsStep(cfg, run.states[i - 1], run.actions[i - 1], run.states[i]);
      assert ArrivesWithin(run.actions[i - 1], p);
      FitsStep(cfg, p, run.states[i - 1], run.actions[i - 1]);
    }
  }

  lemma UnitStays(cfg: Config, p: iset<Call>, run: Run, i: nat, key: string)
    requires FixedAnswers(cfg) && Coherent(cfg, p)
    requires IsRun(cfg, run) && Within(run, p) && i < |run.actions| && key in run.states[i].units
    ensures key in run.states[i + 1].units && run.states[i + 1].units[key] == run.states[i].units[key]
  {
    FitsInvariant(cfg, p, run, i);
    assert IsStep(cfg, run.states[i], run.actions[i], run.states[i + 1]);
    UnitsStep(cfg, p, run.states[i], run.actions[i]);
  }

  lemma {:induction false} UnitsStay(cfg: Config, p: iset<Call>, run: Run, i: nat, j: nat, key: string)
    requires FixedAnswers(cfg) && Coherent(cfg, p)
    requires IsRun(cfg, run) && Within(run, p) && i <= j < |run.states| && key in run.states[i].units
    ensures key in run.states[j].units && run.states[j].units[key] == run.states[i].units[key]
    decreases j - i
  {
    if i < j {
      UnitsStay(cfg, p, run, i, j - 1, key);
      UnitStays(cfg, p, run, j - 1, key);
    }
  }

  /** A stored unit is the true unit of every call with its key, whichever request stored it, and stays for good. */
  lemma StoredUnitsArePermanent(cfg: Config, p: iset<Call>, run: Run, i: nat, j: nat, call: Call)
    requires FixedAnswers(cfg) && Coherent(cfg, p)
    requires IsRun(cfg, run) && Within(run, p) && i <= j < |run.states|
    requires call in p && KeyOf(call) in run.states[i].units
    ensures KeyOf(call) in run.states[j].units
    ensures run.states[j].units[KeyOf(call)] == run.states[i].units[KeyOf(call)] == TrueUnit(cfg, call)
  {
    FitsInvariant(cfg, p, run, i);
    UnitsStay(cfg, p, run, i, j, KeyOf(call));
  }

  // ---------- When the cache is wrong ----------

  /** A run among the given calls. */
  ghost predicate Continues(cfg: Config, p: iset<Call>, run: Run) {
    IsRun(cfg, run) && Within(run, p)
  }

  lemma Continue(cfg: Config, p: iset<Call>, run: Run, a: Action) returns (run': Run)
    requires Continues(cfg, p, run) && ArrivesWithin(a, p)
    requires Enabled(cfg, run.states[|run.states| - 1], a)
    ensures Continues(cfg, p, run')
    ensures run'.states[|run'.states| - 1] == Apply(cfg, run.states[|run.states| - 1], a)
  {
    run' := Extend(cfg, run, a);
    ExtendIsRun(cfg, run, a);
    forall i | 0 <= i < |run'.actions| ensures ArrivesWithin(run'.actions[i], p) {
      assert i < |run.actions| ==> ArrivesWithin(run.actions[i], p);
    }
  }

  /** Brings a new request up to its cache load. */
  lemma ReachLoad(cfg: Config, p: iset<Call>, run: Run, id: nat, call: Call) returns (run': Run)
    requires Continues(cfg, p, run) && call in p && MetricsCalls(p)
    requires id !in Last(run).reqs && Last(run).metricsHeld < cfg.maxConcurrent
    ensures Continues(cfg, p, run')
    ensures In(Last(run'), id, Loading) && Last(run').reqs[id].call == call && Last(run').reqs[id].unit.None?
    ensures !Last(run').reqs[id].transient
    ensures Last(run').units == Last(run).units && Last(run').metricsHeld == Last(run).metricsHeld + 1
    ensures Last(run').reqs.Keys == Last(run).reqs.Keys + {id}
  {
    run' := Continue(cfg, p, run, Arrive(id, call));
    run' := Continue(cfg, p, run', Admit(id));
    run' := Continue(cfg, p, run', Parse(id));
    run' := Continue(cfg, p, run', Dial(id, true));
  }

  /** Lets a request at its load miss the cache and store the upstream's answer. */
  lemma MissAndStore(cfg: Config, p: iset<Call>, run: Run, id: nat) returns (run': Run)
    requires Continues(cfg, p, run) && FixedAnswers(cfg)
    requires In(Last(run), id, Loading) && KeyOf(Last(run).reqs[id].call) !in Last(run).units
    ensures Continues(cfg, p, run')
    ensures var call := Last(run).reqs[id].call;
      Last(run').units == Last(run).units[KeyOf(call) := TrueUnit(cfg, call)]
    ensures In(Last(run'), id, Streaming) && Last(run').reqs[id].call == Last(run).reqs[id].call
    ensures Last(run').metricsHeld == Last(run).metricsHeld && Last(run').reqs.Keys == Last(run).reqs.Keys
  {
    var call := Last(run).reqs[id].call;
    assert !Transient(Answer(cfg, call));
    run' := Continue(cfg, p, run, Load(id));
    run' := Continue(cfg, p, run', Fetch(id, Answer(cfg, call)));
    run' := Continue(cfg, p, run', Store(id));
  }

  /** Lets a request of /metrics finish after its lookup. */
  lemma Finish(cfg: Config, p: iset<Call>, run: Run, id: nat) returns (run': Run)
    requires Continues(cfg, p, run)
    requires In(Last(run), id, Streaming) && Last(run).reqs[id].call.endpoint.METRICS?
    requires Last(run).metricsHeld > 0
    ensures Continues(cfg, p, run')
    ensures Last(run').units == Last(run).units
    ensures Last(run').metricsHeld == Last(run).metricsHeld - 1 && Last(run').reqs.Keys == Last(run).reqs.Keys
  {
    run' := Continue(cfg, p, run, EndCollect(id, true));
    run' := Continue(cfg, p, run', Encode(id, true));
    run' := Continue(cfg, p, run', Release(id));
  }

  /** Two calls with one key but different units: the second is served the first one's unit. */
  lemma IncoherentCallsMisserve(cfg: Config, p: iset<Call>, c: Call, d: Call) returns (run: Run)
    requires FixedAnswers(cfg) && MetricsCalls(p) && cfg.maxConcurrent > 0
    requires c in p && d in p && KeyOf(c) == KeyOf(d) && TrueUnit(cfg, c) != TrueUnit(cfg, d)
    ensures Continues(cfg, p, run) && !AllServedRight(cfg, Last(run))
  {
    run := Run([Init], []);
    run := ReachLoad(cfg, p, run, 0, c);
    run := MissAndStore(cfg, p, run, 0);
    run := Finish(cfg, p, run, 0);
    run := ReachLoad(cfg, p, run, 1, d);
    run := Continue(cfg, p, run, Load(1));
    assert !ServedRight(cfg, Last(run).reqs[1]);
  }

  /**
   * The cache agrees with asking the upstream every time, in every
   * interleaving of any number of requests, if and only if no two possible
   * calls share a key but not a unit.
   */
  lemma CacheRefinesUpstreamIff(cfg: Config, p: iset<Call>)
    requires FixedAnswers(cfg) && MetricsCalls(p) && cfg.maxConcurrent > 0
    ensures (forall run: Run, i: nat :: IsRun(cfg, run) && Within(run, p) && i < |run.states| ==>
               AllServedRight(cfg, run.states[i]))
       <==> Coherent(cfg, p)
  {
    if Coherent(cfg, p) {
      forall run: Run, i: nat | IsRun(cfg, run) && Within(run, p) && i < |run.states|
        ensures AllServedRight(cfg, run.states[i])
      {
        FitsInvariant(cfg, p, run, i);
      }
    } else {
      var c, d :| c in p && d in p && KeyOf(c) == KeyOf(d) && TrueUnit(cfg, c) != TrueUnit(cfg, d);
      var run := IncoherentCallsMisserve(cfg, p, c, d);
      assert IsRun(cfg, run) && Within(run, p) && !AllServedRight(cfg, run.states[|run.states| - 1]);
    }
  }

  /** Coherence holds when no project holds the separator and answers do not depend on who asks. */
  lemma SeparatorFreeIsCoherent(cfg: Config, p: iset<Call>)
    requires forall c :: c in p ==> '|' !in c.project
    requires forall c, d :: c in p && d in p && c.project == d.project && c.metricType == d.metricType ==>
      TrueUnit(cfg, c) == TrueUnit(cfg, d)
    ensures Coherent(cfg, p)
  {
    forall c, d | c in p && d in p && KeyOf(c) == KeyOf(d) ensures TrueUnit(cfg, c) == TrueUnit(cfg, d) {
      KeysInjective(c.project, c.metricType, d.project, d.metricType);
    }
  }

  /**
   * The key ignores the impersonation target: when one target may not read the
   * descriptor and another may, two scrapes of one metric already disagree.
   */
  lemma DeniedTargetHidesUnit(project: string, metricType: string)
    ensures exists run: Run ::
              IsRun(DenyingConfig(), run) && Within(run, TwoTargets(project, metricType))
              && !AllServedRight(DenyingConfig(), Last(run))
  {
    var run := IncoherentCallsMisserve(DenyingConfig(), TwoTargets(project, metricType),
      Call(METRICS, true, "denied", project, metricType), Call(METRICS, true, "granted", project, metricType));
  }

  /** One target may not read descriptors, all others may. */
  function DenyingConfig(): Config {
    Config(1, "", (sa: string, q: string, m: string) =>
      if sa == "denied" then Failed(PermissionDenied) else Descriptor("By"))
  }

  ghost function TwoTargets(project: string, metricType: string): iset<Call> {
    iset{Call(METRICS, true, "denied", project, metricType), Call(METRICS, true, "granted", project, metricType)}
  }

  /** A project that holds the separator is served the unit of another project's metric. */
  lemma SeparatorMisserves()
    ensures exists run: Run ::
              IsRun(TwoUnitsConfig(), run) && Within(run, StraddlingCalls())
              && !AllServedRight(TwoUnitsConfig(), Last(run))
  {
    var c, d := Call(METRICS, true, "", "a", "b|m"), Call(METRICS, true, "", "a|b", "m");
    assert DescriptorKey("a", "b|m") == "a|b|m" == DescriptorKey("a|b", "m");
    assert "a" != "a|b" by {
      assert |"a"| != |"a|b"|;
    }
    var run := IncoherentCallsMisserve(TwoUnitsConfig(), StraddlingCalls(), c, d);
  }

  /** The metrics of project a are in bytes, all others in seconds. */
  function TwoUnitsConfig(): Config {
    Config(1, "", (sa: string, project: string, m: string) => Descriptor(if project == "a" then "By" else "s"))
  }

  ghost function StraddlingCalls(): iset<Call> {
    iset{Call(METRICS, true, "", "a", "b|m"), Call(METRICS, true, "", "a|b", "m")}
  }

  // ---------- How many lookups can still be made ----------

  /** The requests that found no entry for key and have not asked the upstream yet. */
  ghost function PastLoad(s: State, key: string): set<nat> {
    set id | id in s.reqs && s.reqs[id].phase.Fetching? && KeyOf(s.reqs[id].call) == key
  }

  /** The action asks the upstream for key. */
  ghost predicate AsksFor(s: State, a: Action, key: string) {
    a.Fetch? && a.id in s.reqs && KeyOf(s.reqs[a.id].call) == key
  }

  /** The upstream calls for key from state i to state j. */
  ghost function Asked(run: Run, i: nat, j: nat, key: string): nat
    requires i <= j <= |run.actions| && j < |run.states|
    decreases j - i
  {
    if i == j then 0
    else Asked(run, i + 1, j, key) + if AsksFor(run.states[i], run.actions[i], key) then 1 else 0
  }

  /** Once a key is cached, it stays cached, no request newly passes its load, and every lookup uses one up. */
  lemma PastLoadShrinks(cfg: Config, s: State, a: Action, key: string)
    requires Enabled(cfg, s, a) && key in s.units
    ensures key in Apply(cfg, s, a).units
    ensures PastLoad(Apply(cfg, s, a), key) <= PastLoad(s, key)
    ensures AsksFor(s, a, key) ==>
      a.id in PastLoad(s, key) && PastLoad(Apply(cfg, s, a), key) <= PastLoad(s, key) - {a.id}
  {
    var s' := Apply(cfg, s, a);
    if !a.CloseClients? {
      GateMoves(cfg, s, a);
      OnlyMissesFetch(cfg, s, a);
    }
  }

  /** A request is about to ask the upstream only after a load that missed. */
  lemma OnlyMissesFetch(cfg: Config, s: State, a: Action)
    requires Enabled(cfg, s, a) && !a.CloseClients?
    ensures var s' := Apply(cfg, s, a);
      a.id in s'.reqs && s'.reqs[a.id].phase.Fetching? ==>
        && a.Load? && a.id in s.reqs && s'.reqs[a.id].call == s.reqs[a.id].call
        && KeyOf(s.reqs[a.id].call) !in s.units
  {
  }

  lemma SmallerSet(a: set<nat>, b: set<nat>)
    requires a <= b
    ensures |a| <= |b|
  {
    assert b == a + (b - a);
  }

  /** After a key is cached, only the calls already past their load can still ask the upstream for it. */
  lemma {:induction false} LookupsAfterCaching(cfg: Config, run: Run, i: nat, j: nat, key: string)
    requires IsRun(cfg, run) && i <= j < |run.states| && key in run.states[i].units
    ensures Asked(run, i, j, key) <= |PastLoad(run.states[i], key)|
    decreases j - i
  {
    if i < j {
      var s, a := run.states[i], run.actions[i];
      assert IsStep(cfg, s, a, run.states[i + 1]);
      PastLoadShrinks(cfg, s, a, key);
      LookupsAfterCaching(cfg, run, i + 1, j, key);
      if AsksFor(s, a, key) {
        SmallerSet(PastLoad(run.states[i + 1], key), PastLoad(s, key) - {a.id});
      } else {
        SmallerSet(PastLoad(run.states[i + 1], key), PastLoad(s, key));
      }
    }
  }

  /** Only requests of /metrics reach the descriptor cache. */
  lemma {:induction false} OnlyMetricsLoad(cfg: Config, run: Run, i: nat, id: nat)
    requires IsRun(cfg, run) && i < |run.states| && id in run.states[i].reqs
    ensures var r := run.states[i].reqs[id];
      r.phase.Loading? || r.phase.Fetching? || r.phase.Storing? ==> r.call.endpoint.METRICS?
  {
    if i > 0 {
      assert IsStep(cfg, run.states[i - 1], run.actions[i - 1], run.states[i]);
      if id in run.states[i - 1].reqs {
        OnlyMetricsLoad(cfg, run, i - 1, id);
        OthersUnchanged(cfg, run.states[i - 1], run.actions[i - 1], id);
      }
    }
  }

  /**
   * The gate bounds the duplicate work of the non-atomic cache: from the step
   * that stores a key on, at most maxConcurrent - 1 further upstream calls are
   * made for it, however long the run goes on.
   */
  lemma LookupsAfterStoreBounded(cfg: Config, run: Run, i: nat, j: nat, id: nat)
    requires IsRun(cfg, run) && i < j < |run.states| && run.actions[i] == Store(id)
    ensures id in run.states[i].reqs
    ensures Asked(run, i + 1, j, KeyOf(run.states[i].reqs[id].call)) <= cfg.maxConcurrent - 1
  {
    assert IsStep(cfg, run.states[i], run.actions[i], run.states[i + 1]);
    var s, key := run.states[i + 1], KeyOf(run.states[i].reqs[id].call);
    LookupsAfterCaching(cfg, run, i + 1, j, key);
    GateInvariant(cfg, run, i + 1);
    OnlyMetricsLoad(cfg, run, i, id);
    forall x | x in PastLoad(s, key) ensures x in Holders(s, METRICS) - {id} {
      OnlyMetricsLoad(cfg, run, i + 1, x);
    }
    assert id in Holders(s, METRICS);
    SmallerSet(PastLoad(s, key), Holders(s, METRICS) - {id});
    assert Held(s, METRICS) == |Holders(s, METRICS)|;
  }
}
