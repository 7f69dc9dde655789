/** Identities and construction of cached clients over every run. */
module ServerClients {
  import opened Basics
  import opened Server
  import C = Clients
  import D = Descriptors

  /** Phases in which a request works with a client. */
  predicate NeedsClient(p: Phase) {
    p.Loading? || p.Fetching? || p.Storing? || p.Streaming? || p.Encoding?
  }

  // ---------- Identities ----------

  /** A key stands for its target, the empty key for the base credentials. */
  ghost predicate CacheMatches(m: map<string, Client>) {
    forall k :: k in m ==> m[k].identity == if k == "" then C.BaseCredentials else C.Impersonated(k)
  }

  /** The call's own target comes first, then the configured default, then the base credentials. */
  ghost predicate WorksAs(cfg: Config, call: Call, identity: C.Identity) {
    && (call.impersonateSA != "" ==> identity == C.Impersonated(call.impersonateSA))
    && (call.impersonateSA == "" && cfg.defaultSA != "" ==> identity == C.Impersonated(cfg.defaultSA))
    && (call.impersonateSA == "" && cfg.defaultSA == "" ==> identity == C.BaseCredentials)
  }

  ghost predicate RequestMatches(cfg: Config, r: Req) {
    && (NeedsClient(r.phase) ==> r.client.Some?)
    && (r.client.Some? ==> WorksAs(cfg, r.call, r.client.value.identity))
  }

  /** Every cached client has the identity of its key, and every request works as its own target or the default. */
  ghost predicate IdentitiesMatch(cfg: Config, s: State) {
    && CacheMatches(s.metricsClients)
    && CacheMatches(s.gmpClients)
    && forall id :: id in s.reqs ==> RequestMatches(cfg, s.reqs[id])
  }

  /** What an action does to clients: only Dial and CloseClients touch them. */
  lemma ClientsKept(cfg: Config, s: State, a: Action)
    requires Enabled(cfg, s, a) && !a.Dial? && !a.CloseClients?
    ensures var s' := Apply(cfg, s, a);
      && s'.metricsClients == s.metricsClients && s'.gmpClients == s.gmpClients
      && s'.nextClient == s.nextClient && s'.closed == s.closed
      && a.id in s'.reqs && s'.reqs == s.reqs[a.id := s'.reqs[a.id]]
      && (if a.id in s.reqs then
            && s'.reqs[a.id].client == s.reqs[a.id].client && s'.reqs[a.id].call == s.reqs[a.id].call
            && (NeedsClient(s'.reqs[a.id].phase) ==> NeedsClient(s.reqs[a.id].phase))
          else s'.reqs[a.id].client.None? && !NeedsClient(s'.reqs[a.id].phase))
  {
  }

  lemma IdentitiesDial(cfg: Config, s: State, id: nat, ok: bool)
    requires IdentitiesMatch(cfg, s) && In(s, id, Dialing)
    ensures IdentitiesMatch(cfg, AfterDial(cfg, s, id, ok))
  {
    assert RequestMatches(cfg, s.reqs[id]);
  }

  lemma IdentitiesStep(cfg: Config, s: State, a: Action)
    requires IdentitiesMatch(cfg, s) && Enabled(cfg, s, a)
    ensures IdentitiesMatch(cfg, Apply(cfg, s, a))
  {
    if a.Dial? {
      IdentitiesDial(cfg, s, a.id, a.ok);
    } else if !a.CloseClients? {
      ClientsKept(cfg, s, a);
    }
  }

  /**
   * In every state of every run each cached client's identity equals its key,
   * and a request works as its own impersonation target, else as the default,
   * else with the base credentials.
   */
  lemma {:induction false} IdentityInvariant(cfg: Config, run: Run, i: nat)
    requires IsRun(cfg, run) && i < |run.states|
    ensures IdentitiesMatch(cfg, run.states[i])
  {
    if i > 0 {
      IdentityInvariant(cfg, run, i - 1);
      assert IsStep(cfg, run.states[i - 1], run.actions[i - 1], run.states[i]);
      IdentitiesStep(cfg, run.states[i - 1], run.actions[i - 1]);
    }
  }

  // ---------- Whose client is whose ----------

  /** The client is cached or held by a request. */
  ghost predicate Known(s: State, c: Client) {
    || (exists k :: k in s.metricsClients && s.metricsClients[k] == c)
    || (exists k :: k in s.gmpClients && s.gmpClients[k] == c)
    || (exists id :: id in s.reqs && s.reqs[id].client == Some(c))
  }

  /** Step t constructed the client. */
  ghost predicate BuiltAt(cfg: Config, run: Run, t: nat, c: Client)
    requires IsRun(cfg, run)
  {
    && t < |run.actions| && run.actions[t].Dial? && run.actions[t].id in run.states[t].reqs
    && c.id == run.states[t].nextClient
    && c == NewClient(cfg, run.states[t], run.actions[t].id)
  }

  /** The client that dialling for request id constructs in state s. */
  function NewClient(cfg: Config, s: State, id: nat): Client
    requires id in s.reqs
  {
    Client(s.nextClient, C.IdentityFor(EffectiveSA(cfg, s.reqs[id].call), cfg.defaultSA))
  }

  lemma KnownBefore(cfg: Config, s: State, a: Action, c: Client)
    requires Enabled(cfg, s, a) && Known(Apply(cfg, s, a), c)
    ensures Known(s, c) || (a.Dial? && c == NewClient(cfg, s, a.id))
  {
    if !a.Dial? && !a.CloseClients? {
      ClientsKept(cfg, s, a);
    }
  }

  lemma {:induction false} KnownWasBuilt(cfg: Config, run: Run, i: nat, c: Client) returns (t: nat)
    requires IsRun(cfg, run) && i < |run.states| && Known(run.states[i], c)
    ensures BuiltAt(cfg, run, t, c)
  {
    assert i > 0;
    assert IsStep(cfg, run.states[i - 1], run.actions[i - 1], run.states[i]);
    KnownBefore(cfg, run.states[i - 1], run.actions[i - 1], c);
    if Known(run.states[i - 1], c) {
      t := KnownWasBuilt(cfg, run, i - 1, c);
    } else {
      t := i - 1;
    }
  }

  lemma NumberStep(cfg: Config, s: State, a: Action, s': State)
    requires IsStep(cfg, s, a, s')
    ensures s'.nextClient == s.nextClient + if a.Dial? then 1 else 0
  {
  }

  lemma {:induction false} Climb(numbers: seq<nat>, i: nat, j: nat)
    requires forall k :: 0 < k < |numbers| ==> numbers[k - 1] <= numbers[k]
    requires i <= j < |numbers|
    ensures numbers[i] <= numbers[j]
  {
    if i < j {
      Climb(numbers, i, j - 1);
    }
  }

  lemma NumbersGrow(cfg: Config, run: Run, i: nat, j: nat)
    requires IsRun(cfg, run) && i < j < |run.states|
    ensures run.states[i].nextClient + (if run.actions[i].Dial? then 1 else 0) <= run.states[j].nextClient
  {
    var numbers := seq(|run.states|, k requires 0 <= k < |run.states| => run.states[k].nextClient);
    forall k | 0 < k < |numbers| ensures numbers[k - 1] <= numbers[k] {
      NumberStep(cfg, run.states[k - 1], run.actions[k - 1], run.states[k]);
    }
    NumberStep(cfg, run.states[i], run.actions[i], run.states[i + 1]);
    Climb(numbers, i + 1, j);
    assert numbers[i + 1] == run.states[i + 1].nextClient && numbers[j] == run.states[j].nextClient;
  }

  /** A number is given to one client only, in all the states of a run. */
  lemma OneClientPerNumber(cfg: Config, run: Run, i: nat, c: Client, j: nat, d: Client)
    requires IsRun(cfg, run) && i < |run.states| && j < |run.states|
    requires Known(run.states[i], c) && Known(run.states[j], d)
    ensures c.id == d.id ==> c == d
  {
    var t := KnownWasBuilt(cfg, run, i, c);
    var u := KnownWasBuilt(cfg, run, j, d);
    if t < u {
      NumbersGrow(cfg, run, t, u);
    } else if u < t {
      NumbersGrow(cfg, run, u, t);
    }
  }

  /** Requests that name different targets never work with the same client, at no time of the run. */
  lemma TargetsNeverShareClient(cfg: Config, run: Run, i: nat, a: nat, j: nat, b: nat)
    requires IsRun(cfg, run) && i < |run.states| && j < |run.states|
    requires a in run.states[i].reqs && run.states[i].reqs[a].client.Some?
    requires b in run.states[j].reqs && run.states[j].reqs[b].client.Some?
    requires var sa, sb := run.states[i].reqs[a].call.impersonateSA, run.states[j].reqs[b].call.impersonateSA;
      sa != "" && sb != "" && sa != sb
    ensures run.states[i].reqs[a].client.value.id != run.states[j].reqs[b].client.value.id
  {
    IdentityInvariant(cfg, run, i);
    IdentityInvariant(cfg, run, j);
    var c, d := run.states[i].reqs[a].client.value, run.states[j].reqs[b].client.value;
    assert RequestMatches(cfg, run.states[i].reqs[a]) && RequestMatches(cfg, run.states[j].reqs[b]);
    assert Known(run.states[i], c) && Known(run.states[j], d);
    OneClientPerNumber(cfg, run, i, c, j, d);
  }

  /** A definite answer of the upstream is the answer to whoever the request's client works as. */
  lemma AskedAsClient(cfg: Config, run: Run, i: nat, id: nat, reply: D.Reply)
    requires IsRun(cfg, run) && i < |run.actions|
    requires run.actions[i] == Fetch(id, reply) && reply != D.Failed(D.OtherCode)
    ensures id in run.states[i].reqs && run.states[i].reqs[id].client.Some?
    ensures var r := run.states[i].reqs[id];
      var identity := r.client.value.identity;
      reply == cfg.answer(if identity.Impersonated? then identity.sa else "", r.call.project, r.call.metricType)
  {
    IdentityInvariant(cfg, run, i);
    assert IsStep(cfg, run.states[i], run.actions[i], run.states[i + 1]);
    assert RequestMatches(cfg, run.states[i].reqs[id]);
  }

  // ---------- Construction and closing ----------

  ghost predicate LiveClients(m: map<string, Client>, s: State) {
    && (forall k :: k in m ==> m[k].id < s.nextClient && s.closed[m[k].id] == 0)
    && (forall j, k :: j in m && k in m && m[j].id == m[k].id ==> j == k)
  }

  /** Live clients are all different, and no client is closed twice or used again by a cache after it was closed. */
  ghost predicate ClosedOnce(s: State) {
    && LiveClients(s.metricsClients, s)
    && LiveClients(s.gmpClients, s)
    && Ids(s.metricsClients) !! Ids(s.gmpClients)
    && forall c :: c in s.closed ==> s.closed[c] == 1 && c < s.nextClient
  }

  lemma ClosedOnceStep(cfg: Config, s: State, a: Action)
    requires ClosedOnce(s) && Enabled(cfg, s, a)
    ensures ClosedOnce(Apply(cfg, s, a))
  {
    if a.Dial? {
      DialStep(cfg, s, a.id, a.ok);
    } else if a.CloseClients? {
      CloseStep(cfg, s);
    } else {
      ClientsKept(cfg, s, a);
    }
  }

  /** Adding the next client keeps all clients of a cache live and different. */
  lemma InsertLive(m: map<string, Client>, s: State, s': State, k: string, c: Client)
    requires LiveClients(m, s) && s'.closed == s.closed && s'.nextClient == s.nextClient + 1
    requires c.id == s.nextClient && s.closed[c.id] == 0
    ensures LiveClients(m, s') && LiveClients(m[k := c], s')
    ensures Ids(m[k := c]) <= Ids(m) + {c.id} && c.id !in Ids(m)
  {
  }

  lemma InsertDisjoint(m: map<string, Client>, other: map<string, Client>, s: State, k: string, c: Client)
    requires LiveClients(other, s) && Ids(m) !! Ids(other) && c.id == s.nextClient
    ensures Ids(m[k := c]) !! Ids(other)
  {
    forall x | x in Ids(m[k := c]) ensures x !in Ids(other) {
      var j :| j in m[k := c] && m[k := c][j].id == x;
      if j != k {
        assert x in Ids(m);
      }
    }
  }

  lemma DialStep(cfg: Config, s: State, id: nat, ok: bool)
    requires ClosedOnce(s) && Enabled(cfg, s, Dial(id, ok))
    ensures ClosedOnce(AfterDial(cfg, s, id, ok))
  {
    var s', e := AfterDial(cfg, s, id, ok), s.reqs[id].call.endpoint;
    var sa := EffectiveSA(cfg, s.reqs[id].call);
    var c := Client(s.nextClient, C.IdentityFor(sa, cfg.defaultSA));
    assert s.closed[c.id] == 0;
    InsertLive(s.metricsClients, s, s', sa, c);
    InsertLive(s.gmpClients, s, s', sa, c);
    InsertDisjoint(s.metricsClients, s.gmpClients, s, sa, c);
    InsertDisjoint(s.gmpClients, s.metricsClients, s, sa, c);
  }

  lemma CloseStep(cfg: Config, s: State)
    requires ClosedOnce(s)
    ensures ClosedOnce(Apply(cfg, s, CloseClients))
  {
  }

  /** Over any run no client is closed twice. */
  lemma {:induction false} ClosedOnceInvariant(cfg: Config, run: Run, i: nat)
    requires IsRun(cfg, run) && i < |run.states|
    ensures ClosedOnce(run.states[i])
  {
    if i > 0 {
      ClosedOnceInvariant(cfg, run, i - 1);
      assert IsStep(cfg, run.states[i - 1], run.actions[i - 1], run.states[i]);
      ClosedOnceStep(cfg, run.states[i - 1], run.actions[i - 1]);
    }
  }

  /** The cache of e is not closed from state i on, before state j. */
  ghost predicate OpenBetween(run: Run, e: Endpoint, i: nat, j: nat)
    requires i <= j <= |run.actions|
  {
    e == METRICS ==> forall t :: i <= t < j ==> !run.actions[t].CloseClients?
  }

  /** Until it is closed, a cache only grows: no client is replaced. */
  lemma {:induction false} CacheGrows(cfg: Config, run: Run, e: Endpoint, i: nat, j: nat, k: string)
    requires IsRun(cfg, run) && i <= j < |run.states| && OpenBetween(run, e, i, j)
    requires k in ClientsOf(run.states[i], e)
    ensures k in ClientsOf(run.states[j], e) && ClientsOf(run.states[j], e)[k] == ClientsOf(run.states[i], e)[k]
    decreases j - i
  {
    if i < j {
      CacheGrows(cfg, run, e, i, j - 1, k);
      var s, a := run.states[j - 1], run.actions[j - 1];
      assert IsStep(cfg, s, a, run.states[j]);
      if !a.Dial? && !a.CloseClients? {
        ClientsKept(cfg, s, a);
      }
    }
  }

  /** At step i request id, on endpoint e and for target sa, got a client. */
  ghost predicate Dialed(cfg: Config, run: Run, i: nat, id: nat, e: Endpoint, sa: string)
    requires IsRun(cfg, run)
  {
    && i < |run.actions|
    && run.actions[i].Dial? && run.actions[i].id == id
    && HasClient(run.states[i + 1], id)
    && run.states[i + 1].reqs[id].call.endpoint == e
    && EffectiveSA(cfg, run.states[i + 1].reqs[id].call) == sa
  }

  /** The request works with a client. */
  ghost predicate HasClient(s: State, id: nat) {
    id in s.reqs && s.reqs[id].client.Some? && !s.reqs[id].phase.Exiting?
  }

  lemma DialedIsCached(cfg: Config, run: Run, i: nat, id: nat, e: Endpoint, sa: string)
    requires IsRun(cfg, run) && Dialed(cfg, run, i, id, e, sa)
    ensures var s := run.states[i + 1];
      sa in ClientsOf(s, e) && s.reqs[id].client == Some(ClientsOf(s, e)[sa])
  {
    assert IsStep(cfg, run.states[i], run.actions[i], run.states[i + 1]);
  }

  /**
   * Until the cache is closed, all requests of one endpoint with the same
   * effective target get the very same client, so it is constructed once.
   */
  lemma SameClientUntilClose(
    cfg: Config, run: Run, i: nat, a: nat, j: nat, b: nat, e: Endpoint, sa: string)
    requires IsRun(cfg, run) && i < j
    requires Dialed(cfg, run, i, a, e, sa) && Dialed(cfg, run, j, b, e, sa)
    requires OpenBetween(run, e, i, j)
    ensures run.states[i + 1].reqs[a].client == run.states[j + 1].reqs[b].client
  {
    DialedIsCached(cfg, run, i, a, e, sa);
    DialedIsCached(cfg, run, j, b, e, sa);
    assert IsStep(cfg, run.states[j], run.actions[j], run.states[j + 1]);
    CacheGrows(cfg, run, e, i + 1, j + 1, sa);
  }
}
