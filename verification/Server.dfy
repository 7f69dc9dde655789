/**
 * The wired program as one transition system: any number of requests to both
 * endpoints, each endpoint's concurrency gate, both client caches and the
 * descriptor cache. Every action is one atomic step of one request, so a run
 * is an arbitrary interleaving.
 */
module Server {
  import opened Basics
  import opened Descriptors
  import C = Clients

  datatype Endpoint = METRICS | GMP

  /** An inbound request; valid says whether its parameters parse. */
  datatype Call = Call(
    endpoint: Endpoint, valid: bool, impersonateSA: string, project: string, metricType: string)

  datatype Client = Client(id: nat, identity: C.Identity)

  datatype Status = TooManyRequests | BadParams | NoClient | CollectFailed | Served | Truncated

  /** Where a request is. Everything strictly between Waiting and Finished holds a token. */
  datatype Phase =
    | Waiting
    | Parsing
    | Dialing
    | Loading
    | Fetching
    | Storing(found: string)
    | Streaming
    | Encoding
    | Exiting
    | Finished

  /** unit is what the descriptor lookup returned; transient says that its own RPC failed transiently. */
  datatype Req = Req(
    call: Call, phase: Phase, client: Option<Client>, unit: Option<string>, transient: bool,
    status: Option<Status>)

  /** The gate's size, the default impersonation target, and what GetMetricDescriptor answers whom. */
  datatype Config = Config(
    maxConcurrent: nat, defaultSA: string, answer: (string, string, string) -> Reply)

  datatype State = State(
    reqs: map<nat, Req>,
    metricsHeld: nat, gmpHeld: nat,
    metricsClients: map<string, Client>, gmpClients: map<string, Client>,
    units: map<string, string>,
    nextClient: nat, closed: multiset<nat>)

  datatype Action =
    | Arrive(id: nat, call: Call)
    | Admit(id: nat)
    | Reject(id: nat)
    | Parse(id: nat)
    | Dial(id: nat, ok: bool)
    | FailBuild(id: nat)
    | Load(id: nat)
    | Fetch(id: nat, reply: Reply)
    | Store(id: nat)
    | EndCollect(id: nat, ok: bool)
    | Encode(id: nat, ok: bool)
    | Release(id: nat)
    | CloseClients

  // ---------- Reading the state ----------

  const Init := State(map[], 0, 0, map[], map[], map[], 0, multiset{})

  function Held(s: State, e: Endpoint): nat {
    if e == METRICS then s.metricsHeld else s.gmpHeld
  }

  function ClientsOf(s: State, e: Endpoint): map<string, Client> {
    if e == METRICS then s.metricsClients else s.gmpClients
  }

  /** The request's own impersonation target, else the default. */
  function EffectiveSA(cfg: Config, call: Call): string {
    if call.impersonateSA == "" then cfg.defaultSA else call.impersonateSA
  }

  function KeyOf(call: Call): string {
    DescriptorKey(call.project, call.metricType)
  }

  /** The fixed answer of the upstream to this call's descriptor lookup, leaving transient errors aside. */
  function Answer(cfg: Config, call: Call): Reply {
    cfg.answer(EffectiveSA(cfg, call), call.project, call.metricType)
  }

  predicate Holding(r: Req) {
    !r.phase.Waiting? && !r.phase.Finished?
  }

  predicate In(s: State, id: nat, p: Phase) {
    id in s.reqs && s.reqs[id].phase == p
  }

  // ---------- Steps ----------

  /** Which actions are possible. The gate never blocks: it admits or rejects at once. */
  predicate Enabled(cfg: Config, s: State, a: Action) {
    match a
    case Arrive(id, _) => id !in s.reqs
    case Admit(id) => In(s, id, Waiting) && Held(s, s.reqs[id].call.endpoint) < cfg.maxConcurrent
    case Reject(id) => In(s, id, Waiting) && Held(s, s.reqs[id].call.endpoint) == cfg.maxConcurrent
    case Parse(id) => In(s, id, Parsing)
    case Dial(id, _) => In(s, id, Dialing)
    case FailBuild(id) => In(s, id, Loading)
    case Load(id) => In(s, id, Loading)
    case Fetch(id, reply) => In(s, id, Fetching) && (reply == Answer(cfg, s.reqs[id].call) || Transient(reply))
    case Store(id) => id in s.reqs && s.reqs[id].phase.Storing?
    case EndCollect(id, _) => In(s, id, Streaming)
    case Encode(id, _) => In(s, id, Encoding)
    case Release(id) => In(s, id, Exiting)
    case CloseClients => true
  }

  function SetReq(s: State, id: nat, r: Req): State {
    s.(reqs := s.reqs[id := r])
  }

  function SetHeld(s: State, e: Endpoint, n: nat): State {
    if e == METRICS then s.(metricsHeld := n) else s.(gmpHeld := n)
  }

  function SetClients(s: State, e: Endpoint, m: map<string, Client>): State {
    if e == METRICS then s.(metricsClients := m) else s.(gmpClients := m)
  }

  function Leave(r: Req, status: Status): Req {
    r.(phase := Exiting, status := Some(status))
  }

  function AfterDial(cfg: Config, s: State, id: nat, ok: bool): State
    requires id in s.reqs
  {
    var r := s.reqs[id];
    var e, sa := r.call.endpoint, EffectiveSA(cfg, r.call);
    var built := if ok then Some(Client(s.nextClient, C.IdentityFor(sa, cfg.defaultSA))) else None;
    var (clients, got) := C.Lookup(ClientsOf(s, e), sa, built);
    var r' := if got.None? then Leave(r, NoClient)
              else r.(client := got, phase := if e == METRICS then Loading else Streaming);
    SetReq(SetClients(s, e, clients), id, r').(nextClient := s.nextClient + 1)
  }

  function AfterLoad(s: State, id: nat): State
    requires id in s.reqs
  {
    var r := s.reqs[id];
    var key := KeyOf(r.call);
    SetReq(s, id, if key in s.units then r.(phase := Streaming, unit := Some(s.units[key])) else r.(phase := Fetching))
  }

  /** A transient error goes on without a unit; every other answer is stored first. */
  function AfterFetch(s: State, id: nat, reply: Reply): State
    requires id in s.reqs
  {
    var r := s.reqs[id];
    SetReq(s, id, if Transient(reply) then r.(phase := Streaming, unit := Some(""), transient := true)
                  else r.(phase := Storing(UnitOf(reply))))
  }

  function AfterStore(s: State, id: nat): State
    requires id in s.reqs && s.reqs[id].phase.Storing?
  {
    var r := s.reqs[id];
    var u := r.phase.found;
    SetReq(s, id, r.(phase := Streaming, unit := Some(u))).(units := s.units[KeyOf(r.call) := u])
  }

  function Ids(m: map<string, Client>): set<nat> {
    set k | k in m :: m[k].id
  }

  function Apply(cfg: Config, s: State, a: Action): State
    requires Enabled(cfg, s, a)
  {
    match a
    case Arrive(id, call) => SetReq(s, id, Req(call, Waiting, None, None, false, None))
    case Admit(id) =>
      var r := s.reqs[id];
      SetHeld(SetReq(s, id, r.(phase := Parsing)), r.call.endpoint, Held(s, r.call.endpoint) + 1)
    case Reject(id) => SetReq(s, id, s.reqs[id].(phase := Finished, status := Some(TooManyRequests)))
    case Parse(id) =>
      var r := s.reqs[id];
      SetReq(s, id, if r.call.valid then r.(phase := Dialing) else Leave(r, BadParams))
    case Dial(id, ok) => AfterDial(cfg, s, id, ok)
    case FailBuild(id) => SetReq(s, id, Leave(s.reqs[id], CollectFailed))
    case Load(id) => AfterLoad(s, id)
    case Fetch(id, reply) => AfterFetch(s, id, reply)
    case Store(id) => AfterStore(s, id)
    case EndCollect(id, ok) =>
      var r := s.reqs[id];
      SetReq(s, id, if ok then r.(phase := Encoding) else Leave(r, CollectFailed))
    case Encode(id, ok) => SetReq(s, id, Leave(s.reqs[id], if ok then Served else Truncated))
    case Release(id) =>
      var r := s.reqs[id];
      SetHeld(SetReq(s, id, r.(phase := Finished)), r.call.endpoint, Max(Held(s, r.call.endpoint) - 1, 0))
    case CloseClients =>
      s.(metricsClients := map[], closed := s.closed + multiset(Ids(s.metricsClients)))
  }

  // ---------- Runs ----------

  datatype Run = Run(states: seq<State>, actions: seq<Action>)

  ghost predicate IsRun(cfg: Config, run: Run) {
    && |run.states| == |run.actions| + 1
    && run.states[0] == Init
    && forall i :: 0 <= i < |run.actions| ==> IsStep(cfg, run.states[i], run.actions[i], run.states[i + 1])
  }

  ghost predicate IsStep(cfg: Config, s: State, a: Action, s': State) {
    Enabled(cfg, s, a) && s' == Apply(cfg, s, a)
  }

  /** A run continued by one enabled action. */
  function Extend(cfg: Config, run: Run, a: Action): Run
    requires run.states != [] && Enabled(cfg, run.states[|run.states| - 1], a)
  {
    Run(run.states + [Apply(cfg, run.states[|run.states| - 1], a)], run.actions + [a])
  }

  lemma ExtendIsRun(cfg: Config, run: Run, a: Action)
    requires IsRun(cfg, run) && Enabled(cfg, run.states[|run.states| - 1], a)
    ensures IsRun(cfg, Extend(cfg, run, a))
  {
    var run' := Extend(cfg, run, a);
    forall i | 0 <= i < |run'.actions|
      ensures IsStep(cfg, run'.states[i], run'.actions[i], run'.states[i + 1])
    {
      if i < |run.actions| {
        assert IsStep(cfg, run.states[i], run.actions[i], run.states[i + 1]);
      }
    }
  }
}
