/** The concurrency gates over every run. */
module ServerGate {
  import opened Basics
  import opened Server

  /** The admitted requests of an endpoint that have not finished. */
  ghost function Holders(s: State, e: Endpoint): set<nat> {
    set id | id in s.reqs && s.reqs[id].call.endpoint == e && Holding(s.reqs[id])
  }

  /** The tokens of each gate are held by exactly the admitted unfinished requests, and never exceed its size. */
  ghost predicate GateHolds(cfg: Config, s: State) {
    forall e: Endpoint :: Held(s, e) == |Holders(s, e)| <= cfg.maxConcurrent
  }

  /** Changing one request changes the holders by at most that request. */
  lemma HoldersAfter(s: State, s': State, id: nat, r: Req, e: Endpoint)
    requires s'.reqs == s.reqs[id := r]
    ensures Holders(s', e) == (if r.call.endpoint == e && Holding(r) then Holders(s, e) + {id} else Holders(s, e) - {id})
  {
  }

  /** How an action moves its request through the gate. */
  ghost predicate GateMove(s: State, a: Action, r: Req) {
    match a
    case CloseClients => true
    case Arrive(id, call) => id !in s.reqs && r.phase.Waiting? && r.call == call && r.status.None?
    case Admit(id) => In(s, id, Waiting) && Holding(r) && r == s.reqs[id].(phase := r.phase)
    case Reject(id) => In(s, id, Waiting) && r.phase.Finished? && r.status == Some(TooManyRequests)
                       && r.call == s.reqs[id].call
    case Release(id) => In(s, id, Exiting) && r == s.reqs[id].(phase := Finished)
    case _ => a.id in s.reqs && Holding(s.reqs[a.id]) && Holding(r) && r.call == s.reqs[a.id].call
              && (r.status == s.reqs[a.id].status || r.status != Some(TooManyRequests))
  }

  /** Actions of a request at the gate's edge, before it holds a token or as it gives it back. */
  predicate AtEdge(a: Action) {
    a.Arrive? || a.Admit? || a.Reject? || a.Release?
  }

  lemma EdgeMoves(cfg: Config, s: State, a: Action)
    requires Enabled(cfg, s, a) && AtEdge(a)
    ensures var s' := Apply(cfg, s, a);
      a.id in s'.reqs && s'.reqs == s.reqs[a.id := s'.reqs[a.id]] && GateMove(s, a, s'.reqs[a.id])
  {
  }

  /** Actions around the descriptor lookup. */
  predicate InLookup(a: Action) {
    a.Load? || a.Fetch? || a.Store? || a.FailBuild?
  }

  lemma LookupMoves(cfg: Config, s: State, a: Action)
    requires Enabled(cfg, s, a) && InLookup(a)
    ensures var s' := Apply(cfg, s, a);
      a.id in s'.reqs && s'.reqs == s.reqs[a.id := s'.reqs[a.id]] && GateMove(s, a, s'.reqs[a.id])
  {
  }

  lemma InnerMoves(cfg: Config, s: State, a: Action)
    requires Enabled(cfg, s, a) && (a.Parse? || a.Dial? || a.EndCollect? || a.Encode?)
    ensures var s' := Apply(cfg, s, a);
      a.id in s'.reqs && s'.reqs == s.reqs[a.id := s'.reqs[a.id]] && GateMove(s, a, s'.reqs[a.id])
  {
  }

  lemma GateMoves(cfg: Config, s: State, a: Action)
    requires Enabled(cfg, s, a) && !a.CloseClients?
    ensures var s' := Apply(cfg, s, a);
      a.id in s'.reqs && s'.reqs == s.reqs[a.id := s'.reqs[a.id]] && GateMove(s, a, s'.reqs[a.id])
  {
    if AtEdge(a) {
      EdgeMoves(cfg, s, a);
    } else if InLookup(a) {
      LookupMoves(cfg, s, a);
    } else {
      InnerMoves(cfg, s, a);
    }
  }

  /** No request's call ever changes, and an action changes only its own request. */
  lemma OthersUnchanged(cfg: Config, s: State, a: Action, id: nat)
    requires Enabled(cfg, s, a) && id in s.reqs
    ensures id in Apply(cfg, s, a).reqs
    ensures Apply(cfg, s, a).reqs[id].call == s.reqs[id].call
    ensures a.CloseClients? || a.id != id ==> Apply(cfg, s, a).reqs[id] == s.reqs[id]
  {
    if !a.CloseClients? {
      GateMoves(cfg, s, a);
    }
  }

  /** The tokens an action leaves an endpoint with. */
  function HeldAfter(s: State, a: Action, e: Endpoint): nat {
    if a.Admit? && a.id in s.reqs && s.reqs[a.id].call.endpoint == e then Held(s, e) + 1
    else if a.Release? && a.id in s.reqs && s.reqs[a.id].call.endpoint == e then Max(Held(s, e) - 1, 0)
    else Held(s, e)
  }

  lemma HeldMoves(cfg: Config, s: State, a: Action, e: Endpoint)
    requires Enabled(cfg, s, a)
    ensures Held(Apply(cfg, s, a), e) == HeldAfter(s, a, e)
  {
  }

  lemma HoldersMove(cfg: Config, s: State, a: Action, r: Req, e: Endpoint, before: set<nat>, after: set<nat>)
    requires !a.CloseClients? && GateMove(s, a, r) && Held(s, e) == |before| <= cfg.maxConcurrent
    requires a.Admit? ==> s.reqs[a.id].call.endpoint == e ==> Held(s, e) < cfg.maxConcurrent
    requires a.id in before <==> a.id in s.reqs && s.reqs[a.id].call.endpoint == e && Holding(s.reqs[a.id])
    requires after == if r.call.endpoint == e && Holding(r) then before + {a.id} else before - {a.id}
    ensures HeldAfter(s, a, e) == |after| <= cfg.maxConcurrent
  {
    HoldersSize(before, a.id);
  }

  lemma GateStep(cfg: Config, s: State, a: Action)
    requires GateHolds(cfg, s) && Enabled(cfg, s, a)
    ensures GateHolds(cfg, Apply(cfg, s, a))
  {
    var s' := Apply(cfg, s, a);
    forall e: Endpoint ensures Held(s', e) == |Holders(s', e)| <= cfg.maxConcurrent {
      HeldMoves(cfg, s, a, e);
      assert Held(s, e) == |Holders(s, e)| <= cfg.maxConcurrent;
      if a.CloseClients? {
        assert Holders(s', e) == Holders(s, e);
      } else {
        GateMoves(cfg, s, a);
        HoldersAfter(s, s', a.id, s'.reqs[a.id], e);
        HoldersMove(cfg, s, a, s'.reqs[a.id], e, Holders(s, e), Holders(s', e));
      }
    }
  }

  lemma HoldersSize(h: set<nat>, id: nat)
    ensures |h + {id}| == |h| + if id in h then 0 else 1
    ensures |h - {id}| == |h| - if id in h then 1 else 0
  {
    if id in h {
      assert h + {id} == h;
    } else {
      assert h - {id} == h;
    }
  }

  /** In every state of every run. */
  lemma {:induction false} GateInvariant(cfg: Config, run: Run, i: nat)
    requires IsRun(cfg, run) && i < |run.states|
    ensures GateHolds(cfg, run.states[i])
  {
    if i == 0 {
      assert Holders(Init, METRICS) == Holders(Init, GMP) == {};
    } else {
      GateInvariant(cfg, run, i - 1);
      assert IsStep(cfg, run.states[i - 1], run.actions[i - 1], run.states[i]);
      GateStep(cfg, run.states[i - 1], run.actions[i - 1]);
    }
  }

  /** The admitted unfinished requests of both endpoints. */
  ghost function InFlight(s: State): set<nat> {
    Holders(s, METRICS) + Holders(s, GMP)
  }

  lemma InFlightIsHeld(s: State)
    ensures |InFlight(s)| == |Holders(s, METRICS)| + |Holders(s, GMP)|
  {
    assert Holders(s, METRICS) !! Holders(s, GMP);
  }

  /** At most twice the limit is in flight. */
  lemma JointBound(cfg: Config, run: Run, i: nat)
    requires IsRun(cfg, run) && i < |run.states|
    ensures |InFlight(run.states[i])| <= 2 * cfg.maxConcurrent
  {
    GateInvariant(cfg, run, i);
    var s := run.states[i];
    InFlightIsHeld(s);
    assert Held(s, METRICS) == |Holders(s, METRICS)| && Held(s, GMP) == |Holders(s, GMP)|;
  }

  /**
   * A waiting request is rejected exactly when as many requests of its own
   * endpoint as the limit allows are admitted and unfinished; otherwise it is
   * admitted. The other endpoint plays no part.
   */
  lemma RejectedIffFull(cfg: Config, run: Run, i: nat, id: nat)
    requires IsRun(cfg, run) && i < |run.states| && In(run.states[i], id, Waiting)
    ensures var s := run.states[i];
      var full := |Holders(s, s.reqs[id].call.endpoint)| == cfg.maxConcurrent;
      && (Enabled(cfg, s, Reject(id)) <==> full)
      && (Enabled(cfg, s, Admit(id)) <==> !full)
  {
    GateInvariant(cfg, run, i);
    var s := run.states[i];
    assert Held(s, s.reqs[id].call.endpoint) == |Holders(s, s.reqs[id].call.endpoint)|;
  }

  // ---------- The gates are independent ----------

  function Last(run: Run): State
    requires run.states != []
  {
    run.states[|run.states| - 1]
  }

  /** All requests of the last state have small numbers, and the gates hold these many tokens. */
  ghost predicate Filled(cfg: Config, run: Run, n: nat, metrics: nat, gmp: nat) {
    && IsRun(cfg, run)
    && (forall id :: id in Last(run).reqs ==> id < n)
    && Last(run).metricsHeld == metrics
    && Last(run).gmpHeld == gmp
  }

  /** One more request of e is admitted as long as e's own gate is not full, however full the other is. */
  lemma AdmitOne(cfg: Config, run: Run, n: nat, metrics: nat, gmp: nat, e: Endpoint) returns (run': Run)
    requires Filled(cfg, run, n, metrics, gmp)
    requires (if e == METRICS then metrics else gmp) < cfg.maxConcurrent
    ensures if e == METRICS then Filled(cfg, run', n + 1, metrics + 1, gmp)
            else Filled(cfg, run', n + 1, metrics, gmp + 1)
  {
    var arrive := Arrive(n, Call(e, true, "", "p", "m"));
    assert n !in Last(run).reqs;
    run' := Extend(cfg, run, arrive);
    ExtendIsRun(cfg, run, arrive);
    ExtendIsRun(cfg, run', Admit(n));
    run' := Extend(cfg, run', Admit(n));
  }

  /** Any two fillings of the gates up to their sizes occur together. */
  lemma {:induction false} FillGates(cfg: Config, metrics: nat, gmp: nat) returns (run: Run)
    requires metrics <= cfg.maxConcurrent && gmp <= cfg.maxConcurrent
    ensures Filled(cfg, run, metrics + gmp, metrics, gmp)
    decreases metrics + gmp
  {
    if metrics > 0 {
      run := FillGates(cfg, metrics - 1, gmp);
      run := AdmitOne(cfg, run, metrics - 1 + gmp, metrics - 1, gmp, METRICS);
    } else if gmp > 0 {
      run := FillGates(cfg, metrics, gmp - 1);
      run := AdmitOne(cfg, run, metrics + gmp - 1, metrics, gmp - 1, GMP);
    } else {
      run := Run([Init], []);
    }
  }

  /**
   * The gates are independent: every combination of requests in flight that
   * respects each endpoint's own limit is reached by some run.
   */
  lemma GatesIndependent(cfg: Config, metrics: nat, gmp: nat)
    ensures (exists run: Run :: IsRun(cfg, run)
              && |Holders(Last(run), METRICS)| == metrics && |Holders(Last(run), GMP)| == gmp)
       <==> metrics <= cfg.maxConcurrent && gmp <= cfg.maxConcurrent
  {
    if metrics <= cfg.maxConcurrent && gmp <= cfg.maxConcurrent {
      var run := FillGates(cfg, metrics, gmp);
      LastHolders(cfg, run);
    }
    forall run: Run | IsRun(cfg, run)
      ensures |Holders(Last(run), METRICS)| <= cfg.maxConcurrent && |Holders(Last(run), GMP)| <= cfg.maxConcurrent
    {
      LastHolders(cfg, run);
    }
  }

  lemma LastHolders(cfg: Config, run: Run)
    requires IsRun(cfg, run)
    ensures forall e: Endpoint :: Held(Last(run), e) == |Holders(Last(run), e)| <= cfg.maxConcurrent
    ensures Last(run).metricsHeld == |Holders(Last(run), METRICS)| <= cfg.maxConcurrent
    ensures Last(run).gmpHeld == |Holders(Last(run), GMP)| <= cfg.maxConcurrent
  {
    GateInvariant(cfg, run, |run.states| - 1);
    var s := Last(run);
    assert Held(s, METRICS) == |Holders(s, METRICS)| && Held(s, GMP) == |Holders(s, GMP)|;
  }

  /** In particular twice the limit is reached, so the limit does not hold across the endpoints. */
  lemma JointBoundReached(cfg: Config) returns (run: Run)
    ensures IsRun(cfg, run) && |InFlight(Last(run))| == 2 * cfg.maxConcurrent
  {
    run := FillGates(cfg, cfg.maxConcurrent, cfg.maxConcurrent);
    LastHolders(cfg, run);
    InFlightIsHeld(Last(run));
  }

  /** The limit holds across all endpoints, as documented, only if it admits nothing. */
  lemma LimitAcrossEndpointsIff(cfg: Config)
    ensures (forall run: Run :: IsRun(cfg, run) ==> |InFlight(Last(run))| <= cfg.maxConcurrent)
       <==> cfg.maxConcurrent == 0
  {
    var full := JointBoundReached(cfg);
    if cfg.maxConcurrent == 0 {
      forall run: Run | IsRun(cfg, run) ensures |InFlight(Last(run))| <= cfg.maxConcurrent {
        JointBound(cfg, run, |run.states| - 1);
      }
    }
  }

  // ---------- One release per admission ----------

  /** How often an action was taken before state i. */
  ghost function Times(run: Run, i: nat, a: Action): nat
    requires i <= |run.actions|
  {
    multiset(run.actions[..i])[a]
  }

  /** The tokens a request has taken and given back, judged by its phase alone. */
  ghost predicate TokensAccounted(run: Run, i: nat, id: nat)
    requires i <= |run.actions| && i < |run.states|
  {
    var s, taken, given := run.states[i], Times(run, i, Admit(id)), Times(run, i, Release(id));
    if id !in s.reqs then taken == given == 0
    else if s.reqs[id].phase.Waiting? then taken == given == 0 && s.reqs[id].status.None?
    else if Holding(s.reqs[id]) then taken == 1 && given == 0 && s.reqs[id].status != Some(TooManyRequests)
    else if s.reqs[id].status == Some(TooManyRequests) then taken == given == 0
    else taken == given == 1
  }

  lemma TimesStep(run: Run, i: nat, a: Action)
    requires 0 < i <= |run.actions|
    ensures Times(run, i, a) == Times(run, i - 1, a) + if run.actions[i - 1] == a then 1 else 0
  {
    assert run.actions[..i] == run.actions[..i - 1] + [run.actions[i - 1]];
  }

  lemma TokensStep(cfg: Config, run: Run, i: nat, id: nat)
    requires 0 < i < |run.states| && i <= |run.actions| && TokensAccounted(run, i - 1, id)
    requires IsStep(cfg, run.states[i - 1], run.actions[i - 1], run.states[i])
    ensures TokensAccounted(run, i, id)
  {
    var s, a, s' := run.states[i - 1], run.actions[i - 1], run.states[i];
    TimesStep(run, i, Admit(id));
    TimesStep(run, i, Release(id));
    if a.CloseClients? {
      assert s'.reqs == s.reqs;
    } else {
      GateMoves(cfg, s, a);
      assert a.id != id ==> (id in s'.reqs <==> id in s.reqs) && (id in s.reqs ==> s'.reqs[id] == s.reqs[id]);
    }
  }

  /**
   * Over any run every admitted request takes one token and, whichever way it
   * leaves, gives back exactly one; a rejected request takes none.
   */
  lemma {:induction false} ReleasedExactlyOnce(cfg: Config, run: Run, i: nat, id: nat)
    requires IsRun(cfg, run) && i < |run.states|
    ensures TokensAccounted(run, i, id)
  {
    if i > 0 {
      ReleasedExactlyOnce(cfg, run, i - 1, id);
      assert IsStep(cfg, run.states[i - 1], run.actions[i - 1], run.states[i]);
      TokensStep(cfg, run, i, id);
    }
  }

  /** The tokens of a gate are out with exactly the requests of its endpoint that were admitted and not yet released. */
  lemma HoldersAreUnreleased(cfg: Config, run: Run, i: nat, id: nat, e: Endpoint)
    requires IsRun(cfg, run) && i < |run.states|
    ensures id in Holders(run.states[i], e)
       <==> id in run.states[i].reqs && run.states[i].reqs[id].call.endpoint == e
            && Admit(id) in run.actions[..i] && Release(id) !in run.actions[..i]
  {
    ReleasedExactlyOnce(cfg, run, i, id);
    assert forall a :: a in run.actions[..i] <==> multiset(run.actions[..i])[a] > 0;
  }
}
