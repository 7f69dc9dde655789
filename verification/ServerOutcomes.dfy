/** What the status of a response says about the way its request went, over every run. */
module ServerOutcomes {
  import opened Basics
  import opened Server
  import opened ServerGate

  /** Each status stands for certain steps of the request, and those steps for the status. */
  ghost predicate Tells(r: Req, id: nat, done: set<Action>) {
    && (r.status == Some(TooManyRequests) <==> Reject(id) in done)
    && (r.status == Some(BadParams) <==> Parse(id) in done && !r.call.valid)
    && (r.status == Some(NoClient) <==> Dial(id, false) in done && r.client.None?)
    && (r.status == Some(CollectFailed) <==> FailBuild(id) in done || EndCollect(id, false) in done)
    && (r.status == Some(Served) <==> Encode(id, true) in done)
    && (r.status == Some(Truncated) <==> Encode(id, false) in done)
  }

  /** A body is written only after the whole collection succeeded, and a finished request has a status. */
  ghost predicate AllOrNothing(r: Req, id: nat, done: set<Action>) {
    && (r.status == Some(Served) || r.status == Some(Truncated) ==> EndCollect(id, true) in done)
    && (r.phase.Finished? ==> r.status.Some?)
  }

  /** Before its work ends a request has no status; before it dials it has no client. */
  ghost predicate OnTheWay(r: Req, id: nat, done: set<Action>) {
    && (r.status.Some? <==> r.phase.Exiting? || r.phase.Finished?)
    && (r.phase.Encoding? ==> EndCollect(id, true) in done)
    && (r.phase.Waiting? || r.phase.Parsing? || r.phase.Dialing? ==> r.client.None? && Dial(id, false) !in done)
    && (r.phase.Loading? || r.phase.Fetching? || r.phase.Storing? || r.phase.Streaming? || r.phase.Encoding? ==>
          r.client.Some?)
  }

  ghost predicate Recorded(r: Req, id: nat, done: set<Action>) {
    Tells(r, id, done) && AllOrNothing(r, id, done) && OnTheWay(r, id, done)
  }

  ghost predicate RecordedIn(s: State, id: nat, done: set<Action>) {
    if id in s.reqs then Recorded(s.reqs[id], id, done)
    else forall a :: a in done && !a.CloseClients? ==> a.id != id
  }

  lemma ArriveStep(cfg: Config, s: State, a: Action, done: set<Action>)
    requires Enabled(cfg, s, a) && a.Arrive? && RecordedIn(s, a.id, done)
    ensures a.id in Apply(cfg, s, a).reqs && Recorded(Apply(cfg, s, a).reqs[a.id], a.id, done + {a})
  {
  }

  lemma AdmissionStep(cfg: Config, s: State, a: Action, done: set<Action>)
    requires Enabled(cfg, s, a) && (a.Admit? || a.Reject?) && RecordedIn(s, a.id, done)
    ensures a.id in Apply(cfg, s, a).reqs && Recorded(Apply(cfg, s, a).reqs[a.id], a.id, done + {a})
  {
  }

  lemma ReleaseStep(cfg: Config, s: State, a: Action, done: set<Action>)
    requires Enabled(cfg, s, a) && a.Release? && RecordedIn(s, a.id, done)
    ensures a.id in Apply(cfg, s, a).reqs && Recorded(Apply(cfg, s, a).reqs[a.id], a.id, done + {a})
  {
  }

  lemma LookupStep(cfg: Config, s: State, a: Action, done: set<Action>)
    requires Enabled(cfg, s, a) && InLookup(a) && RecordedIn(s, a.id, done)
    ensures a.id in Apply(cfg, s, a).reqs && Recorded(Apply(cfg, s, a).reqs[a.id], a.id, done + {a})
  {
  }

  lemma ParseStep(cfg: Config, s: State, a: Action, done: set<Action>)
    requires Enabled(cfg, s, a) && a.Parse? && RecordedIn(s, a.id, done)
    ensures a.id in Apply(cfg, s, a).reqs && Recorded(Apply(cfg, s, a).reqs[a.id], a.id, done + {a})
  {
  }

  lemma DialStep(cfg: Config, s: State, a: Action, done: set<Action>)
    requires Enabled(cfg, s, a) && a.Dial? && RecordedIn(s, a.id, done)
    ensures a.id in Apply(cfg, s, a).reqs && Recorded(Apply(cfg, s, a).reqs[a.id], a.id, done + {a})
  {
  }

  lemma EndStep(cfg: Config, s: State, a: Action, done: set<Action>)
    requires Enabled(cfg, s, a) && (a.EndCollect? || a.Encode?) && RecordedIn(s, a.id, done)
    ensures a.id in Apply(cfg, s, a).reqs && Recorded(Apply(cfg, s, a).reqs[a.id], a.id, done + {a})
  {
  }

  lemma OwnStep(cfg: Config, s: State, a: Action, done: set<Action>)
    requires Enabled(cfg, s, a) && !a.CloseClients? && RecordedIn(s, a.id, done)
    ensures a.id in Apply(cfg, s, a).reqs && Recorded(Apply(cfg, s, a).reqs[a.id], a.id, done + {a})
  {
    match a {
      case Arrive(_, _) => ArriveStep(cfg, s, a, done);
      case Parse(_) => ParseStep(cfg, s, a, done);
      case Dial(_, _) => DialStep(cfg, s, a, done);
      case EndCollect(_, _) => EndStep(cfg, s, a, done);
      case Encode(_, _) => EndStep(cfg, s, a, done);
      case Release(_) => ReleaseStep(cfg, s, a, done);
      case _ =>
        if InLookup(a) {
          LookupStep(cfg, s, a, done);
        } else {
          AdmissionStep(cfg, s, a, done);
        }
    }
  }

  lemma OtherStep(cfg: Config, s: State, a: Action, id: nat, done: set<Action>)
    requires Enabled(cfg, s, a) && RecordedIn(s, id, done) && (a.CloseClients? || a.id != id)
    ensures RecordedIn(Apply(cfg, s, a), id, done + {a})
  {
    if !a.CloseClients? {
      GateMoves(cfg, s, a);
    }
  }

  /** The actions taken before state i. */
  function Done(run: Run, i: nat): set<Action>
    requires i <= |run.actions|
  {
    set t | 0 <= t < i :: run.actions[t]
  }

  lemma {:induction false} RecordedAlways(cfg: Config, run: Run, i: nat, id: nat)
    requires IsRun(cfg, run) && i < |run.states|
    ensures RecordedIn(run.states[i], id, Done(run, i))
  {
    if i > 0 {
      var s, a := run.states[i - 1], run.actions[i - 1];
      RecordedAlways(cfg, run, i - 1, id);
      assert IsStep(cfg, s, a, run.states[i]);
      assert Done(run, i) == Done(run, i - 1) + {a};
      if !a.CloseClients? && a.id == id {
        OwnStep(cfg, s, a, Done(run, i - 1));
      } else {
        OtherStep(cfg, s, a, id, Done(run, i - 1));
      }
    }
  }

  /**
   * In every state of every run the status of a request tells which of its
   * steps happened, and the answer is all or nothing.
   */
  lemma StatusTellsOutcome(cfg: Config, run: Run, i: nat, id: nat)
    requires IsRun(cfg, run) && i < |run.states| && id in run.states[i].reqs
    ensures Tells(run.states[i].reqs[id], id, Done(run, i))
    ensures AllOrNothing(run.states[i].reqs[id], id, Done(run, i))
  {
    RecordedAlways(cfg, run, i, id);
  }
}
