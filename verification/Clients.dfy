/**
 * The caches of upstream clients, keyed by impersonation target. Both caches
 * share get-or-insert; only the Cloud Monitoring cache is ever closed. Go holds
 * a mutex throughout, so every method is one atomic step.
 */
module Clients {
  import opened Basics

  /** Whose credentials a client uses. */
  datatype Identity = BaseCredentials | Impersonated(sa: string)

  /** The identity a token source is built for: the request's target, else the cache's default. */
  function IdentityFor(sa: string, defaultSA: string): Identity {
    var target := if sa != "" then sa else defaultSA;
    if target == "" then BaseCredentials else Impersonated(target)
  }

  /** Get-or-insert, where built is the client construction would yield. */
  function Lookup<C>(clients: map<string, C>, sa: string, built: Option<C>): (map<string, C>, Option<C>) {
    if sa in clients then (clients, Some(clients[sa]))
    else if built.None? then (clients, None)
    else (clients[sa := built.value], built)
  }

  /** The map without one of its keys. */
  function Without<C>(m: map<string, C>, k: string): (m': map<string, C>)
    requires k in m
    ensures m'.Keys == m.Keys - {k} && |m'| < |m| && forall j :: j in m' ==> m'[j] == m[j]
  {
    var m' := m - {k};
    assert m == m'[k := m[k]];
    m'
  }

  class Client {
    const identity: Identity
    /** What Close will report. */
    const closeError: Option<string>
    var closes: nat

    constructor (identity: Identity, closeError: Option<string>)
      ensures this.identity == identity && this.closeError == closeError && closes == 0
    {
      this.identity, this.closeError, closes := identity, closeError, 0;
    }

    method Close() returns (err: Option<string>)
      modifies this
      ensures closes == old(closes) + 1 && err == closeError
    {
      closes := closes + 1;
      err := closeError;
    }
  }

  datatype GetError = NoTokenSource(err: string) | NoDial(err: string)

  /** How construction of a client goes if it is attempted. */
  datatype Attempt = Attempt(tokenError: Option<string>, dialError: Option<string>, closeError: Option<string>)

  /** The error Close reports: the key of a client and the client's own error, before they are formatted. */
  datatype CloseError = CloseError(sa: string, err: string)

  class ClientCache {
    const defaultSA: string
    var clients: map<string, Client>

    /** No client is cached under two keys. */
    ghost predicate Valid()
      reads this
    {
      forall j, k :: j in clients && k in clients && clients[j] == clients[k] ==> j == k
    }

    /** Every client has the identity its key stands for. */
    ghost predicate IdentitiesMatch()
      reads this, clients.Values
    {
      forall k :: k in clients ==> clients[k].identity == IdentityFor(k, defaultSA)
    }

    constructor (defaultSA: string)
      ensures Valid() && IdentitiesMatch() && clients == map[] && this.defaultSA == defaultSA
    {
      this.defaultSA, clients := defaultSA, map[];
    }

    /** A client that is cached is returned as it is; a failed construction changes nothing. */
    method Get(impersonateSA: string, attempt: Attempt) returns (r: Result<Client, GetError>)
      requires Valid() && IdentitiesMatch()
      modifies this
      ensures Valid() && IdentitiesMatch()
      ensures (clients, if r.Success? then Some(r.value) else None)
           == Lookup(old(clients), impersonateSA, if r.Success? then Some(r.value) else None)
      ensures impersonateSA in old(clients) ==> r == Success(old(clients)[impersonateSA]) && clients == old(clients)
      ensures impersonateSA !in old(clients) ==>
        clients == if r.Success? then old(clients)[impersonateSA := r.value] else old(clients)
      ensures r.Success? && impersonateSA != "" ==> r.value.identity == Impersonated(impersonateSA)
      ensures r.Success? && impersonateSA == "" && defaultSA != "" ==> r.value.identity == Impersonated(defaultSA)
      ensures r.Success? && impersonateSA == "" && defaultSA == "" ==> r.value.identity == BaseCredentials
      ensures r.Success? && impersonateSA !in old(clients) ==> fresh(r.value) && r.value.closes == 0
      ensures r.Failure? <==> impersonateSA !in old(clients) && (attempt.tokenError.Some? || attempt.dialError.Some?)
      ensures r.Failure? ==>
        r.error == if attempt.tokenError.Some? then NoTokenSource(attempt.tokenError.value)
                   else NoDial(attempt.dialError.value)
    {
      if impersonateSA in clients {
        return Success(clients[impersonateSA]);
      }
      var target := defaultSA;
      if impersonateSA != "" {
        target := impersonateSA;
      }
      if attempt.tokenError.Some? {
        return Failure(NoTokenSource(attempt.tokenError.value));
      }
      if attempt.dialError.Some? {
        return Failure(NoDial(attempt.dialError.value));
      }
      var identity := if target == "" then BaseCredentials else Impersonated(target);
      var cli := new Client(identity, attempt.closeError);
      clients := clients[impersonateSA := cli];
      return Success(cli);
    }

    /**
     * Closes every cached client exactly once, even after errors, empties the
     * map, and reports the error of some client exactly when one failed.
     */
    method Close() returns (firstErr: Option<CloseError>)
      requires Valid()
      modifies this, clients.Values
      ensures clients == map[]
      ensures forall k :: k in old(clients) ==> old(clients)[k].closes == old(clients[k].closes) + 1
      ensures firstErr.Some? <==> exists k :: k in old(clients) && old(clients)[k].closeError.Some?
      ensures firstErr.Some? ==> (exists k :: k in old(clients) && old(clients)[k].closeError.Some?
                                   && firstErr.value == CloseError(k, old(clients)[k].closeError.value))
    {
      firstErr := None;
      ghost var all, first := clients, "";
      while clients != map[]
        invariant clients.Keys <= all.Keys && forall k :: k in clients ==> clients[k] == all[k]
        invariant forall k :: k in all ==>
          all[k].closes == old(all[k].closes) + if k in clients then 0 else 1
        invariant firstErr.None? ==> forall k :: k in all && k !in clients ==> all[k].closeError.None?
        invariant firstErr.Some? ==> (first in all && all[first].closeError.Some?
          && firstErr.value == CloseError(first, all[first].closeError.value))
        decreases |clients|
      {
        assert clients.Keys != {};
        var sa :| sa in clients.Keys;
        var cli := clients[sa];
        var err := cli.Close();
        if err.Some? {
          if firstErr.None? {
            firstErr := Some(CloseError(sa, err.value));
            first := sa;
          }
        }
        clients := Without(clients, sa);
      }
    }
  }
}
