/**
  The services that carry the protocol out: one object per tenant holding its state row and
  request table, updated in place, each method one committed transaction.
 */
module TenantSites {
  import opened Common
  import opened SiteBuilds

  datatype BuildResult =
    | BuildSuccessful(actual: Option<nat>)
    | BuildFailed(retryable: bool)

  class TenantSite {
    var content: nat
    var deployed: Option<nat>
    var lastBuildAt: Option<int>
    var enabled: bool
    var requests: seq<Request>

    ghost function State(): Site
      reads this
    {
      Site(content, deployed, lastBuildAt, enabled, requests)
    }

    constructor ()
      ensures State() == EMPTY_SITE
    {
      content, deployed, lastBuildAt, enabled, requests := 0, None, None, false, [];
    }

    /** Returns the request that now stands for the new revision. */
    method PublicContentChanged(now: int) returns (id: nat)
      modifies this
      ensures State() == ContentChanged(old(State()), now)
      ensures content == old(content) + 1
      ensures id < |requests| && requests[id].status == Pending && requests[id].target >= content
    {
      content := content + 1;
      id := EnqueueRequest(content, now);
    }

    method ManualRebuild(now: int) returns (id: nat)
      modifies this
      ensures State() == Enqueue(old(State()), now)
      ensures id < |requests| && requests[id].status == Pending && requests[id].target >= content
    {
      id := EnqueueRequest(content, now);
    }

    method EnqueueRequest(target: nat, now: int) returns (id: nat)
      requires target == content
      modifies this`requests
      ensures State() == Enqueue(old(State()), now)
      ensures id < |requests| && requests[id].status == Pending && requests[id].target >= target
    {
      var pending := Find(requests, Pending);
      if pending.Some? {
        id := pending.value;
        var row := requests[id];
        row := row.(target := Max(row.target, target));
        row := row.(requestedAt := now, nextAttemptAt := now);
        requests := requests[id := row];
      } else {
        id := |requests|;
        requests := requests + [NewRequest(target, now)];
      }
    }

    method ReleaseExpired(r: nat, now: int)
      requires r < |requests|
      modifies this`requests
      ensures requests == ExpireLease(old(requests), r, now)
    {
      var row := requests[r];
      var pending := Find(requests, Pending);
      if pending.Some? {
        MergeInto(pending.value, r);
        row := requests[r].(status := Superseded);
      } else {
        row := row.(status := Pending, startedAt := None, leaseExpiresAt := None);
        row := row.(nextAttemptAt := now);
      }
      requests := requests[r := row];
    }

    method MergeInto(p: nat, r: nat)
      requires p < |requests| && r < |requests|
      modifies this`requests
      ensures requests == old(requests)[p := RaiseTarget(old(requests)[p], old(requests)[r].target)]
    {
      var pending := requests[p];
      pending := pending.(target := Max(pending.target, requests[r].target));
      requests := requests[p := pending];
    }

    method ClaimRequest(now: int, locked: bool) returns (claimed: Option<nat>)
      modifies this`requests
      ensures (State(), claimed) == Claim(old(State()), now, locked)
    {
      if !enabled { return None; }
      var due := OldestDue(requests, now);
      var running := Find(requests, Running);
      if running.Some? {
        if LeaseHeld(requests[running.value], now) { return None; }
        ReleaseExpired(running.value, now);
      }
      if due.None? || locked { return None; }
      var row := requests[due.value];
      row := row.(status := Running, attempts := row.attempts + 1);
      row := row.(startedAt := Some(now), leaseExpiresAt := Some(now + LEASE_SECONDS));
      requests := requests[due.value := row];
      return due;
    }

    /** A failed attempt of `id`: superseded, put back under a back-off, or given up. */
    method EndAttempt(id: nat, retry: bool, now: int)
      requires id < |requests|
      modifies this`requests
      ensures match Find(old(requests), Pending)
              case Some(p) => requests == GiveWay(old(requests), id, p, None)
              case None => requests == old(requests)[id := if retry then Retry(old(requests)[id], now) else GiveUp(old(requests)[id], now)]
    {
      var newer := Find(requests, Pending);
      var row := requests[id];
      if newer.Some? {
        MergeInto(newer.value, id);
        row := requests[id].(status := Superseded);
      } else if retry {
        row := row.(status := Pending, startedAt := None);
        row := row.(nextAttemptAt := now + Backoff(row.attempts));
      } else {
        row := row.(status := Failed, failedAt := Some(now));
      }
      row := row.(leaseExpiresAt := None);
      requests := requests[id := row];
    }

    method TriggerFailed(id: nat, now: int)
      modifies this`requests
      ensures State() == SiteBuilds.TriggerFailed(old(State()), id, now)
    {
      if id >= |requests| || requests[id].status != Running { return; }
      EndAttempt(id, requests[id].attempts < MAX_ATTEMPTS, now);
    }

    method Record(id: nat, result: BuildResult, now: int) returns (reply: Reply)
      modifies this
      ensures match result
              case BuildSuccessful(actual) => (State(), reply) == RecordSuccess(old(State()), id, actual, now)
              case BuildFailed(retryable) => (State(), reply) == RecordFailure(old(State()), id, retryable, now)
    {
      if id >= |requests| { return NotFound; }
      if result.BuildSuccessful? {
        reply := RecordDeployment(id, result.actual, now);
      } else {
        if requests[id].status !in {Successful, Superseded, Failed} {
          EndAttempt(id, result.retryable && requests[id].attempts < MAX_ATTEMPTS, now);
        }
        reply := Accepted;
      }
    }

    method RecordDeployment(id: nat, actual: Option<nat>, now: int) returns (reply: Reply)
      requires id < |requests|
      modifies this
      ensures (State(), reply) == RecordSuccess(old(State()), id, actual, now)
    {
      var row := requests[id];
      if actual.None? || actual.value < row.target { return RevisionInvalid; }
      if row.status == Successful || (row.status == Superseded && row.completedAt.Some?) {
        if row.actual != actual { return Conflict; }
        return Accepted;
      }
      if row.status == Failed { return Conflict; }
      var previous := if deployed.Some? then deployed.value else 0;
      deployed := Some(Max(previous, actual.value));
      lastBuildAt := Some(now);
      if row.status != Superseded { row := row.(status := Successful); }
      row := row.(actual := actual, completedAt := Some(now), leaseExpiresAt := None);
      requests := requests[id := row];
      return Accepted;
    }
  }

  // What the environment makes of one tenant's turn: clock, row locks, and the outgoing trigger.
  datatype Turn = Turn(now: int, locked: bool, triggered: bool, failedAt: int)

  function TakeTurn(s: Site, t: Turn): Site {
    var (s', claimed) := Claim(s, t.now, t.locked);
    if claimed.Some? && !t.triggered then SiteBuilds.TriggerFailed(s', claimed.value, t.failedAt) else s'
  }

  function ClaimedIn(sites: seq<Site>, turns: seq<Turn>): nat
    requires |sites| == |turns|
  {
    if sites == [] then 0
    else
      var last := |sites| - 1;
      ClaimedIn(sites[..last], turns[..last]) +
      (if Claim(sites[last], turns[last].now, turns[last].locked).1.Some? then 1 else 0)
  }

  ghost function States(tenants: seq<TenantSite>): seq<Site>
    reads tenants
  {
    seq(|tenants|, i requires 0 <= i < |tenants| reads tenants => tenants[i].State())
  }

  method GiveTurn(tenant: TenantSite, t: Turn) returns (claimed: bool)
    modifies tenant
    ensures tenant.State() == TakeTurn(old(tenant.State()), t)
    ensures claimed == Claim(old(tenant.State()), t.now, t.locked).1.Some?
  {
    var request := tenant.ClaimRequest(t.now, t.locked);
    if request.Some? && !t.triggered { tenant.TriggerFailed(request.value, t.failedAt); }
    claimed := request.Some?;
  }

  /** One polling pass: every tenant gets exactly its turn, and the pass reports how many had work claimed. */
  method RunOnce(tenants: seq<TenantSite>, turns: seq<Turn>) returns (claimed: nat)
    requires |turns| == |tenants|
    requires forall i, j | 0 <= i < j < |tenants| :: tenants[i] != tenants[j]
    modifies tenants
    ensures forall i | 0 <= i < |tenants| ::
              tenants[i].State() == TakeTurn(old(tenants[i].State()), turns[i])
    ensures claimed == ClaimedIn(old(States(tenants)), turns)
  {
    claimed := 0;
    ghost var was := States(tenants);
    for n := 0 to |tenants|
      invariant forall i | 0 <= i < n :: tenants[i].State() == TakeTurn(was[i], turns[i])
      invariant forall i | n <= i < |tenants| :: tenants[i].State() == was[i]
      invariant claimed == ClaimedIn(was[..n], turns[..n])
    {
      assert was[..n + 1][..n] == was[..n] && turns[..n + 1][..n] == turns[..n];
      var worked := GiveTurn(tenants[n], turns[n]);
      if worked { claimed := claimed + 1; }
    }
    assert was[..|tenants|] == was && turns[..|tenants|] == turns;
  }
}
