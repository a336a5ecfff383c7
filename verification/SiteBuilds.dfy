/**
  The per-tenant static-site build protocol as a state machine: what one committed
  transaction of the enqueue service, the worker or the callback service does to the
  tenant's state row and its table of build requests.

  A request's identity is its index in the table; rows are never deleted.
 */
module SiteBuilds {
  import opened Common

  type AttemptCap = n: nat | 1 <= n <= 20 witness 5
  type LeaseLength = n: nat | 30 <= n <= 3600 witness 300

  // Deployment settings: any values in the ranges the configuration admits.
  const MAX_ATTEMPTS: AttemptCap
  const LEASE_SECONDS: LeaseLength

  datatype Status = Pending | Running | Successful | Failed | Superseded

  datatype Request = Request(
    target: nat,
    status: Status,
    attempts: nat,
    requestedAt: int,
    nextAttemptAt: int,
    startedAt: Option<int>,
    leaseExpiresAt: Option<int>,
    completedAt: Option<int>,
    failedAt: Option<int>,
    actual: Option<nat>)

  // The tenant's state row, its build configuration switch and its requests.
  datatype Site = Site(
    content: nat,
    deployed: Option<nat>,
    lastBuildAt: Option<int>,
    enabled: bool,
    requests: seq<Request>)

  const EMPTY_SITE := Site(0, None, None, false, [])

  // ---------- queries ----------

  /** `SELECT ... WHERE status = st`, first row. */
  function Find(rows: seq<Request>, st: Status): (r: Option<nat>)
    ensures r.Some? ==> r.value < |rows| && rows[r.value].status == st
    ensures r.None? ==> forall i | 0 <= i < |rows| :: rows[i].status != st
  {
    if rows == [] then None
    else if rows[|rows| - 1].status == st then Some(|rows| - 1)
    else Find(rows[..|rows| - 1], st)
  }

  predicate IsDue(r: Request, now: int) {
    r.status == Pending && r.nextAttemptAt <= now
  }

  /** The due row with the oldest `requestedAt`. */
  function OldestDue(rows: seq<Request>, now: int): (r: Option<nat>)
    ensures r.Some? ==> r.value < |rows| && IsDue(rows[r.value], now)
    ensures r.Some? ==> forall i | 0 <= i < |rows| && IsDue(rows[i], now) ::
                          rows[r.value].requestedAt <= rows[i].requestedAt
    ensures r.None? ==> forall i | 0 <= i < |rows| :: !IsDue(rows[i], now)
  {
    if rows == [] then None
    else
      var last := |rows| - 1;
      var earlier := OldestDue(rows[..last], now);
      if IsDue(rows[last], now) &&
         (earlier.None? || rows[last].requestedAt < rows[earlier.value].requestedAt)
      then Some(last)
      else earlier
  }

  // ---------- enqueue: app/site_builds/service.py ----------

  function NewRequest(target: nat, now: int): Request {
    Request(target, Pending, 0, now, now, None, None, None, None, None)
  }

  function RaiseTarget(r: Request, target: nat): Request {
    r.(target := Max(r.target, target))
  }

  function Enqueue(s: Site, now: int): Site {
    match Find(s.requests, Pending)
    case Some(p) =>
      s.(requests := s.requests[p := RaiseTarget(s.requests[p], s.content)
                                     .(requestedAt := now, nextAttemptAt := now)])
    case None => s.(requests := s.requests + [NewRequest(s.content, now)])
  }

  function ContentChanged(s: Site, now: int): Site {
    Enqueue(s.(content := s.content + 1), now)
  }

  // ---------- worker: app/site_builds/worker.py ----------

  /** Row `r` gives way to the PENDING row `p`, which takes over its target. */
  function GiveWay(rows: seq<Request>, r: nat, p: nat, lease: Option<int>): seq<Request>
    requires r < |rows| && p < |rows|
  {
    var raised := rows[p := RaiseTarget(rows[p], rows[r].target)];
    raised[r := raised[r].(status := Superseded, leaseExpiresAt := lease)]
  }

  function ExpireLease(rows: seq<Request>, r: nat, now: int): seq<Request>
    requires r < |rows|
  {
    match Find(rows, Pending)
    case Some(p) => GiveWay(rows, r, p, rows[r].leaseExpiresAt)
    case None => rows[r := rows[r].(status := Pending, startedAt := None,
                                    leaseExpiresAt := None, nextAttemptAt := now)]
  }

  function Start(r: Request, now: int): Request {
    r.(status := Running, attempts := r.attempts + 1, startedAt := Some(now),
       leaseExpiresAt := Some(now + LEASE_SECONDS))
  }

  predicate LeaseHeld(r: Request, now: int) {
    r.leaseExpiresAt.None? || r.leaseExpiresAt.value > now
  }

  /**
    One claim. The due row is selected from the rows as they were when the transaction
    began (the session does not flush before queries), but written over the rows as the
    lease expiry has left them. `locked` says that another transaction holds the due row,
    which the query then skips.
   */
  function Claim(s: Site, now: int, locked: bool): (Site, Option<nat>) {
    var running := Find(s.requests, Running);
    if !s.enabled || (running.Some? && LeaseHeld(s.requests[running.value], now)) then (s, None)
    else
      var rows := if running.Some? then ExpireLease(s.requests, running.value, now) else s.requests;
      var due := OldestDue(s.requests, now);
      if due.None? || locked then (s.(requests := rows), None)
      else (s.(requests := rows[due.value := Start(rows[due.value], now)]), due)
  }

  function Pow2(n: nat): (r: nat)
    ensures r >= 1
  {
    if n == 0 then 1 else 2 * Pow2(n - 1)
  }

  function Backoff(attempts: nat): nat {
    Min(3600, Pow2(Max(0, attempts - 1)) * 30)
  }

  function Retry(r: Request, now: int): Request {
    r.(status := Pending, nextAttemptAt := now + Backoff(r.attempts),
       startedAt := None, leaseExpiresAt := None)
  }

  function GiveUp(r: Request, now: int): Request {
    r.(status := Failed, failedAt := Some(now), leaseExpiresAt := None)
  }

  function TriggerFailed(s: Site, id: nat, now: int): Site {
    if id >= |s.requests| || s.requests[id].status != Running then s
    else
      var rows := s.requests;
      match Find(rows, Pending)
      case Some(p) => s.(requests := GiveWay(rows, id, p, None))
      case None =>
        if rows[id].attempts >= MAX_ATTEMPTS then s.(requests := rows[id := GiveUp(rows[id], now)])
        else s.(requests := rows[id := Retry(rows[id], now)])
  }

  // ---------- callbacks: app/site_builds/result_service.py ----------

  datatype Reply = Accepted | NotFound | RevisionInvalid | Conflict

  function RecordSuccess(s: Site, id: nat, actual: Option<nat>, now: int): (Site, Reply) {
    if id >= |s.requests| then (s, NotFound)
    else
      var r := s.requests[id];
      if actual.None? || actual.value < r.target then (s, RevisionInvalid)
      else if r.status == Successful || (r.status == Superseded && r.completedAt.Some?) then
        (s, if r.actual == actual then Accepted else Conflict)
      else if r.status == Failed then (s, Conflict)
      else
        var done := r.(status := if r.status == Superseded then Superseded else Successful,
                       actual := actual, completedAt := Some(now), leaseExpiresAt := None);
        var previous := if s.deployed.Some? then s.deployed.value else 0;
        (s.(deployed := Some(Max(previous, actual.value)), lastBuildAt := Some(now),
            requests := s.requests[id := done]), Accepted)
  }

  /**
    A failure report. The query for a PENDING row does not exclude the reported row: when
    that row is itself PENDING it is found, and superseded by itself.
   */
  function RecordFailure(s: Site, id: nat, retryable: bool, now: int): (Site, Reply) {
    if id >= |s.requests| then (s, NotFound)
    else
      var rows := s.requests;
      if rows[id].status in {Successful, Superseded, Failed} then (s, Accepted)
      else
        var rows' := match Find(rows, Pending)
          case Some(p) => GiveWay(rows, id, p, None)
          case None =>
            rows[id := if retryable && rows[id].attempts < MAX_ATTEMPTS
                       then Retry(rows[id], now) else GiveUp(rows[id], now)];
        (s.(requests := rows'), Accepted)
  }

  // ---------- steps and runs ----------

  datatype Event =
    | ContentChange(now: int)
    | ManualRebuild(now: int)
    | Configure(enabled: bool)
    | ClaimDue(now: int, locked: bool)
    | TriggerFailure(id: nat, now: int)
    | Success(id: nat, actual: Option<nat>, now: int)
    | Failure(id: nat, retryable: bool, now: int)

  function Step(s: Site, e: Event): Site {
    match e
    case ContentChange(now) => ContentChanged(s, now)
    case ManualRebuild(now) => Enqueue(s, now)
    case Configure(enabled) => s.(enabled := enabled)
    case ClaimDue(now, locked) => Claim(s, now, locked).0
    case TriggerFailure(id, now) => TriggerFailed(s, id, now)
    case Success(id, actual, now) => RecordSuccess(s, id, actual, now).0
    case Failure(id, retryable, now) => RecordFailure(s, id, retryable, now).0
  }

  function Run(s: Site, es: seq<Event>): Site {
    if es == [] then s else Step(Run(s, es[..|es| - 1]), es[|es| - 1])
  }
}
