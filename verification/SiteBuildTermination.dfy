/**
  Retrying ends: without new content or manual rebuilds the table can change only so
  often, unless leases keep expiring under requests that have used up their attempts.
 */
module SiteBuildTermination {
  import opened Common
  import opened SiteBuilds
  import opened SiteBuildSafety
  import opened SiteBuildRuns

  /** How many changes a row may still go through. */
  function Weight(r: Request): nat {
    match r.status
    case Pending => if r.attempts >= MAX_ATTEMPTS then 3 else 2 * (MAX_ATTEMPTS - r.attempts) + 3
    case Running => if r.attempts > MAX_ATTEMPTS then 2 else 2 * (MAX_ATTEMPTS - r.attempts) + 4
    case Superseded => if r.completedAt.None? then 1 else 0
    case _ => 0
  }

  function Total(rows: seq<Request>): nat {
    if rows == [] then 0 else Total(rows[..|rows| - 1]) + Weight(rows[|rows| - 1])
  }

  lemma {:induction false} TotalUpdate(rows: seq<Request>, i: nat, r: Request)
    requires i < |rows|
    ensures Total(rows[i := r]) == Total(rows) - Weight(rows[i]) + Weight(r)
  {
    var n := |rows| - 1;
    if i < n {
      TotalUpdate(rows[..n], i, r);
      assert rows[i := r][..n] == rows[..n][i := r];
    } else {
      assert rows[i := r][..n] == rows[..n];
    }
  }

  lemma GiveWayLightens(s: Site, r: nat, p: nat, lease: Option<int>)
    requires Inv(s) && r < |s.requests| && p < |s.requests|
    requires s.requests[p].status == Pending && s.requests[r].status in {Pending, Running}
    ensures Total(GiveWay(s.requests, r, p, lease)) < Total(s.requests)
  {
    var raised := s.requests[p := RaiseTarget(s.requests[p], s.requests[r].target)];
    TotalUpdate(s.requests, p, raised[p]);
    TotalUpdate(raised, r, raised[r].(status := Superseded, leaseExpiresAt := lease));
  }

  predicate Quiet(e: Event) {
    !e.ContentChange? && !e.ManualRebuild?
  }

  /** A lease expires under a request already past the attempt cap, and nothing else is waiting. */
  ghost predicate IsLateRevert(s: Site, e: Event) {
    exists i :: 0 <= i < |s.requests| && IsRevertOf(s, e, i) && s.requests[i].attempts > MAX_ATTEMPTS
  }

  lemma ExpiryMeasure(s: Site, r: nat, now: int)
    requires Inv(s) && Find(s.requests, Running) == Some(r)
    ensures var rows := ExpireLease(s.requests, r, now);
            if Find(s.requests, Pending).None? && s.requests[r].attempts > MAX_ATTEMPTS
            then Total(rows) == Total(s.requests) + 1
            else Total(rows) < Total(s.requests)
  {
    match Find(s.requests, Pending)
    case Some(p) => GiveWayLightens(s, r, p, s.requests[r].leaseExpiresAt);
    case None => TotalUpdate(s.requests, r, ExpireLease(s.requests, r, now)[r]);
  }

  lemma StartMeasure(rows: seq<Request>, i: nat, now: int)
    requires i < |rows| && rows[i].status == Pending
    ensures Total(rows[i := Start(rows[i], now)]) < Total(rows)
  {
    TotalUpdate(rows, i, Start(rows[i], now));
  }

  lemma LateRevertExactly(s: Site, now: int, locked: bool)
    requires Inv(s)
    ensures var running := Find(s.requests, Running);
            IsLateRevert(s, ClaimDue(now, locked)) <==>
              s.enabled && running.Some? && !LeaseHeld(s.requests[running.value], now)
              && Find(s.requests, Pending).None? && s.requests[running.value].attempts > MAX_ATTEMPTS
  {
    var e := ClaimDue(now, locked);
    var running := Find(s.requests, Running);
    if s.enabled && running.Some? && !LeaseHeld(s.requests[running.value], now) {
      if Find(s.requests, Pending).None? { assert IsRevertOf(s, e, running.value); }
    }
  }

  lemma ClaimMeasure(s: Site, now: int, locked: bool)
    requires Inv(s)
    ensures var rows := Claim(s, now, locked).0.requests;
            rows != s.requests ==>
              if IsLateRevert(s, ClaimDue(now, locked)) then Total(rows) == Total(s.requests) + 1
              else Total(rows) < Total(s.requests)
  {
    LateRevertExactly(s, now, locked);
    var running, due := Find(s.requests, Running), OldestDue(s.requests, now);
    if s.enabled && running.Some? && !LeaseHeld(s.requests[running.value], now) {
      ExpiryMeasure(s, running.value, now);
      if due.Some? && !locked {
        ExpireThenStart(s, running.value, due.value, now);
        StartMeasure(ExpireLease(s.requests, running.value, now), due.value, now);
      }
    } else if s.enabled && running.None? && due.Some? && !locked {
      StartMeasure(s.requests, due.value, now);
    }
  }

  lemma FailureMeasure(s: Site, id: nat, r: Request)
    requires Inv(s) && id < |s.requests| && s.requests[id].status in {Pending, Running}
    requires Weight(r) < Weight(s.requests[id])
    ensures Find(s.requests, Pending).Some? ==>
              Total(GiveWay(s.requests, id, Find(s.requests, Pending).value, None)) < Total(s.requests)
    ensures Total(s.requests[id := r]) < Total(s.requests)
  {
    TotalUpdate(s.requests, id, r);
    var p := Find(s.requests, Pending);
    if p.Some? { GiveWayLightens(s, id, p.value, None); }
  }

  lemma TriggerMeasure(s: Site, id: nat, now: int)
    requires Inv(s)
    ensures var rows := TriggerFailed(s, id, now).requests;
            rows != s.requests ==> Total(rows) < Total(s.requests)
  {
    if id < |s.requests| && s.requests[id].status == Running {
      var r := s.requests[id];
      FailureMeasure(s, id, if r.attempts >= MAX_ATTEMPTS then GiveUp(r, now) else Retry(r, now));
    }
  }

  lemma SuccessMeasure(s: Site, id: nat, actual: Option<nat>, now: int)
    ensures var rows := RecordSuccess(s, id, actual, now).0.requests;
            rows != s.requests ==> Total(rows) < Total(s.requests)
  {
    var rows := RecordSuccess(s, id, actual, now).0.requests;
    if rows != s.requests { TotalUpdate(s.requests, id, rows[id]); }
  }

  lemma FailureReportMeasure(s: Site, id: nat, retryable: bool, now: int)
    requires Inv(s)
    ensures var rows := RecordFailure(s, id, retryable, now).0.requests;
            rows != s.requests ==> Total(rows) < Total(s.requests)
  {
    if id < |s.requests| && s.requests[id].status in {Pending, Running} {
      var r := s.requests[id];
      FailureMeasure(s, id, if r.status == Running && retryable && r.attempts < MAX_ATTEMPTS then Retry(r, now) else GiveUp(r, now));
    }
  }

  lemma CallbackMeasure(s: Site, e: Event)
    requires Inv(s) && (e.TriggerFailure? || e.Success? || e.Failure?)
    ensures Step(s, e).requests != s.requests ==> Total(Step(s, e).requests) < Total(s.requests)
  {
    match e
    case TriggerFailure(id, now) => TriggerMeasure(s, id, now);
    case Success(id, actual, now) => SuccessMeasure(s, id, actual, now);
    case Failure(id, retryable, now) => FailureReportMeasure(s, id, retryable, now);
    case _ =>
  }

  /** A step that changes the table brings it closer to rest, with one exception, which does not. */
  lemma StepMeasure(s: Site, e: Event)
    requires Inv(s) && Quiet(e) && Step(s, e).requests != s.requests
    ensures Total(Step(s, e).requests) < Total(s.requests) <==> !IsLateRevert(s, e)
    ensures Total(Step(s, e).requests) <= Total(s.requests) + 1
  {
    if e.ClaimDue? { ClaimMeasure(s, e.now, e.locked); } else { CallbackMeasure(s, e); }
  }

  function Changes(s: Site, es: seq<Event>): nat {
    if es == [] then 0
    else Changes(s, Init(es)) + (if Run(s, es).requests != Run(s, Init(es)).requests then 1 else 0)
  }

  ghost function LateReverts(s: Site, es: seq<Event>): nat {
    if es == [] then 0
    else LateReverts(s, Init(es)) + (if IsLateRevert(Run(s, Init(es)), Last(es)) then 1 else 0)
  }

  /** However long the run, and however the steps interleave. */
  lemma {:induction false} RetriesTerminate(s: Site, es: seq<Event>)
    requires Inv(s) && forall e | e in es :: Quiet(e)
    ensures Changes(s, es) + Total(Run(s, es).requests) <= Total(s.requests) + 2 * LateReverts(s, es)
  {
    if es != [] {
      assert forall e | e in Init(es) :: e in es;
      RetriesTerminate(s, Init(es));
      RunKeepsInv(s, Init(es));
      if Run(s, es).requests != Run(s, Init(es)).requests { StepMeasure(Run(s, Init(es)), Last(es)); }
    }
  }

  // ---------- the exception has no bound ----------

  function ExpiryTime(n: nat): int {
    if n == 0 then LEASE_SECONDS else ExpiryTime(n - 1) + LEASE_SECONDS
  }

  // A build whose worker crashes n times: each lease runs out, and the request is claimed again.
  function CrashLoop(n: nat): seq<Event> {
    if n == 0 then FIRST_BUILD
    else CrashLoop(n - 1) + [ClaimDue(ExpiryTime(n - 1), false)] + [ClaimDue(ExpiryTime(n - 1), false)]
  }

  ghost predicate CrashedTimes(s: Site, n: nat) {
    && s.enabled && |s.requests| == 1 && s.requests[0].status == Running
    && s.requests[0].attempts == n + 1 && s.requests[0].leaseExpiresAt == Some(ExpiryTime(n))
  }

  lemma CrashOnceMore(s: Site, n: nat)
    requires CrashedTimes(s, n)
    ensures CrashedTimes(Step(Step(s, ClaimDue(ExpiryTime(n), false)), ClaimDue(ExpiryTime(n), false)), n + 1)
  {
    ExpireOnlyRow(s, ExpiryTime(n));
    ClaimOnlyRow(Step(s, ClaimDue(ExpiryTime(n), false)), ExpiryTime(n));
  }

  /** The worker never looks at the attempt cap: after one change of content any number of attempts is reached. */
  lemma {:induction false} AttemptsUnbounded(n: nat)
    ensures CrashedTimes(Run(EMPTY_SITE, CrashLoop(n)), n)
  {
    if n == 0 {
      FirstBuildStarts();
    } else {
      AttemptsUnbounded(n - 1);
      var again := ClaimDue(ExpiryTime(n - 1), false);
      RunSnoc(EMPTY_SITE, CrashLoop(n - 1), again);
      RunSnoc(EMPTY_SITE, CrashLoop(n - 1) + [again], again);
      CrashOnceMore(Run(EMPTY_SITE, CrashLoop(n - 1)), n - 1);
    }
  }
}
