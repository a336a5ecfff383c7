/**
  What each transaction of the build protocol does: when it acts, told by the rows there are,
  and what exactly it leaves behind.
 */
module SiteBuildOutcomes {
  import opened Common
  import opened SiteBuilds
  import opened SiteBuildSafety
  import opened SiteBuildRuns
  import opened TenantSites

  ghost predicate Has(rows: seq<Request>, i: int, status: Status) {
    0 <= i < |rows| && rows[i].status == status
  }

  ghost predicate HasNone(rows: seq<Request>, status: Status) {
    forall i :: !Has(rows, i, status)
  }

  lemma FindsExactly(rows: seq<Request>, status: Status)
    ensures Find(rows, status).None? <==> HasNone(rows, status)
    ensures AtMostOne(rows, status) ==> forall i :: Has(rows, i, status) <==> Find(rows, status).Some? && Find(rows, status).value == i
  {
    var found := Find(rows, status);
    if found.Some? { assert Has(rows, found.value, status); }
    if AtMostOne(rows, status) {
      forall i ensures Has(rows, i, status) <==> found.Some? && found.value == i { }
    }
  }

  // ---------- enqueueing ----------

  /** A PENDING request stands for all content there is and is due at once; if there was none, one is added. */
  lemma EnqueuesExactly(s: Site, now: int)
    requires Inv(s)
    ensures var s' := Enqueue(s, now);
            && s' == s.(requests := s'.requests)
            && (forall p | Has(s.requests, p, Pending) ::
                  && OnlyRow(s.requests, s'.requests, p)
                  && s'.requests[p] == s.requests[p].(target := s.content, requestedAt := now, nextAttemptAt := now))
            && (HasNone(s.requests, Pending) ==>
                  && OneMore(s.requests, s'.requests)
                  && s'.requests[|s.requests|] == Request(s.content, Pending, 0, now, now, None, None, None, None, None))
  {
    FindsExactly(s.requests, Pending);
  }

  /** A content change raises the revision by one before that. */
  lemma ChangesExactly(s: Site, now: int)
    ensures ContentChanged(s, now) == Enqueue(s.(content := s.content + 1), now)
    ensures ContentChanged(s, now).content == s.content + 1
  {
  }

  /** Where nothing is RUNNING, what was just enqueued is claimed by any claim from then on, whatever back-off stood before. */
  lemma EnqueuedIsClaimable(s: Site, now: int, later: int)
    requires Inv(s) && s.enabled && HasNone(s.requests, Running) && now <= later
    ensures var (s', claimed) := Claim(Enqueue(s, now), later, false);
            claimed.Some? && claimed.value < |s'.requests| && s'.requests[claimed.value].status == Running && s'.requests[claimed.value].target == s.content
  {
    var enqueued := Enqueue(s, now);
    EnqueueKeeps(s, s.content, now);
    EnqueuesExactly(s, now);
    FindsExactly(s.requests, Pending);
    var p := if Find(s.requests, Pending).Some? then Find(s.requests, Pending).value else |s.requests|;
    assert IsDue(enqueued.requests[p], later) && enqueued.requests[p].target == s.content;
    assert HasNone(enqueued.requests, Running) by {
      forall i ensures !Has(enqueued.requests, i, Running) { assert !Has(s.requests, i, Running); }
    }
    FindsExactly(enqueued.requests, Running);
    var due := OldestDue(enqueued.requests, later);
    assert due == Some(p);
  }

  // ---------- claiming ----------

  /** A worker may be at work: a RUNNING request whose lease has not run out. */
  ghost predicate Busy(rows: seq<Request>, now: int) {
    exists r :: Has(rows, r, Running) && LeaseHeld(rows[r], now)
  }

  /** The row `i`, as claimed at `now`. */
  predicate Claimed(was: Request, row: Request, target: nat, now: int) {
    row == was.(status := Running, target := target, attempts := was.attempts + 1,
                startedAt := Some(now), leaseExpiresAt := Some(now + LEASE_SECONDS))
  }

  lemma IdleClaims(s: Site, now: int, locked: bool)
    requires Inv(s) && s.enabled && HasNone(s.requests, Running)
    ensures var (s', claimed) := Claim(s, now, locked);
            && s' == s.(requests := s'.requests)
            && (claimed.Some? <==> !locked && exists i :: 0 <= i < |s.requests| && IsDue(s.requests[i], now))
            && (claimed.None? ==> s' == s)
            && (claimed.Some? ==>
                  var i := claimed.value;
                  && i < |s.requests| && IsDue(s.requests[i], now) && OnlyRow(s.requests, s'.requests, i)
                  && Claimed(s.requests[i], s'.requests[i], s.requests[i].target, now))
  {
    FindsExactly(s.requests, Running);
  }

  /** With its lease run out, a RUNNING request gives way to the PENDING one, which is claimed if it is due, or is itself put back, due at once. */
  lemma ExpiredClaims(s: Site, now: int, locked: bool, r: nat)
    requires Inv(s) && s.enabled && Has(s.requests, r, Running) && !LeaseHeld(s.requests[r], now)
    ensures var (s', claimed) := Claim(s, now, locked);
            && s' == s.(requests := s'.requests) && |s'.requests| == |s.requests|
            && (HasNone(s.requests, Pending) ==>
                  && claimed.None? && OnlyRow(s.requests, s'.requests, r)
                  && s'.requests[r] == s.requests[r].(status := Pending, startedAt := None, leaseExpiresAt := None, nextAttemptAt := now))
            && (forall p | Has(s.requests, p, Pending) ::
                  && var target := Max(s.requests[p].target, s.requests[r].target);
                     var due := !locked && s.requests[p].nextAttemptAt <= now;
                     && s'.requests[r] == s.requests[r].(status := Superseded)
                     && (forall k | 0 <= k < |s.requests| && k != r && k != p :: s'.requests[k] == s.requests[k])
                     && (if due then claimed.Some? && claimed.value == p && Claimed(s.requests[p], s'.requests[p], target, now)
                         else claimed.None? && s'.requests[p] == s.requests[p].(target := target)))
  {
    FindsExactly(s.requests, Running);
    FindsExactly(s.requests, Pending);
    var due := OldestDue(s.requests, now);
    if due.Some? { assert Has(s.requests, due.value, Pending); }
  }

  lemma NoClaim(s: Site, now: int, locked: bool)
    requires Inv(s) && (!s.enabled || Busy(s.requests, now))
    ensures Claim(s, now, locked) == (s, None)
  {
    FindsExactly(s.requests, Running);
  }

  // ---------- failing ----------

  /** The failed request gives way to the PENDING one, which takes over its target. */
  ghost predicate GaveWay(rows: seq<Request>, after: seq<Request>, id: nat, p: int)
    requires id < |rows| && 0 <= p < |rows|
  {
    && |after| == |rows| && (forall k | 0 <= k < |rows| && k != id && k != p :: after[k] == rows[k])
    && after[id] == rows[id].(status := Superseded, leaseExpiresAt := None)
    && (id != p ==> after[p] == rows[p].(target := Max(rows[p].target, rows[id].target)))
  }

  /** The failed request is given up, or is PENDING again, due after its delay. */
  ghost predicate Settled(rows: seq<Request>, after: seq<Request>, id: nat, givenUp: bool, now: int)
    requires id < |rows|
  {
    && OnlyRow(rows, after, id)
    && (givenUp ==> after[id] == rows[id].(status := Failed, failedAt := Some(now), leaseExpiresAt := None))
    && (!givenUp ==> after[id] == rows[id].(status := Pending, nextAttemptAt := now + Backoff(rows[id].attempts),
                                            startedAt := None, leaseExpiresAt := None))
  }

  /** A failed trigger: nothing newer waiting, the request is FAILED if and only if it has used up its attempts, and is retried otherwise. */
  lemma TriggerFailsExactly(s: Site, id: nat, now: int)
    requires Inv(s)
    ensures var s' := SiteBuilds.TriggerFailed(s, id, now);
            && s' == s.(requests := s'.requests)
            && (!Has(s.requests, id, Running) ==> s' == s)
            && (Has(s.requests, id, Running) ==>
                  && (forall p | Has(s.requests, p, Pending) :: GaveWay(s.requests, s'.requests, id, p))
                  && (HasNone(s.requests, Pending) ==>
                        Settled(s.requests, s'.requests, id, s.requests[id].attempts >= MAX_ATTEMPTS, now)))
  {
    FindsExactly(s.requests, Pending);
  }

  /** A failure report, which may also rule out another attempt, and which a PENDING request answers for by giving way to itself. */
  lemma FailureReportsExactly(s: Site, id: nat, retryable: bool, now: int)
    requires Inv(s)
    ensures var (s', reply) := RecordFailure(s, id, retryable, now);
            && s' == s.(requests := s'.requests)
            && reply == (if id < |s.requests| then Accepted else NotFound)
            && (!Has(s.requests, id, Running) && !Has(s.requests, id, Pending) ==> s' == s)
            && (Has(s.requests, id, Running) || Has(s.requests, id, Pending) ==>
                  && (forall p | Has(s.requests, p, Pending) :: GaveWay(s.requests, s'.requests, id, p))
                  && (HasNone(s.requests, Pending) ==>
                        Settled(s.requests, s'.requests, id, !retryable || s.requests[id].attempts >= MAX_ATTEMPTS, now)))
  {
    FindsExactly(s.requests, Pending);
  }

  /** The delay is 30 seconds after the first attempt and doubles with each, up to an hour. */
  lemma DelayDoubles(attempts: nat)
    ensures Backoff(0) == 30 && Backoff(1) == 30
    ensures attempts >= 1 ==> Backoff(attempts + 1) == Min(3600, 2 * Backoff(attempts))
  {
    assert Pow2(0) == 1;
    if attempts >= 1 { assert Pow2(attempts) == 2 * Pow2(attempts - 1); }
  }

  /** Every failure the run reports may be retried. */
  predicate AllRetryable(es: seq<Event>) {
    forall e | e in es :: e.Failure? ==> e.retryable
  }

  lemma StepFails(s: Site, e: Event, i: nat)
    requires Inv(s) && (e.Failure? ==> e.retryable) && Has(Step(s, e).requests, i, Failed)
    ensures Has(s.requests, i, Failed) || (Has(s.requests, i, Running) && s.requests[i].attempts >= MAX_ATTEMPTS)
    ensures Step(s, e).requests[i].attempts == s.requests[i].attempts
  {
    InvStep(s, e);
    if i < |s.requests| { assert Evolves(s.requests[i], Step(s, e).requests[i]); }
    if e.ClaimDue? {
      ClaimFailsNone(s, e.now, e.locked, i);
    } else if i < |s.requests| {
      FailsOnlyAtCap(s, e, i);
    }
  }

  lemma ClaimFailsNone(s: Site, now: int, locked: bool, i: nat)
    requires Inv(s) && Has(Claim(s, now, locked).0.requests, i, Failed)
    ensures Has(s.requests, i, Failed)
  {
  }

  lemma FailsOnlyAtCap(s: Site, e: Event, i: nat)
    requires Inv(s) && !e.ClaimDue? && (e.Failure? ==> e.retryable) && i < |s.requests| && Has(Step(s, e).requests, i, Failed)
    ensures Has(s.requests, i, Failed) || (Has(s.requests, i, Running) && s.requests[i].attempts >= MAX_ATTEMPTS)
  {
    match e
    case TriggerFailure(id, now) => TriggerFailsExactly(s, id, now); FindsExactly(s.requests, Pending);
    case Failure(id, retryable, now) => FailureReportsExactly(s, id, retryable, now); FindsExactly(s.requests, Pending);
    case _ =>
  }

  lemma {:induction false} FailedAtCap(es: seq<Event>, i: nat)
    requires AllRetryable(es) && Has(Run(EMPTY_SITE, es).requests, i, Failed)
    ensures Run(EMPTY_SITE, es).requests[i].attempts >= MAX_ATTEMPTS
  {
    if es != [] {
      assert forall e | e in Init(es) :: e in es;
      var before := Run(EMPTY_SITE, Init(es));
      RunKeepsInv(EMPTY_SITE, Init(es));
      StepFails(before, Last(es), i);
      if Has(before.requests, i, Failed) { FailedAtCap(Init(es), i); }
    }
  }

  /** Unless a report rules out another attempt, a request is FAILED only after it has been claimed as often as allowed. */
  lemma FailedOnlyAfterAllAttempts(es: seq<Event>, i: nat)
    requires AllRetryable(es) && Has(Run(EMPTY_SITE, es).requests, i, Failed)
    ensures Claims(EMPTY_SITE, es, i) >= MAX_ATTEMPTS
  {
    FailedAtCap(es, i);
    AttemptsAreClaims(es, i);
  }

  // ---------- reporting success ----------

  /** A success of this request is on record. */
  predicate OnRecord(r: Request) {
    r.status == Successful || (r.status == Superseded && r.completedAt.Some?)
  }

  /** A report is accepted when it is the first of a request that has not failed, or repeats it, and is not older than what was asked for. */
  lemma SuccessReportsExactly(s: Site, id: nat, actual: Option<nat>, now: int)
    ensures var (s', reply) := RecordSuccess(s, id, actual, now);
            var recent := id < |s.requests| && actual.Some? && s.requests[id].target <= actual.value;
            && (reply == NotFound <==> id >= |s.requests|)
            && (reply == RevisionInvalid <==> id < |s.requests| && !recent)
            && (reply == Accepted <==>
                  recent && s.requests[id].status != Failed && (OnRecord(s.requests[id]) ==> s.requests[id].actual == actual))
            && (reply == SiteBuilds.Conflict <==>
                  recent && (s.requests[id].status == Failed || (OnRecord(s.requests[id]) && s.requests[id].actual != actual)))
            && (s' != s ==> reply == Accepted && !OnRecord(s.requests[id]))
            && (reply == Accepted && !OnRecord(s.requests[id]) ==>
                  && s' == s.(deployed := s'.deployed, lastBuildAt := Some(now), requests := s'.requests)
                  && OnlyRow(s.requests, s'.requests, id)
                  && s'.requests[id] == s.requests[id].(actual := actual, completedAt := Some(now), leaseExpiresAt := None,
                       status := if s.requests[id].status == Superseded then Superseded else Successful)
                  && s'.deployed == (if s.deployed.Some? && s.deployed.value >= actual.value then s.deployed else actual))
  {
  }

  // ---------- one turn of the worker ----------

  /** A turn is a claim and, exactly where something was claimed and its trigger failed, that failure. */
  lemma TurnIsRun(s: Site, t: Turn)
    ensures var claimed := Claim(s, t.now, t.locked).1;
            TakeTurn(s, t) == if claimed.Some? && !t.triggered
                              then Run(s, [ClaimDue(t.now, t.locked), TriggerFailure(claimed.value, t.failedAt)])
                              else Run(s, [ClaimDue(t.now, t.locked)])
  {
    var claim := ClaimDue(t.now, t.locked);
    assert Init([claim]) == [] && Run(s, [claim]) == Step(s, claim);
    var claimed := Claim(s, t.now, t.locked).1;
    if claimed.Some? { RunTwo(s, claim, TriggerFailure(claimed.value, t.failedAt)); }
  }
}
