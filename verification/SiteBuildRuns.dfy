/**
  Theorems about whole runs of the build protocol: any sequence of content changes,
  rebuilds, claims, trigger failures and callbacks, in any order, from an empty site.
 */
module SiteBuildRuns {
  import opened Common
  import opened SiteBuilds
  import opened SiteBuildSafety

  function Last<T>(xs: seq<T>): T
    requires xs != []
  {
    xs[|xs| - 1]
  }

  function Init<T>(xs: seq<T>): seq<T>
    requires xs != []
  {
    xs[..|xs| - 1]
  }

  lemma {:induction false} RunKeepsInv(s: Site, es: seq<Event>)
    requires Inv(s)
    ensures Inv(Run(s, es))
  {
    if es != [] {
      RunKeepsInv(s, Init(es));
      InvStep(Run(s, Init(es)), Last(es));
    }
  }

  // ---------- no revision is lost ----------

  /** No failure report of the run hits a row that is PENDING at that moment. */
  predicate Clean(s: Site, es: seq<Event>) {
    es == [] || (Clean(s, Init(es)) && !FailsPending(Run(s, Init(es)), Last(es)))
  }

  lemma {:induction false} NoRevisionIsLost(es: seq<Event>)
    requires Clean(EMPTY_SITE, es)
    ensures NoneLost(Run(EMPTY_SITE, es)) && SupersededCovered(Run(EMPTY_SITE, es))
  {
    if es != [] {
      NoRevisionIsLost(Init(es));
      RunKeepsInv(EMPTY_SITE, Init(es));
      StepLosesNothing(Run(EMPTY_SITE, Init(es)), Last(es));
    }
  }

  /** A failure report for the PENDING row that alone stands for content that is not deployed. */
  predicate Loses(s: Site, e: Event) {
    && FailsPending(s, e) && s.content > 0 && (s.deployed.None? || s.deployed.value < s.content)
    && forall i | 0 <= i < |s.requests| && i != e.id :: !Awaits(s.requests[i], s.content)
  }

  // Such a report supersedes the row it names, and does nothing else to the table.
  lemma FailedPendingRow(s: Site, e: Event)
    requires Inv(s) && FailsPending(s, e)
    ensures var s' := Step(s, e);
            && s'.content == s.content && s'.deployed == s.deployed
            && |s'.requests| == |s.requests| && s'.requests == s.requests[e.id := s'.requests[e.id]]
            && s'.requests[e.id].status == Superseded && s'.requests[e.id].target == s.requests[e.id].target
  {
    assert Find(s.requests, Pending) == Some(e.id);
  }

  /** Exactly which step loses the current revision. */
  lemma LossExactly(s: Site, e: Event)
    requires Inv(s) && NoneLost(s)
    ensures NoneLost(Step(s, e)) <==> !Loses(s, e)
  {
    if FailsPending(s, e) {
      var s' := Step(s, e);
      FailedPendingRow(s, e);
      if s.content > 0 && (s.deployed.None? || s.deployed.value < s.content) && !Loses(s, e) {
        var i :| 0 <= i < |s.requests| && i != e.id && Awaits(s.requests[i], s.content);
        assert Awaits(s'.requests[i], s'.content);
      }
    } else {
      StepKeepsContent(s, e);
    }
  }

  predicate NeverLoses(s: Site, es: seq<Event>) {
    es == [] || (NeverLoses(s, Init(es)) && !Loses(Run(s, Init(es)), Last(es)))
  }

  /** After every event of the run. */
  ghost predicate AlwaysNoneLost(s: Site, es: seq<Event>) {
    NoneLost(Run(s, es)) && (es == [] || AlwaysNoneLost(s, Init(es)))
  }

  /** A run loses no revision if and only if no event of it fails the PENDING row that alone stands for one. */
  lemma {:induction false} NothingLostExactly(es: seq<Event>)
    ensures AlwaysNoneLost(EMPTY_SITE, es) <==> NeverLoses(EMPTY_SITE, es)
  {
    if es != [] {
      NothingLostExactly(Init(es));
      RunKeepsInv(EMPTY_SITE, Init(es));
      if AlwaysNoneLost(EMPTY_SITE, Init(es)) { LossExactly(Run(EMPTY_SITE, Init(es)), Last(es)); }
    }
  }

  /** A failure report for a PENDING row whose target is above that of every other row not superseded. */
  predicate Uncovers(s: Site, e: Event) {
    && FailsPending(s, e)
    && forall i | 0 <= i < |s.requests| && i != e.id && s.requests[i].status != Superseded :: s.requests[i].target < s.requests[e.id].target
  }

  /** Exactly which step leaves a superseded target uncovered. */
  lemma CoverLossExactly(s: Site, e: Event)
    requires Inv(s) && SupersededCovered(s)
    ensures SupersededCovered(Step(s, e)) <==> !Uncovers(s, e)
  {
    if !FailsPending(s, e) {
      StepKeepsCover(s, e);
    } else if Uncovers(s, e) {
      FailedPendingRow(s, e);
      assert !Stands(Step(s, e), Step(s, e).requests[e.id].target);
    } else {
      var s' := Step(s, e);
      FailedPendingRow(s, e);
      var k :| 0 <= k < |s.requests| && k != e.id && s.requests[k].status != Superseded && s.requests[e.id].target <= s.requests[k].target;
      forall i | 0 <= i < |s'.requests| && s'.requests[i].status == Superseded ensures Stands(s', s'.requests[i].target) {
        if i != e.id {
          assert Stands(s, s.requests[i].target);
          var j :| 0 <= j < |s.requests| && s.requests[j].status != Superseded && s.requests[i].target <= s.requests[j].target;
          if j == e.id { assert s'.requests[k].status != Superseded; } else { assert s'.requests[j].status != Superseded; }
        } else {
          assert s'.requests[k].status != Superseded;
        }
      }
    }
  }

  predicate NeverUncovers(s: Site, es: seq<Event>) {
    es == [] || (NeverUncovers(s, Init(es)) && !Uncovers(Run(s, Init(es)), Last(es)))
  }

  ghost predicate AlwaysCovered(s: Site, es: seq<Event>) {
    SupersededCovered(Run(s, es)) && (es == [] || AlwaysCovered(s, Init(es)))
  }

  /** Throughout a run superseded targets are covered if and only if no event of it uncovers one. */
  lemma {:induction false} CoveredExactly(es: seq<Event>)
    ensures AlwaysCovered(EMPTY_SITE, es) <==> NeverUncovers(EMPTY_SITE, es)
  {
    if es != [] {
      CoveredExactly(Init(es));
      RunKeepsInv(EMPTY_SITE, Init(es));
      if AlwaysCovered(EMPTY_SITE, Init(es)) { CoverLossExactly(Run(EMPTY_SITE, Init(es)), Last(es)); }
    }
  }

  lemma RunSnoc(s: Site, es: seq<Event>, e: Event)
    ensures Run(s, es + [e]) == Step(Run(s, es), e)
  {
    assert Init(es + [e]) == es;
  }

  /** The step that loses it: late failure report for the only request, reverted to PENDING. */
  lemma LateFailureLoses(s: Site, now: int)
    requires s.content == 1 && s.deployed.None? && |s.requests| == 1 && s.requests[0].status == Pending
    ensures !NoneLost(Step(s, Failure(0, true, now)))
  {
    assert Find(s.requests, Pending) == Some(0);
  }

  lemma ClaimOnlyRow(s: Site, now: int)
    requires s.enabled && |s.requests| == 1 && IsDue(s.requests[0], now)
    ensures Claim(s, now, false).0 == s.(requests := [Start(s.requests[0], now)])
  {
  }

  lemma ExpireOnlyRow(s: Site, now: int)
    requires s.enabled && |s.requests| == 1 && s.requests[0].status == Running && !LeaseHeld(s.requests[0], now)
    ensures Claim(s, now, false).0.requests
            == [s.requests[0].(status := Pending, startedAt := None, leaseExpiresAt := None, nextAttemptAt := now)]
    ensures Claim(s, now, false).0.content == s.content && Claim(s, now, false).0.deployed == s.deployed
  {
  }

  const FIRST_BUILD := [Configure(true), ContentChange(0), ClaimDue(0, false)]
  const CRASHED_BUILD := FIRST_BUILD + [ClaimDue(LEASE_SECONDS, false)]

  lemma FirstChange()
    ensures Step(EMPTY_SITE.(enabled := true), ContentChange(0))
            == EMPTY_SITE.(enabled := true, content := 1, requests := [NewRequest(1, 0)])
  {
    assert [] + [NewRequest(1, 0)] == [NewRequest(1, 0)];
  }

  lemma RunTwo(s: Site, a: Event, b: Event)
    ensures Run(s, [a, b]) == Step(Step(s, a), b)
  {
    assert Init([a, b]) == [a] && Init([a]) == [];
    assert Run(s, [a]) == Step(s, a);
  }

  lemma FirstBuildStarts()
    ensures Run(EMPTY_SITE, FIRST_BUILD)
            == EMPTY_SITE.(enabled := true, content := 1, requests := [Start(NewRequest(1, 0), 0)])
  {
    assert FIRST_BUILD == [Configure(true), ContentChange(0)] + [ClaimDue(0, false)];
    RunTwo(EMPTY_SITE, Configure(true), ContentChange(0));
    FirstChange();
    RunSnoc(EMPTY_SITE, [Configure(true), ContentChange(0)], ClaimDue(0, false));
    ClaimOnlyRow(EMPTY_SITE.(enabled := true, content := 1, requests := [NewRequest(1, 0)]), 0);
  }

  lemma CrashedBuild()
    ensures var s := Run(EMPTY_SITE, CRASHED_BUILD);
            s.content == 1 && s.deployed.None? && |s.requests| == 1 && s.requests[0].status == Pending
  {
    FirstBuildStarts();
    RunSnoc(EMPTY_SITE, FIRST_BUILD, ClaimDue(LEASE_SECONDS, false));
    ExpireOnlyRow(Run(EMPTY_SITE, FIRST_BUILD), LEASE_SECONDS);
  }

  /** A build's lease expires, then its failure report arrives late: revision 1 is lost. */
  lemma LostRevisionRun()
    ensures Run(EMPTY_SITE, CRASHED_BUILD + [Failure(0, true, LEASE_SECONDS)]).content == 1
    ensures !NoneLost(Run(EMPTY_SITE, CRASHED_BUILD + [Failure(0, true, LEASE_SECONDS)]))
  {
    RunSnoc(EMPTY_SITE, CRASHED_BUILD, Failure(0, true, LEASE_SECONDS));
    CrashedBuild();
    LateFailureLoses(Run(EMPTY_SITE, CRASHED_BUILD), LEASE_SECONDS);
  }

  // ---------- the deployed revision ----------

  lemma {:induction false} DeployedNeverFalls(s: Site, es: seq<Event>)
    requires Inv(s)
    ensures s.deployed.Some? ==> Run(s, es).deployed.Some? && s.deployed.value <= Run(s, es).deployed.value
  {
    if es != [] { DeployedNeverFalls(s, Init(es)); }
  }

  /** What a whole run may do to a row it found. */
  predicate Descends(r: Request, r': Request) {
    && r.target <= r'.target
    && (r.status in {Successful, Failed} ==> r' == r)
    && (r.status == Superseded ==> r'.status == Superseded && r'.target == r.target)
    && (r.actual.Some? ==> r'.actual == r.actual && r'.completedAt == r.completedAt)
  }

  lemma {:induction false} RowDescends(s: Site, es: seq<Event>, i: nat)
    requires Inv(s) && i < |s.requests|
    ensures i < |Run(s, es).requests| && Descends(s.requests[i], Run(s, es).requests[i])
  {
    if es != [] {
      RowDescends(s, Init(es), i);
      RunKeepsInv(s, Init(es));
      InvStep(Run(s, Init(es)), Last(es));
      assert Evolves(Run(s, Init(es)).requests[i], Run(s, es).requests[i]);
    }
  }

  // What an accepted success report leaves in its row.
  lemma AcceptedRow(s: Site, id: nat, actual: Option<nat>, now: int)
    requires Inv(s) && RecordSuccess(s, id, actual, now).1 == Accepted
    ensures var s' := RecordSuccess(s, id, actual, now).0;
            && id < |s'.requests| && s'.requests[id].status in {Successful, Superseded}
            && actual.Some? && s'.requests[id].actual == actual && s'.requests[id].completedAt.Some?
  {
    if id < |s.requests| { assert RowOk(s.requests[id], s.content); }
  }

  lemma RecordedIsRepeated(s: Site, id: nat, actual: Option<nat>, later: int)
    requires id < |s.requests| && RowOk(s.requests[id], s.content)
    requires s.requests[id].actual == actual && actual.Some? && s.requests[id].completedAt.Some?
    ensures RecordSuccess(s, id, actual, later) == (s, Accepted)
  {
  }

  /** Once accepted, a success report may be delivered again at any later point: nothing changes. */
  lemma RepeatedSuccessIsNoOp(s: Site, id: nat, actual: Option<nat>, now: int, es: seq<Event>, later: int)
    requires Inv(s) && RecordSuccess(s, id, actual, now).1 == Accepted
    ensures var t := Run(RecordSuccess(s, id, actual, now).0, es);
            RecordSuccess(t, id, actual, later) == (t, Accepted)
  {
    var s' := RecordSuccess(s, id, actual, now).0;
    SuccessKeeps(s, id, actual, now);
    AcceptedRow(s, id, actual, now);
    RowDescends(s', es, id);
    RunKeepsInv(s', es);
    RecordedIsRepeated(Run(s', es), id, actual, later);
  }

  // ---------- attempts, leases and back-off ----------

  /** Whether the event claims request `i`. */
  predicate IsClaimOf(s: Site, e: Event, i: nat) {
    e.ClaimDue? && Claim(s, e.now, e.locked).1 == Some(i)
  }

  /** Whether the event puts a RUNNING row `i`, whose lease has expired, back to PENDING. */
  predicate IsRevertOf(s: Site, e: Event, i: nat) {
    && e.ClaimDue? && i < |s.requests| && s.requests[i].status == Running
    && i < |Step(s, e).requests| && Step(s, e).requests[i].status == Pending
  }

  function Claims(s: Site, es: seq<Event>, i: nat): nat {
    if es == [] then 0
    else Claims(s, Init(es), i) + (if IsClaimOf(Run(s, Init(es)), Last(es), i) then 1 else 0)
  }

  function Reverts(s: Site, es: seq<Event>, i: nat): nat {
    if es == [] then 0
    else Reverts(s, Init(es), i) + (if IsRevertOf(Run(s, Init(es)), Last(es), i) then 1 else 0)
  }

  lemma ClaimedStarts(s: Site, now: int, locked: bool, i: nat)
    requires Inv(s) && i < |s.requests|
    ensures var (s', claimed) := Claim(s, now, locked);
            |s'.requests| == |s.requests| &&
            (claimed == Some(i) <==> s.requests[i].status != Running && s'.requests[i].status == Running)
  {
    var due := OldestDue(s.requests, now);
    if due.Some? && due.value != i { assert s.requests[due.value].status == Pending; }
  }

  /**
    What a step other than a claim may do to a row: it starts none, and one that is PENDING
    afterwards was so before, and keeps its time unless coalesced into, or has attempts left.
   */
  predicate Unclaimed(r: Request, r': Request, coalesced: bool) {
    && (r'.status == Running ==> r.status == Running)
    && (r'.status == Pending ==> r.status == Pending || (r.status == Running && r.attempts < MAX_ATTEMPTS))
    && (r'.status == Pending && r.status == Pending && !coalesced ==> r'.nextAttemptAt == r.nextAttemptAt)
  }

  lemma EnqueueRow(s: Site, now: int, i: nat)
    requires i < |s.requests|
    ensures i < |Enqueue(s, now).requests| && Unclaimed(s.requests[i], Enqueue(s, now).requests[i], true)
  {
  }

  lemma TriggerFailedRow(s: Site, id: nat, now: int, i: nat)
    requires i < |s.requests|
    ensures i < |TriggerFailed(s, id, now).requests| && Unclaimed(s.requests[i], TriggerFailed(s, id, now).requests[i], false)
  {
  }

  lemma SuccessRow(s: Site, id: nat, actual: Option<nat>, now: int, i: nat)
    requires i < |s.requests|
    ensures var s' := RecordSuccess(s, id, actual, now).0;
            i < |s'.requests| && Unclaimed(s.requests[i], s'.requests[i], false)
  {
  }

  lemma FailureRow(s: Site, id: nat, retryable: bool, now: int, i: nat)
    requires i < |s.requests|
    ensures var s' := RecordFailure(s, id, retryable, now).0;
            i < |s'.requests| && Unclaimed(s.requests[i], s'.requests[i], false)
  {
  }

  lemma OnlyClaimsStart(s: Site, e: Event, i: nat)
    requires !e.ClaimDue? && i < |s.requests|
    ensures i < |Step(s, e).requests|
    ensures Unclaimed(s.requests[i], Step(s, e).requests[i], e.ContentChange? || e.ManualRebuild?)
  {
    match e
    case ContentChange(now) => EnqueueRow(s.(content := s.content + 1), now, i);
    case ManualRebuild(now) => EnqueueRow(s, now, i);
    case Configure(_) =>
    case TriggerFailure(id, now) => TriggerFailedRow(s, id, now, i);
    case Success(id, actual, now) => SuccessRow(s, id, actual, now, i);
    case Failure(id, retryable, now) => FailureRow(s, id, retryable, now, i);
  }

  /** A row's attempts: counted by claims, and capped but for lease reverts. */
  ghost predicate AttemptsAccounted(s: Site, es: seq<Event>, i: nat) {
    var t := Run(s, es);
    if i < |t.requests| then
      && t.requests[i].attempts == Claims(s, es, i)
      && t.requests[i].attempts <= MAX_ATTEMPTS + Reverts(s, es, i)
      && (t.requests[i].status == Pending ==> t.requests[i].attempts < MAX_ATTEMPTS + Reverts(s, es, i))
    else Claims(s, es, i) == 0
  }

  lemma AttemptsStep(s: Site, e: Event, i: nat)
    requires Inv(s)
    ensures var s' := Step(s, e);
            && |s.requests| <= |s'.requests|
            && (IsClaimOf(s, e, i) ==> i < |s.requests|)
            && (i < |s.requests| ==>
                  && s'.requests[i].attempts == s.requests[i].attempts + (if IsClaimOf(s, e, i) then 1 else 0)
                  && (IsClaimOf(s, e, i) ==> s.requests[i].status == Pending && s'.requests[i].status == Running)
                  && (s'.requests[i].status == Pending && !IsRevertOf(s, e, i) ==>
                        s.requests[i].status == Pending || s.requests[i].attempts < MAX_ATTEMPTS))
            && (|s.requests| <= i < |s'.requests| ==> s'.requests[i].attempts == 0)
  {
    var s' := Step(s, e);
    InvStep(s, e);
    assert Follows(s, s');
    if e.ClaimDue? {
      if i < |s.requests| {
        assert Evolves(s.requests[i], s'.requests[i]);
        ClaimAttempts(s, e, i);
      }
    } else if i < |s.requests| {
      assert Evolves(s.requests[i], s'.requests[i]);
      OnlyClaimsStart(s, e, i);
    }
  }

  lemma ClaimAttempts(s: Site, e: Event, i: nat)
    requires Inv(s) && e.ClaimDue? && i < |s.requests| && i < |Step(s, e).requests|
    requires Evolves(s.requests[i], Step(s, e).requests[i])
    ensures var r' := Step(s, e).requests[i];
            && (IsClaimOf(s, e, i) <==> s.requests[i].status != Running && r'.status == Running)
            && (IsClaimOf(s, e, i) ==> s.requests[i].status == Pending)
            && (r'.status == Pending && !IsRevertOf(s, e, i) ==> s.requests[i].status == Pending)
  {
    ClaimedStarts(s, e.now, e.locked, i);
  }

  lemma {:induction false} AttemptsAreClaims(es: seq<Event>, i: nat)
    ensures AttemptsAccounted(EMPTY_SITE, es, i)
  {
    if es != [] {
      AttemptsAreClaims(Init(es), i);
      RunKeepsInv(EMPTY_SITE, Init(es));
      AttemptsStep(Run(EMPTY_SITE, Init(es)), Last(es), i);
    }
  }

  lemma {:induction false} Pow2Monotone(m: nat, n: nat)
    requires m <= n
    ensures Pow2(m) <= Pow2(n)
  {
    if m < n { Pow2Monotone(m, n - 1); }
  }

  lemma BackoffBounds(a: nat, b: nat)
    requires a <= b
    ensures 30 <= Backoff(a) <= Backoff(b) <= 3600
  {
    Pow2Monotone(Max(0, a - 1), Max(0, b - 1));
  }

  // Neither coalesced into nor claimed: a PENDING row keeps its next attempt time.
  predicate Waits(e: Event, until: int) {
    !e.ContentChange? && !e.ManualRebuild? && (e.ClaimDue? ==> e.now < until)
  }

  lemma ClaimKeepsTime(s: Site, now: int, locked: bool, i: nat)
    requires Inv(s) && i < |s.requests| && s.requests[i].status != Running
    requires s.requests[i].status == Pending ==> now < s.requests[i].nextAttemptAt
    ensures var s' := Claim(s, now, locked).0;
            && i < |s'.requests| && s'.requests[i].status == s.requests[i].status
            && s'.requests[i].nextAttemptAt == s.requests[i].nextAttemptAt
  {
    var due := OldestDue(s.requests, now);
    if due.Some? { assert due.value != i; }
    assert Find(s.requests, Running) != Some(i);
  }

  lemma WaitStep(s: Site, e: Event, i: nat, until: int)
    requires Inv(s) && i < |s.requests| && Waits(e, until)
    requires s.requests[i].status == Pending ==> s.requests[i].nextAttemptAt == until
    requires s.requests[i].status != Running
    ensures var s' := Step(s, e);
            i < |s'.requests| && s'.requests[i].status != Running
            && (s'.requests[i].status == Pending ==> s'.requests[i].nextAttemptAt == until)
  {
    if e.ClaimDue? {
      ClaimKeepsTime(s, e.now, e.locked, i);
    } else {
      OnlyClaimsStart(s, e, i);
    }
  }

  lemma {:induction false} NeverClaimedEarly(s: Site, es: seq<Event>, i: nat)
    requires Inv(s) && i < |s.requests| && s.requests[i].status == Pending
    requires forall e | e in es :: Waits(e, s.requests[i].nextAttemptAt)
    ensures var t := Run(s, es);
            i < |t.requests| && t.requests[i].status != Running && t.requests[i].attempts == s.requests[i].attempts
            && (t.requests[i].status == Pending ==> t.requests[i].nextAttemptAt == s.requests[i].nextAttemptAt)
  {
    if es != [] {
      assert forall e | e in Init(es) :: e in es;
      NeverClaimedEarly(s, Init(es), i);
      RunKeepsInv(s, Init(es));
      WaitStep(Run(s, Init(es)), Last(es), i, s.requests[i].nextAttemptAt);
      InvStep(Run(s, Init(es)), Last(es));
      assert Evolves(Run(s, Init(es)).requests[i], Run(s, es).requests[i]);
    }
  }

  /** A failed attempt put back to PENDING stays unclaimed for its back-off, unless coalesced into. */
  lemma RetryWaits(s: Site, e: Event, es: seq<Event>)
    requires Inv(s) && (e.TriggerFailure? || e.Failure?) && e.id < |s.requests|
    requires s.requests[e.id].status == Running && Step(s, e).requests[e.id].status == Pending
    requires forall f | f in es :: Waits(f, e.now + Backoff(s.requests[e.id].attempts))
    ensures e.id < |Run(Step(s, e), es).requests|
    ensures Run(Step(s, e), es).requests[e.id].attempts == s.requests[e.id].attempts
    ensures Run(Step(s, e), es).requests[e.id].status != Running
  {
    InvStep(s, e);
    NeverClaimedEarly(Step(s, e), es, e.id);
  }

  // ---------- progress ----------

  /** The moment from which a claim can act on the table. */
  function ActionableAt(rows: seq<Request>): Option<int> {
    match Find(rows, Running)
    case Some(r) => rows[r].leaseExpiresAt
    case None =>
      match Find(rows, Pending)
      case Some(p) => Some(rows[p].nextAttemptAt)
      case None => None
  }

  /** A claim changes the state exactly when builds are enabled and the active request's time has come. */
  lemma ClaimActsExactly(s: Site, now: int)
    requires Inv(s)
    ensures Claim(s, now, false).0 != s <==>
            s.enabled && ActionableAt(s.requests).Some? && ActionableAt(s.requests).value <= now
    ensures (exists i :: 0 <= i < |s.requests| && s.requests[i].status in {Pending, Running}) <==> ActionableAt(s.requests).Some?
  {
    var r, p := Find(s.requests, Running), Find(s.requests, Pending);
    var s' := Claim(s, now, false).0;
    if r.Some? {
      assert s.requests[r.value].leaseExpiresAt.Some?;
      if s' != s { } else { assert s'.requests[r.value].status == Running; }
    } else if p.Some? {
      if s.enabled && IsDue(s.requests[p.value], now) {
        var due := OldestDue(s.requests, now);
        assert s'.requests[due.value].status == Running;
      }
    }
  }
}
