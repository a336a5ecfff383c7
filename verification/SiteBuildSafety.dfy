/**
  What every interleaving of the build protocol keeps: the table's shape, the life of a
  row, the meaning of the deployed revision, and that no content revision is lost.
 */
module SiteBuildSafety {
  import opened Common
  import opened SiteBuilds

  // ---------- the inductive invariant ----------

  ghost predicate AtMostOne(rows: seq<Request>, st: Status) {
    forall i, j | 0 <= i < |rows| && 0 <= j < |rows| :: rows[i].status == st && rows[j].status == st ==> i == j
  }

  ghost predicate PendingCoversRunning(rows: seq<Request>) {
    forall i, j | 0 <= i < |rows| && 0 <= j < |rows| ::
      rows[i].status == Pending && rows[j].status == Running ==> rows[j].target <= rows[i].target
  }

  predicate RowOk(r: Request, content: nat) {
    && r.target <= content
    && (r.status == Running ==> r.leaseExpiresAt.Some? && r.attempts >= 1)
    && (r.actual.Some? <==> r.completedAt.Some?)
    && (r.status == Successful ==> r.actual.Some?)
    && (r.actual.Some? ==> r.status in {Successful, Superseded} && r.target <= r.actual.value)
  }

  /** The deployed revision is the maximum of the recorded actual revisions. */
  ghost predicate DeployedIsMaximum(s: Site) {
    && (forall i | 0 <= i < |s.requests| :: s.requests[i].actual.Some? ==>
                                              s.deployed.Some? && s.requests[i].actual.value <= s.deployed.value)
    && (s.deployed.Some? ==> exists i :: 0 <= i < |s.requests| && s.requests[i].actual == s.deployed)
  }

  ghost predicate Inv(s: Site) {
    && AtMostOne(s.requests, Pending)
    && AtMostOne(s.requests, Running)
    && PendingCoversRunning(s.requests)
    && (forall i | 0 <= i < |s.requests| :: RowOk(s.requests[i], s.content))
    && DeployedIsMaximum(s)
  }

  // ---------- what one step may do to one row ----------

  /** The life of a row: how a step may leave a row it found as `r`. */
  predicate Evolves(r: Request, r': Request) {
    && (if r.status == Pending then r.target <= r'.target else r'.target == r.target)
    && (r.status in {Successful, Failed} ==> r' == r)
    && (r.status == Superseded ==> r'.status == Superseded)
    && (r.actual.Some? ==> r'.actual == r.actual && r'.completedAt == r.completedAt)
    && r'.attempts == r.attempts + (if r.status != Running && r'.status == Running then 1 else 0)
  }

  /** The whole table: old rows evolve, new rows are fresh PENDING ones. */
  ghost predicate Follows(s: Site, s': Site) {
    && |s.requests| <= |s'.requests|
    && (forall i | 0 <= i < |s.requests| :: Evolves(s.requests[i], s'.requests[i]))
    && (forall i | |s.requests| <= i < |s'.requests| ::
          s'.requests[i].status == Pending && s'.requests[i].attempts == 0 && s'.requests[i].actual.None?)
  }

  // Recorded actual revisions never change, so they are still there to be the maximum.
  lemma MaximumKept(s: Site, s': Site)
    requires DeployedIsMaximum(s) && s'.deployed == s.deployed && |s.requests| <= |s'.requests|
    requires forall i | 0 <= i < |s.requests| :: s'.requests[i].actual == s.requests[i].actual
    requires forall i | |s.requests| <= i < |s'.requests| :: s'.requests[i].actual.None?
    ensures DeployedIsMaximum(s')
  {
    if s.deployed.Some? {
      var i :| 0 <= i < |s.requests| && s.requests[i].actual == s.deployed;
      assert s'.requests[i].actual == s'.deployed;
    }
  }

  // What a table of the right shape asks of the row `r` put at `i`.
  ghost predicate Fits(rows: seq<Request>, i: nat, r: Request) {
    forall j | 0 <= j < |rows| && j != i ::
      && (r.status in {Pending, Running} ==> rows[j].status != r.status)
      && (r.status == Pending && rows[j].status == Running ==> rows[j].target <= r.target)
      && (r.status == Running && rows[j].status == Pending ==> r.target <= rows[j].target)
  }

  lemma UpdateKeeps(s: Site, i: nat, r: Request)
    requires Inv(s) && i < |s.requests|
    requires RowOk(r, s.content) && Fits(s.requests, i, r)
    requires Evolves(s.requests[i], r) && r.actual == s.requests[i].actual
    ensures Inv(s.(requests := s.requests[i := r])) && Follows(s, s.(requests := s.requests[i := r]))
  {
    MaximumKept(s, s.(requests := s.requests[i := r]));
  }

  lemma GiveWayKeeps(s: Site, r: nat, p: nat, lease: Option<int>)
    requires Inv(s) && r < |s.requests| && p < |s.requests|
    requires s.requests[p].status == Pending && s.requests[r].status in {Pending, Running}
    ensures var s' := s.(requests := GiveWay(s.requests, r, p, lease));
            Inv(s') && Follows(s, s')
  {
    var rows := s.requests;
    UpdateKeeps(s, p, RaiseTarget(rows[p], rows[r].target));
    var s1 := s.(requests := rows[p := RaiseTarget(rows[p], rows[r].target)]);
    UpdateKeeps(s1, r, s1.requests[r].(status := Superseded, leaseExpiresAt := lease));
  }

  // A PENDING row with the greatest target joins rows of which none is PENDING.
  lemma InsertShape(rows: seq<Request>, r: Request)
    requires AtMostOne(rows, Running) && r.status == Pending
    requires forall i | 0 <= i < |rows| :: rows[i].status != Pending && rows[i].target <= r.target
    ensures AtMostOne(rows + [r], Running) && AtMostOne(rows + [r], Pending) && PendingCoversRunning(rows + [r])
  {
  }

  lemma InsertRows(s: Site, r: Request)
    requires Inv(s) && r == NewRequest(s.content, r.requestedAt)
    ensures forall i | 0 <= i < |s.requests + [r]| :: RowOk((s.requests + [r])[i], s.content)
  {
  }

  lemma InsertKeeps(s: Site, now: int)
    requires Inv(s) && Find(s.requests, Pending).None?
    ensures var s' := s.(requests := s.requests + [NewRequest(s.content, now)]);
            Inv(s') && Follows(s, s')
  {
    forall i | 0 <= i < |s.requests| ensures s.requests[i].target <= s.content { assert RowOk(s.requests[i], s.content); }
    InsertShape(s.requests, NewRequest(s.content, now));
    InsertRows(s, NewRequest(s.content, now));
    MaximumKept(s, s.(requests := s.requests + [NewRequest(s.content, now)]));
  }

  lemma MoreContentKeeps(s: Site, c: nat)
    requires Inv(s) && s.content <= c
    ensures Inv(s.(content := c))
  {
    forall i | 0 <= i < |s.requests| ensures RowOk(s.requests[i], c) { assert RowOk(s.requests[i], s.content); }
  }

  lemma EnqueueKeeps(s: Site, c: nat, now: int)
    requires Inv(s) && s.content <= c
    ensures Inv(Enqueue(s.(content := c), now)) && Follows(s, Enqueue(s.(content := c), now))
  {
    var s0 := s.(content := c);
    MoreContentKeeps(s, c);
    match Find(s.requests, Pending)
    case Some(p) =>
      UpdateKeeps(s0, p, RaiseTarget(s.requests[p], c).(requestedAt := now, nextAttemptAt := now));
    case None => InsertKeeps(s0, now);
  }

  lemma ExpireKeeps(s: Site, r: nat, now: int)
    requires Inv(s) && r < |s.requests| && s.requests[r].status == Running
    ensures var s' := s.(requests := ExpireLease(s.requests, r, now));
            Inv(s') && Follows(s, s')
  {
    match Find(s.requests, Pending)
    case Some(p) => GiveWayKeeps(s, r, p, s.requests[r].leaseExpiresAt);
    case None => UpdateKeeps(s, r, ExpireLease(s.requests, r, now)[r]);
  }

  // Claiming goes on after an expiry only for a row that was PENDING before it.
  lemma ExpireThenStart(s: Site, r: nat, i: nat, now: int)
    requires Inv(s) && r < |s.requests| && s.requests[r].status == Running
    requires i < |s.requests| && s.requests[i].status == Pending
    ensures var rows := ExpireLease(s.requests, r, now);
            rows[i].status == Pending && rows[i].attempts == s.requests[i].attempts
            && Fits(rows, i, Start(rows[i], now))
  {
    assert Find(s.requests, Pending) == Some(i);
  }

  lemma ReclaimKeeps(s: Site, r: nat, due: nat, now: int)
    requires Inv(s) && r < |s.requests| && s.requests[r].status == Running
    requires due < |s.requests| && s.requests[due].status == Pending
    ensures var rows := ExpireLease(s.requests, r, now);
            && |rows| == |s.requests|
            && var s' := s.(requests := rows[due := Start(rows[due], now)]);
               Inv(s') && Follows(s, s')
  {
    ExpireKeeps(s, r, now);
    ExpireThenStart(s, r, due, now);
    var s1 := s.(requests := ExpireLease(s.requests, r, now));
    UpdateKeeps(s1, due, Start(s1.requests[due], now));
  }

  lemma ClaimKeeps(s: Site, now: int, locked: bool)
    requires Inv(s)
    ensures Inv(Claim(s, now, locked).0) && Follows(s, Claim(s, now, locked).0)
  {
    var running := Find(s.requests, Running);
    if s.enabled && (running.None? || !LeaseHeld(s.requests[running.value], now)) {
      var due := OldestDue(s.requests, now);
      if running.Some? && due.Some? && !locked {
        ReclaimKeeps(s, running.value, due.value, now);
      } else if running.Some? {
        ExpireKeeps(s, running.value, now);
      } else if due.Some? && !locked {
        UpdateKeeps(s, due.value, Start(s.requests[due.value], now));
      }
    }
  }

  lemma TriggerFailedKeeps(s: Site, id: nat, now: int)
    requires Inv(s)
    ensures Inv(TriggerFailed(s, id, now)) && Follows(s, TriggerFailed(s, id, now))
  {
    if id < |s.requests| && s.requests[id].status == Running {
      match Find(s.requests, Pending)
      case Some(p) => GiveWayKeeps(s, id, p, None);
      case None => UpdateKeeps(s, id, TriggerFailed(s, id, now).requests[id]);
    }
  }

  // A recorded row, beside a deployed revision that is still the maximum.
  lemma RecordedKeeps(s: Site, s': Site, id: nat)
    requires Inv(s) && id < |s.requests| && s'.content == s.content && |s'.requests| == |s.requests|
    requires s'.requests == s.requests[id := s'.requests[id]] && DeployedIsMaximum(s')
    requires RowOk(s'.requests[id], s.content) && Fits(s.requests, id, s'.requests[id])
    requires Evolves(s.requests[id], s'.requests[id])
    ensures Inv(s') && Follows(s, s')
  {
  }

  lemma SuccessKeeps(s: Site, id: nat, actual: Option<nat>, now: int)
    requires Inv(s)
    ensures Inv(RecordSuccess(s, id, actual, now).0) && Follows(s, RecordSuccess(s, id, actual, now).0)
  {
    var s' := RecordSuccess(s, id, actual, now).0;
    if s'.requests != s.requests {
      assert RowOk(s.requests[id], s.content);
      RecordedIsMaximum(s, s', id);
      RecordedKeeps(s, s', id);
    }
  }

  // The first recorded revision of row `id` joins the maximum.
  lemma RecordedIsMaximum(s: Site, s': Site, id: nat)
    requires DeployedIsMaximum(s) && id < |s.requests| && s.requests[id].actual.None?
    requires |s'.requests| == |s.requests| && s'.requests[id].actual.Some?
    requires s'.requests == s.requests[id := s'.requests[id]]
    requires s'.deployed == Some(Max(if s.deployed.Some? then s.deployed.value else 0, s'.requests[id].actual.value))
    ensures DeployedIsMaximum(s')
  {
    if s.deployed.Some? && s.deployed == s'.deployed {
      var i :| 0 <= i < |s.requests| && s.requests[i].actual == s.deployed;
      assert s'.requests[i].actual == s'.deployed;
    } else {
      assert s'.requests[id].actual == s'.deployed;
    }
  }

  lemma FailureKeeps(s: Site, id: nat, retryable: bool, now: int)
    requires Inv(s)
    ensures Inv(RecordFailure(s, id, retryable, now).0) && Follows(s, RecordFailure(s, id, retryable, now).0)
  {
    if id < |s.requests| && s.requests[id].status in {Pending, Running} {
      match Find(s.requests, Pending)
      case Some(p) => GiveWayKeeps(s, id, p, None);
      case None => UpdateKeeps(s, id, RecordFailure(s, id, retryable, now).0.requests[id]);
    }
  }

  lemma InvStep(s: Site, e: Event)
    requires Inv(s)
    ensures Inv(Step(s, e)) && Follows(s, Step(s, e))
  {
    match e
    case ContentChange(now) => EnqueueKeeps(s, s.content + 1, now);
    case ManualRebuild(now) => EnqueueKeeps(s, s.content, now);
    case Configure(_) =>
    case ClaimDue(now, locked) => ClaimKeeps(s, now, locked);
    case TriggerFailure(id, now) => TriggerFailedKeeps(s, id, now);
    case Success(id, actual, now) => SuccessKeeps(s, id, actual, now);
    case Failure(id, retryable, now) => FailureKeeps(s, id, retryable, now);
  }

  // ---------- no revision is lost ----------

  predicate Awaits(r: Request, revision: nat) {
    r.status in {Pending, Running, Failed} && r.target == revision
  }

  /** The current content is deployed, or some request that is not done stands for it. */
  ghost predicate NoneLost(s: Site) {
    || s.content == 0
    || (s.deployed.Some? && s.content <= s.deployed.value)
    || exists i :: 0 <= i < |s.requests| && Awaits(s.requests[i], s.content)
  }

  ghost predicate Stands(s: Site, target: nat) {
    exists j :: 0 <= j < |s.requests| && s.requests[j].status != Superseded && target <= s.requests[j].target
  }

  /** What a superseded request stood for, one that is not superseded stands for. */
  ghost predicate SupersededCovered(s: Site) {
    forall i | 0 <= i < |s.requests| && s.requests[i].status == Superseded :: Stands(s, s.requests[i].target)
  }

  /** The one step that drops work: a failure report for a row that is already PENDING again. */
  predicate FailsPending(s: Site, e: Event) {
    e.Failure? && e.id < |s.requests| && s.requests[e.id].status == Pending
  }

  ghost predicate HasHeir(s: Site, target: nat) {
    exists p :: 0 <= p < |s.requests| && s.requests[p].status in {Pending, Running} && target <= s.requests[p].target
  }

  /** A request is superseded only in favour of an active one with at least its target. */
  ghost predicate LeavesHeirs(s: Site, s': Site)
    requires |s.requests| <= |s'.requests|
  {
    forall j | 0 <= j < |s.requests| ::
      s.requests[j].status != Superseded && s'.requests[j].status == Superseded ==> HasHeir(s', s'.requests[j].target)
  }

  lemma GiveWayLeavesHeirs(s: Site, r: nat, p: nat, lease: Option<int>)
    requires r < |s.requests| && p < |s.requests| && r != p && s.requests[p].status == Pending
    ensures LeavesHeirs(s, s.(requests := GiveWay(s.requests, r, p, lease)))
  {
    var rows := GiveWay(s.requests, r, p, lease);
    assert rows[p].status == Pending && s.requests[r].target <= rows[p].target;
  }

  lemma ClaimLeavesHeirs(s: Site, now: int, locked: bool)
    requires Inv(s)
    ensures |Claim(s, now, locked).0.requests| == |s.requests| && LeavesHeirs(s, Claim(s, now, locked).0)
  {
    var s' := Claim(s, now, locked).0;
    var r, p := Find(s.requests, Running), Find(s.requests, Pending);
    forall j | 0 <= j < |s.requests| && s.requests[j].status != Superseded && s'.requests[j].status == Superseded
      ensures HasHeir(s', s'.requests[j].target)
    {
      assert r == Some(j) && p.Some?;
      var rows := GiveWay(s.requests, j, p.value, s.requests[j].leaseExpiresAt);
      assert rows[p.value].status == Pending && s.requests[j].target <= rows[p.value].target;
      assert s'.requests[p.value].status in {Pending, Running} && s'.requests[p.value].target == rows[p.value].target;
    }
  }

  lemma TriggerLeavesHeirs(s: Site, id: nat, now: int)
    requires Inv(s)
    ensures |TriggerFailed(s, id, now).requests| == |s.requests| && LeavesHeirs(s, TriggerFailed(s, id, now))
  {
    if id < |s.requests| && s.requests[id].status == Running {
      match Find(s.requests, Pending)
      case Some(p) => GiveWayLeavesHeirs(s, id, p, None);
      case None =>
    }
  }

  lemma FailureLeavesHeirs(s: Site, id: nat, retryable: bool, now: int)
    requires Inv(s) && (id < |s.requests| ==> s.requests[id].status != Pending)
    ensures var s' := RecordFailure(s, id, retryable, now).0;
            |s'.requests| == |s.requests| && LeavesHeirs(s, s')
  {
    if id < |s.requests| && s.requests[id].status == Running {
      match Find(s.requests, Pending)
      case Some(p) => GiveWayLeavesHeirs(s, id, p, None);
      case None =>
    }
  }

  lemma SuccessLeavesHeirs(s: Site, id: nat, actual: Option<nat>, now: int)
    ensures var s' := RecordSuccess(s, id, actual, now).0;
            |s'.requests| == |s.requests| && LeavesHeirs(s, s')
  {
  }

  lemma EnqueueLeavesHeirs(s: Site, now: int)
    ensures |s.requests| <= |Enqueue(s, now).requests| && LeavesHeirs(s, Enqueue(s, now))
  {
  }

  lemma StepLeavesHeirs(s: Site, e: Event)
    requires Inv(s) && !FailsPending(s, e)
    ensures |s.requests| <= |Step(s, e).requests| && LeavesHeirs(s, Step(s, e))
  {
    match e
    case ContentChange(now) => EnqueueLeavesHeirs(s.(content := s.content + 1), now);
    case ManualRebuild(now) => EnqueueLeavesHeirs(s, now);
    case Configure(_) =>
    case ClaimDue(now, locked) => ClaimLeavesHeirs(s, now, locked);
    case TriggerFailure(id, now) => TriggerLeavesHeirs(s, id, now);
    case Success(id, actual, now) => SuccessLeavesHeirs(s, id, actual, now);
    case Failure(id, retryable, now) => FailureLeavesHeirs(s, id, retryable, now);
  }

  lemma CoverKept(s: Site, s': Site)
    requires SupersededCovered(s) && Follows(s, s') && LeavesHeirs(s, s')
    ensures SupersededCovered(s')
  {
    forall i | 0 <= i < |s'.requests| && s'.requests[i].status == Superseded
      ensures Stands(s', s'.requests[i].target)
    {
      assert Evolves(s.requests[i], s'.requests[i]);
      var j := i;
      if s.requests[i].status == Superseded {
        j :| 0 <= j < |s.requests| && s.requests[j].status != Superseded && s.requests[i].target <= s.requests[j].target;
        assert Evolves(s.requests[j], s'.requests[j]);
      }
      if s'.requests[j].status == Superseded {
        var p :| 0 <= p < |s'.requests| && s'.requests[p].status in {Pending, Running} && s'.requests[j].target <= s'.requests[p].target;
      }
    }
  }

  lemma NoneLostKept(s: Site, s': Site)
    requires Inv(s) && Inv(s') && NoneLost(s) && Follows(s, s') && LeavesHeirs(s, s')
    requires s'.content == s.content && (s.deployed.Some? ==> s'.deployed.Some? && s.deployed.value <= s'.deployed.value)
    ensures NoneLost(s')
  {
    if s.content != 0 && (s.deployed.None? || s.deployed.value < s.content) {
      var i :| 0 <= i < |s.requests| && Awaits(s.requests[i], s.content);
      assert Evolves(s.requests[i], s'.requests[i]) && RowOk(s'.requests[i], s'.content);
      if s'.requests[i].status == Superseded {
        var p :| 0 <= p < |s'.requests| && s'.requests[p].status in {Pending, Running} && s.content <= s'.requests[p].target;
        assert Awaits(s'.requests[p], s'.content);
      } else if s'.requests[i].status != Successful {
        assert Awaits(s'.requests[i], s'.content);
      }
    }
  }

  lemma EnqueueAwaits(s: Site, now: int)
    requires Inv(s)
    ensures NoneLost(Enqueue(s, now))
  {
    var p := Find(s.requests, Pending);
    var i := if p.Some? then p.value else |s.requests|;
    assert Awaits(Enqueue(s, now).requests[i], s.content);
  }

  lemma StepStateRow(s: Site, e: Event)
    ensures Step(s, e).content == s.content + (if e.ContentChange? then 1 else 0)
    ensures s.deployed.Some? ==> Step(s, e).deployed.Some? && s.deployed.value <= Step(s, e).deployed.value
  {
  }

  lemma StepKeepsContent(s: Site, e: Event)
    requires Inv(s) && NoneLost(s) && !FailsPending(s, e)
    ensures NoneLost(Step(s, e))
  {
    InvStep(s, e);
    StepLeavesHeirs(s, e);
    if e.ContentChange? {
      MoreContentKeeps(s, s.content + 1);
      EnqueueAwaits(s.(content := s.content + 1), e.now);
    } else {
      StepStateRow(s, e);
      NoneLostKept(s, Step(s, e));
    }
  }

  lemma StepKeepsCover(s: Site, e: Event)
    requires Inv(s) && SupersededCovered(s) && !FailsPending(s, e)
    ensures SupersededCovered(Step(s, e))
  {
    InvStep(s, e);
    StepLeavesHeirs(s, e);
    CoverKept(s, Step(s, e));
  }

  lemma StepLosesNothing(s: Site, e: Event)
    requires Inv(s) && NoneLost(s) && SupersededCovered(s) && !FailsPending(s, e)
    ensures NoneLost(Step(s, e)) && SupersededCovered(Step(s, e))
  {
    StepKeepsContent(s, e);
    StepKeepsCover(s, e);
  }
}
