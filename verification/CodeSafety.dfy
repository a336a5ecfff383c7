/** Theorems about one-time codes, over every run of registrations, codes and payments. */
module CodeSafety {
  import opened Common
  import opened Counting
  import opened Registrations

  // ---------- what a step does to the challenges ----------

  predicate SameStamp(a: Challenge, b: Challenge) {
    a.registration == b.registration && a.phone == b.phone && a.ip == b.ip && a.code == b.code && a.createdAt == b.createdAt
  }

  /** A challenge keeps its stamp, does not come back to life, and is final once consumed. */
  predicate Weaker(a: Challenge, b: Challenge) {
    && SameStamp(a, b) && (Live(b) ==> Live(a)) && (a.consumedAt.Some? ==> b == a)
  }

  ghost predicate Weakened(cs: seq<Challenge>, ds: seq<Challenge>) {
    |cs| == |ds| && forall i | 0 <= i < |cs| :: Weaker(cs[i], ds[i])
  }

  predicate Sends(d: Desk, e: Event) {
    e.SendCode? && e.r < |d.registrations| && Send(d, e.r, e.ip, e.code, e.delivered, e.now).1 == Done
  }

  function NewChallenge(d: Desk, e: Event): Challenge
    requires Sends(d, e)
  {
    Challenge(e.r, d.registrations[e.r].phone, e.ip, e.code, 0, e.now, e.now + OTP_TTL_SECONDS, None, None)
  }

  // What the challenges would be if the step only added to them.
  function Added(d: Desk, e: Event): seq<Challenge> {
    if Sends(d, e) then [NewChallenge(d, e)] else []
  }

  lemma SendWeakens(d: Desk, e: Event)
    requires e.SendCode?
    ensures Weakened(d.challenges + Added(d, e), Step(d, e).challenges)
  {
    var all := d.challenges + Added(d, e);
    if Sends(d, e) {
      forall i | 0 <= i < |all| ensures Weaker(all[i], Step(d, e).challenges[i]) {
        if i < |d.challenges| { assert InvalidateUnconsumed(d.challenges, e.r, e.now)[i] == Step(d, e).challenges[i]; }
      }
    }
  }

  lemma VerifyWeakens(d: Desk, r: nat, code: nat, now: int)
    ensures Weakened(d.challenges, Verify(d, r, code, now).0.challenges)
  {
  }

  lemma EditWeakens(d: Desk, e: Event)
    requires e.Edit?
    ensures Weakened(d.challenges, Step(d, e).challenges)
  {
  }

  /** Every step adds what it sends and weakens the rest. */
  lemma StepWeakens(d: Desk, e: Event)
    ensures Weakened(d.challenges + Added(d, e), Step(d, e).challenges)
  {
    assert !Sends(d, e) ==> d.challenges + Added(d, e) == d.challenges;
    match e
    case SendCode(_, _, _, _, _) => SendWeakens(d, e);
    case VerifyCode(r, code, now) => VerifyWeakens(d, r, code, now);
    case Edit(_, _, _, _, _) => EditWeakens(d, e);
    case _ =>
  }

  /** A consumed code is never consumed, or changed at all, again. */
  lemma {:induction false} ConsumedIsFinal(d: Desk, es: seq<Event>, i: nat)
    requires i < |d.challenges| && d.challenges[i].consumedAt.Some?
    ensures i < |Run(d, es).challenges| && Run(d, es).challenges[i] == d.challenges[i]
  {
    if es != [] {
      var before := Run(d, es[..|es| - 1]);
      ConsumedIsFinal(d, es[..|es| - 1], i);
      StepWeakens(before, es[|es| - 1]);
      assert Weaker((before.challenges + Added(before, es[|es| - 1]))[i], Run(d, es).challenges[i]);
    }
  }

  // ---------- windows ----------

  /** No hour and no minute holds more challenges than its limit. */
  ghost predicate WithinLimits(cs: seq<Challenge>) {
    && (forall phone :: Limited(ToPhone(phone), SentAt(), cs, HOUR, OTP_PHONE_HOURLY_LIMIT))
    && (forall ip :: Limited(FromIp(ip), SentAt(), cs, HOUR, OTP_IP_HOURLY_LIMIT))
    && Limited(AnyChallenge(), SentAt(), cs, MINUTE, OTP_TENANT_MINUTE_LIMIT)
  }

  // For a way of selecting challenges that looks at their stamp alone.
  lemma LimitKept(d: Desk, e: Event, key: Challenge -> bool, width: nat, limit: nat)
    requires Limited(key, SentAt(), d.challenges, width, limit)
    requires forall a, b | SameStamp(a, b) :: key(a) == key(b)
    requires Sends(d, e) && key(NewChallenge(d, e)) ==> CountSince(key, SentAt(), d.challenges, e.now - width) < limit
    ensures Limited(key, SentAt(), Step(d, e).challenges, width, limit)
  {
    var all := d.challenges + Added(d, e);
    if Sends(d, e) {
      AdmittedKeepsLimit(key, SentAt(), d.challenges, NewChallenge(d, e), e.now - width, width, limit);
    } else {
      assert all == d.challenges;
    }
    StepWeakens(d, e);
    forall i | 0 <= i < |all|
      ensures key(Step(d, e).challenges[i]) == key(all[i]) && SentAt()(Step(d, e).challenges[i]) == SentAt()(all[i])
    {
      assert Weaker(all[i], Step(d, e).challenges[i]);
    }
    RewriteKeepsLimit(key, SentAt(), all, Step(d, e).challenges, width, limit);
  }

  lemma StepWithinLimits(d: Desk, e: Event)
    requires WithinLimits(d.challenges)
    ensures WithinLimits(Step(d, e).challenges)
  {
    forall phone ensures Limited(ToPhone(phone), SentAt(), Step(d, e).challenges, HOUR, OTP_PHONE_HOURLY_LIMIT) {
      LimitKept(d, e, ToPhone(phone), HOUR, OTP_PHONE_HOURLY_LIMIT);
    }
    forall ip ensures Limited(FromIp(ip), SentAt(), Step(d, e).challenges, HOUR, OTP_IP_HOURLY_LIMIT) {
      LimitKept(d, e, FromIp(ip), HOUR, OTP_IP_HOURLY_LIMIT);
    }
    LimitKept(d, e, AnyChallenge(), MINUTE, OTP_TENANT_MINUTE_LIMIT);
  }

  /** In every run, whatever its clock readings: see `WithinLimits`. */
  lemma {:induction false} CodesWithinLimits(exams: seq<Exam>, es: seq<Event>)
    ensures WithinLimits(Run(NewDesk(exams), es).challenges)
  {
    if es == [] {
      forall phone ensures Limited(ToPhone(phone), SentAt(), [], HOUR, OTP_PHONE_HOURLY_LIMIT) {
        NoRowsLimited(ToPhone(phone), SentAt(), HOUR, OTP_PHONE_HOURLY_LIMIT);
      }
      forall ip ensures Limited(FromIp(ip), SentAt(), [], HOUR, OTP_IP_HOURLY_LIMIT) {
        NoRowsLimited(FromIp(ip), SentAt(), HOUR, OTP_IP_HOURLY_LIMIT);
      }
      NoRowsLimited(AnyChallenge(), SentAt(), MINUTE, OTP_TENANT_MINUTE_LIMIT);
    } else {
      CodesWithinLimits(exams, es[..|es| - 1]);
      StepWithinLimits(Run(NewDesk(exams), es[..|es| - 1]), es[|es| - 1]);
    }
  }

  // ---------- cooldown ----------

  /** Two challenges of one registration are at least the cooldown apart, in order of entry. */
  ghost predicate Spaced(cs: seq<Challenge>) {
    forall i, j | 0 <= i < j < |cs| && cs[i].registration == cs[j].registration ::
      cs[i].createdAt + OTP_COOLDOWN_SECONDS <= cs[j].createdAt
  }

  lemma SentIsSpaced(d: Desk, e: Event)
    requires Spaced(d.challenges) && Sends(d, e)
    ensures Spaced(d.challenges + [NewChallenge(d, e)])
  {
    assert !InCooldown(d, e.r, e.now);
    forall i | 0 <= i < |d.challenges| && d.challenges[i].registration == e.r
      ensures d.challenges[i].createdAt + OTP_COOLDOWN_SECONDS <= e.now
    {
      assert OfRegistration(e.r)(d.challenges[i]);
    }
  }

  lemma WeakenedIsSpaced(cs: seq<Challenge>, ds: seq<Challenge>)
    requires Spaced(cs) && Weakened(cs, ds)
    ensures Spaced(ds)
  {
    forall i, j | 0 <= i < j < |ds| && ds[i].registration == ds[j].registration
      ensures ds[i].createdAt + OTP_COOLDOWN_SECONDS <= ds[j].createdAt
    {
      assert Weaker(cs[i], ds[i]) && Weaker(cs[j], ds[j]);
    }
  }

  lemma StepSpaced(d: Desk, e: Event)
    requires Spaced(d.challenges)
    ensures Spaced(Step(d, e).challenges)
  {
    if Sends(d, e) { SentIsSpaced(d, e); } else { assert d.challenges + Added(d, e) == d.challenges; }
    StepWeakens(d, e);
    WeakenedIsSpaced(d.challenges + Added(d, e), Step(d, e).challenges);
  }

  // ---------- live challenges and verified phones ----------

  function LiveOf(r: nat): Challenge -> bool {
    (c: Challenge) => c.registration == r && Live(c)
  }

  /** A live challenge has attempts left and goes to the registration's current phone. */
  predicate ChallengeOk(registrations: seq<Registration>, c: Challenge) {
    && c.registration < |registrations| && c.attempts <= OTP_MAX_ATTEMPTS
    && (Live(c) ==> c.attempts < OTP_MAX_ATTEMPTS && c.phone == registrations[c.registration].phone)
  }

  ghost predicate ChallengesOk(d: Desk) {
    forall i | 0 <= i < |d.challenges| :: ChallengeOk(d.registrations, d.challenges[i])
  }

  ghost predicate OneLive(d: Desk) {
    forall r :: Count(LiveOf(r), d.challenges) <= 1
  }

  /** A verified phone was verified by a challenge sent to it, consumed at that time. */
  predicate Vouches(c: Challenge, r: nat, reg: Registration) {
    c.registration == r && c.phone == reg.phone && c.consumedAt.Some? && c.consumedAt == reg.verifiedAt
  }

  ghost predicate Vouched(d: Desk) {
    forall r | 0 <= r < |d.registrations| && d.registrations[r].verifiedAt.Some? ::
      exists i | 0 <= i < |d.challenges| :: Vouches(d.challenges[i], r, d.registrations[r])
  }

  ghost predicate CodesSound(d: Desk) {
    ChallengesOk(d) && OneLive(d) && Vouched(d) && Spaced(d.challenges)
  }

  lemma StepKeepsPhones(d: Desk, e: Event, r: nat)
    requires !e.Edit? && r < |d.registrations|
    ensures r < |Step(d, e).registrations| && Step(d, e).registrations[r].phone == d.registrations[r].phone
  {
  }

  lemma EditedChallenge(d: Desk, e: Event, i: nat)
    requires e.Edit? && i < |d.challenges| && ChallengeOk(d.registrations, d.challenges[i])
    ensures ChallengeOk(Step(d, e).registrations, Step(d, e).challenges[i])
  {
  }

  lemma SentChallenge(d: Desk, e: Event, i: nat)
    requires ChallengesOk(d) && e.SendCode? && i < |Step(d, e).challenges|
    ensures ChallengeOk(Step(d, e).registrations, Step(d, e).challenges[i])
  {
    if i < |d.challenges| { assert ChallengeOk(d.registrations, d.challenges[i]); }
  }

  lemma VerifiedChallenge(d: Desk, e: Event, i: nat)
    requires e.VerifyCode? && i < |d.challenges| && ChallengeOk(d.registrations, d.challenges[i])
    ensures ChallengeOk(Step(d, e).registrations, Step(d, e).challenges[i])
  {
  }

  lemma StepChallengesOk(d: Desk, e: Event)
    requires ChallengesOk(d)
    ensures ChallengesOk(Step(d, e))
  {
    forall i | 0 <= i < |Step(d, e).challenges| ensures ChallengeOk(Step(d, e).registrations, Step(d, e).challenges[i]) {
      if e.SendCode? {
        SentChallenge(d, e, i);
      } else {
        StepWeakens(d, e);
        assert ChallengeOk(d.registrations, d.challenges[i]);
        if e.Edit? { EditedChallenge(d, e, i); }
        else if e.VerifyCode? { VerifiedChallenge(d, e, i); }
        else { StepKeepsPhones(d, e, d.challenges[i].registration); }
      }
    }
  }

  lemma WeakenedCount(cs: seq<Challenge>, ds: seq<Challenge>, r: nat)
    requires Weakened(cs, ds)
    ensures Count(LiveOf(r), ds) <= Count(LiveOf(r), cs)
  {
    forall i | 0 <= i < |cs| ensures LiveOf(r)(ds[i]) ==> LiveOf(r)(cs[i]) { assert Weaker(cs[i], ds[i]); }
    CountAtMost(LiveOf(r), ds, LiveOf(r), cs);
  }

  lemma SendLeavesOneLive(d: Desk, e: Event, r: nat)
    requires Sends(d, e) && Count(LiveOf(r), d.challenges) <= 1
    ensures Count(LiveOf(r), Step(d, e).challenges) <= 1
  {
    var kept := InvalidateUnconsumed(d.challenges, e.r, e.now);
    CountSnoc(LiveOf(r), kept, NewChallenge(d, e));
    if r == e.r {
      CountNone(LiveOf(r), kept);
    } else {
      CountAtMost(LiveOf(r), kept, LiveOf(r), d.challenges);
    }
  }

  lemma StepOneLive(d: Desk, e: Event)
    requires OneLive(d)
    ensures OneLive(Step(d, e))
  {
    forall r ensures Count(LiveOf(r), Step(d, e).challenges) <= 1 {
      assert Count(LiveOf(r), d.challenges) <= 1;
      if Sends(d, e) {
        SendLeavesOneLive(d, e, r);
      } else {
        StepWeakens(d, e);
        assert d.challenges + Added(d, e) == d.challenges;
        WeakenedCount(d.challenges, Step(d, e).challenges, r);
      }
    }
  }

  /** Only an accepted code verifies a phone, and only at the time at which it is consumed. */
  lemma StepVouches(d: Desk, e: Event, r: nat)
    requires r < |Step(d, e).registrations| && Step(d, e).registrations[r].verifiedAt.Some?
    ensures || (r < |d.registrations| && d.registrations[r].verifiedAt == Step(d, e).registrations[r].verifiedAt
                && d.registrations[r].phone == Step(d, e).registrations[r].phone)
            || (exists i | 0 <= i < |Step(d, e).challenges| :: Vouches(Step(d, e).challenges[i], r, Step(d, e).registrations[r]))
  {
    if e.VerifyCode? && e.r == r && r < |d.registrations| && Verify(d, r, e.code, e.now).1 == Done {
      var k := Newest(LiveFor(r, d.registrations[r].phone), d.challenges).value;
      assert Vouches(Step(d, e).challenges[k], r, Step(d, e).registrations[r]);
    }
  }

  lemma StepVouched(d: Desk, e: Event)
    requires Vouched(d)
    ensures Vouched(Step(d, e))
  {
    var after := Step(d, e);
    StepWeakens(d, e);
    forall r | 0 <= r < |after.registrations| && after.registrations[r].verifiedAt.Some?
      ensures exists i | 0 <= i < |after.challenges| :: Vouches(after.challenges[i], r, after.registrations[r])
    {
      StepVouches(d, e, r);
      if r < |d.registrations| && d.registrations[r].verifiedAt == after.registrations[r].verifiedAt
         && d.registrations[r].phone == after.registrations[r].phone {
        var i :| 0 <= i < |d.challenges| && Vouches(d.challenges[i], r, d.registrations[r]);
        assert Weaker((d.challenges + Added(d, e))[i], after.challenges[i]);
        assert Vouches(after.challenges[i], r, after.registrations[r]);
      }
    }
  }

  lemma StepKeepsCodesSound(d: Desk, e: Event)
    requires CodesSound(d)
    ensures CodesSound(Step(d, e))
  {
    StepChallengesOk(d, e);
    StepOneLive(d, e);
    StepVouched(d, e);
    StepSpaced(d, e);
  }

  /** Whatever happens, in whatever order: see `CodesSound`. */
  lemma {:induction false} RunKeepsCodesSound(exams: seq<Exam>, es: seq<Event>)
    ensures CodesSound(Run(NewDesk(exams), es))
  {
    if es != [] {
      RunKeepsCodesSound(exams, es[..|es| - 1]);
      StepKeepsCodesSound(Run(NewDesk(exams), es[..|es| - 1]), es[|es| - 1]);
    }
  }

  /** A code is accepted exactly when it fits, and then its registration is PHONE_VERIFIED whatever its status was. */
  lemma VerifiesExactly(d: Desk, r: nat, code: nat, now: int)
    requires r < |d.registrations|
    ensures var (after, reply) := Verify(d, r, code, now);
            && (reply == Done <==> CodeFits(d, r, code, now))
            && after.registrations == if CodeFits(d, r, code, now)
                                      then d.registrations[r := d.registrations[r].(verifiedAt := Some(now), status := PhoneVerified)]
                                      else d.registrations
  {
  }

  // ---------- guards that never fire ----------

  lemma VerifyNeverMeetsTheLimit(d: Desk, r: nat, code: nat, now: int)
    requires CodesSound(d)
    ensures Verify(d, r, code, now).1 != AttemptLimit
  {
    if r < |d.registrations| {
      var found := Newest(LiveFor(r, d.registrations[r].phone), d.challenges);
      if found.Some? { assert ChallengeOk(d.registrations, d.challenges[found.value]); }
    }
  }

  /** The limit on active challenges refuses a request only where it is one, and then whenever one is active. */
  lemma TooManyActiveExactly(d: Desk, r: nat, ip: nat, code: nat, delivered: bool, now: int)
    requires CodesSound(d) && r < |d.registrations|
    requires !OverLimit(d, d.registrations[r].phone, ip, now) && !InCooldown(d, r, now)
    ensures Send(d, r, ip, code, delivered, now).1 == TooManyActive <==>
              OTP_MAX_ACTIVE == 1 && exists c | c in d.challenges :: ActiveFor(r, now)(c)
  {
    CountAtMost(ActiveFor(r, now), d.challenges, LiveOf(r), d.challenges);
    assert Count(LiveOf(r), d.challenges) <= 1;
    if c :| c in d.challenges && ActiveFor(r, now)(c) {
      var i :| 0 <= i < |d.challenges| && d.challenges[i] == c;
      CountUpdate(ActiveFor(r, now), d.challenges, i, c.(consumedAt := Some(now)));
    } else {
      CountNone(ActiveFor(r, now), d.challenges);
    }
  }
}
