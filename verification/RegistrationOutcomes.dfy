/**
  What each answer of the registration, code and payment services means: when it is given,
  told by what can be looked up before the request, and what exactly it leaves behind.
 */
module RegistrationOutcomes {
  import opened Common
  import opened Counting
  import opened Registrations
  import opened PaymentSafety
  import opened SeatSafety
  import opened CodeSafety

  // ---------- drafts ----------

  /** Registration for the exam is open at this moment. */
  predicate OpenNow(e: Exam, now: int) {
    e.open && (e.startsAt.Some? ==> e.startsAt.value <= now) && (e.endsAt.Some? ==> now < e.endsAt.value)
  }

  /** A draft is admitted exactly while its exam is open and the plan, if any, on offer; it costs what the plan says. */
  lemma DraftsExactly(d: Desk, exam: nat, plan: Plan, phone: nat, now: int)
    ensures var (after, reply) := CreateDraft(d, exam, plan, phone, now);
            && (reply == Done <==> exam < |d.exams| && OpenNow(d.exams[exam], now) && !plan.Unavailable?)
            && (reply == NotFound <==> exam >= |d.exams|)
            && (reply == ExamNotStarted ==> d.exams[exam].startsAt.Some? && now < d.exams[exam].startsAt.value)
            && (reply == ExamClosed ==> !d.exams[exam].open || (d.exams[exam].endsAt.Some? && d.exams[exam].endsAt.value <= now))
            && (reply == PlanUnavailable ==> plan.Unavailable?)
            && reply in {Done, NotFound, ExamNotStarted, ExamClosed, PlanUnavailable}
            && (reply != Done ==> after == d)
            && (reply == Done ==>
                  && after == d.(registrations := after.registrations) && OneMore(d.registrations, after.registrations)
                  && var reg := after.registrations[|d.registrations|];
                     && reg.exam == exam && reg.phone == phone && reg.verifiedAt.None? && reg.submittedAt.None?
                     && reg.status == PhoneVerificationRequired && reg.payment == PaymentDue
                     && (plan.Priced? ==> reg.amount == Some(plan.amount) && reg.currency == Some(plan.currency))
                     && (plan.NoPlan? ==> reg.amount == Some(0) && reg.currency.None?)
                     && reg.answers == map[ExtraAnswers := Some("{}")] && reg.contacts == [] && reg.notes.None?)
  {
  }

  predicate Editable(d: Desk, r: nat) {
    r < |d.registrations| && d.registrations[r].status in MUTABLE
  }

  /** Exactly the live challenges of the registration are invalidated. */
  ghost predicate LiveOnesInvalidated(cs: seq<Challenge>, after: seq<Challenge>, r: nat, now: int) {
    && |after| == |cs|
    && forall k | 0 <= k < |cs| ::
         after[k] == if cs[k].registration == r && Live(cs[k]) then cs[k].(invalidatedAt := Some(now)) else cs[k]
  }

  /** A patch sets what it names, and nothing else, except that a new phone has to be verified again. */
  lemma PatchesExactly(d: Desk, r: nat, phone: Option<Option<nat>>, changes: map<Answer, Option<string>>, admission: Admission, now: int)
    ensures var (after, reply) := Patch(d, r, phone, changes, admission, now);
            && (reply == Done <==> Editable(d, r) && admission == Admitted && phone != Some(None))
            && (reply == NotFound <==> r >= |d.registrations|)
            && (reply == NotEditable <==> r < |d.registrations| && !Editable(d, r))
            && (reply == ReferenceInvalid <==> Editable(d, r) && admission == BadReference)
            && (reply != Done ==> after == d)
            && (reply == Done ==>
                  && after.exams == d.exams && after.transactions == d.transactions && OnlyRow(d.registrations, after.registrations, r)
                  && var was, reg := d.registrations[r], after.registrations[r];
                     var moved := phone.Some? && phone.value.value != was.phone;
                     && reg.answers.Keys == was.answers.Keys + changes.Keys
                     && (forall a | a in reg.answers :: reg.answers[a] == if a in changes then changes[a] else was.answers[a])
                     && reg.phone == (if moved then phone.value.value else was.phone)
                     && reg.verifiedAt == (if moved then None else was.verifiedAt)
                     && reg.status == (if moved then PhoneVerificationRequired else was.status)
                     && SameTerms(was, reg) && reg.contacts == was.contacts && reg.notes == was.notes
                     && reg.payment == was.payment && reg.submittedAt == was.submittedAt
                     && (if moved then LiveOnesInvalidated(d.challenges, after.challenges, r, now) else after.challenges == d.challenges))
  {
  }

  /** An editable registration's contacts are replaced as a whole, or not at all. */
  lemma ContactsExactly(d: Desk, r: nat, contacts: seq<Contact>)
    ensures var (after, reply) := ReplaceContacts(d, r, contacts);
            && (reply == Done <==> Editable(d, r) && ContactsFine(contacts))
            && (reply == NotFound <==> r >= |d.registrations|) && (reply == NotEditable <==> r < |d.registrations| && !Editable(d, r))
            && (reply != Done ==> after == d)
            && (reply == Done ==>
                  && after == d.(registrations := after.registrations) && OnlyRow(d.registrations, after.registrations, r)
                  && after.registrations[r] == d.registrations[r].(contacts := contacts))
  {
  }

  /**
    A submission takes a seat exactly when everything it asks for is there; repeating it does
    nothing; and a refusal names something that is indeed missing, and changes nothing.
   */
  lemma SubmitsExactly(d: Desk, r: nat, readiness: Readiness, now: int)
    ensures var (after, reply) := Submit(d, r, readiness, now);
            && (reply == NotFound ==> r >= |d.registrations| || d.registrations[r].exam >= |d.exams|)
            && (reply == Done <==> r < |d.registrations| && (d.registrations[r].status in SEATED || Submittable(d, d.registrations[r], readiness, now)))
            && (after != d ==> reply == Done && Submittable(d, d.registrations[r], readiness, now))
            && (r < |d.registrations| && Submittable(d, d.registrations[r], readiness, now) ==>
                  && after == d.(registrations := after.registrations) && OnlyRow(d.registrations, after.registrations, r)
                  && after.registrations[r] == d.registrations[r].(status := Submitted, submittedAt := Some(now)))
            && (r < |d.registrations| && reply != Done && reply != NotFound ==> Missing(d, d.registrations[r], readiness, now, reply))
  {
  }

  /** What a refused submission is refused for. */
  predicate Missing(d: Desk, reg: Registration, readiness: Readiness, now: int, reply: Reply) {
    match reply
    case StateInvalid => reg.status == Cancelled
    case PhoneNotVerified => reg.verifiedAt.None?
    case Incomplete => !IsComplete(reg)
    case ContactsMissing => |reg.contacts| != 2 || Positions(reg.contacts) != {1, 2}
    case NotReady(why) => why == readiness && readiness != Ready
    case ExamClosed => reg.exam < |d.exams| && d.exams[reg.exam].endsAt.Some? && d.exams[reg.exam].endsAt.value <= now
    case CapacityReached => Full(d, reg.exam)
    case _ => false
  }

  predicate Given(reg: Registration, a: Answer) {
    a in reg.answers && reg.answers[a].Some?
  }

  /** The eleven answers that a submission asks for. */
  lemma CompleteExactly(reg: Registration)
    ensures IsComplete(reg) <==>
              && Given(reg, FirstName) && Given(reg, LastName) && Given(reg, Gender) && Given(reg, NationalCode)
              && Given(reg, FatherName) && Given(reg, BirthDate) && Given(reg, CurrentSchool) && Given(reg, PreviousSchool)
              && Given(reg, PostalCode) && Given(reg, Address) && Given(reg, ProfileImage)
  {
    if IsComplete(reg) {
      forall a: Answer | a != HomePhone && a != ExtraAnswers ensures Given(reg, a) { assert a in reg.answers; }
    }
  }

  // ---------- administration ----------

  /** The two transitions an administrator may make. */
  predicate MayMove(from: Status, to: Status) {
    (to == Submitted && from == Cancelled) || (to == Cancelled && from != Completed)
  }

  /** Status and notes are set together, and exactly when the transition asked for, if any, is one of the two. */
  lemma AdministersExactly(d: Desk, r: nat, requested: Option<Option<Status>>, notes: Option<Option<string>>)
    ensures var (after, reply) := AdminUpdate(d, r, requested, notes);
            && (reply == Done <==> r < |d.registrations|
                                   && (requested.Some? ==> requested.value.Some? && MayMove(d.registrations[r].status, requested.value.value)))
            && (reply == NotFound <==> r >= |d.registrations|)
            && (reply == TransitionInvalid <==>
                  r < |d.registrations| && requested.Some? && requested.value.Some? && !MayMove(d.registrations[r].status, requested.value.value))
            && (reply != Done ==> after == d)
            && (reply == Done ==>
                  && after == d.(registrations := after.registrations) && OnlyRow(d.registrations, after.registrations, r)
                  && after.registrations[r] == d.registrations[r].(
                       status := if requested.Some? then requested.value.value else d.registrations[r].status,
                       notes := if notes.Some? then notes.value else d.registrations[r].notes))
  {
  }

  // ---------- sending codes ----------

  /** This many challenges, or more, lie in one of the three windows back from now. */
  predicate WindowFull(d: Desk, phone: nat, ip: nat, now: int) {
    || CountSince(ToPhone(phone), SentAt(), d.challenges, now - 3600) >= OTP_PHONE_HOURLY_LIMIT
    || CountSince(FromIp(ip), SentAt(), d.challenges, now - 3600) >= OTP_IP_HOURLY_LIMIT
    || CountSince(AnyChallenge(), SentAt(), d.challenges, now - 60) >= OTP_TENANT_MINUTE_LIMIT
  }

  /** A challenge of this very registration is younger than the cooldown. */
  predicate SentLately(cs: seq<Challenge>, r: nat, now: int) {
    exists c | c in cs :: c.registration == r && now < c.createdAt + OTP_COOLDOWN_SECONDS
  }

  lemma CooldownExactly(d: Desk, r: nat, now: int)
    ensures InCooldown(d, r, now) <==> SentLately(d.challenges, r, now)
  {
    var latest := Newest(OfRegistration(r), d.challenges);
    if latest.Some? { assert d.challenges[latest.value] in d.challenges; }
    if c :| c in d.challenges && c.registration == r && now < c.createdAt + OTP_COOLDOWN_SECONDS {
      var i :| 0 <= i < |d.challenges| && d.challenges[i] == c;
      assert OfRegistration(r)(d.challenges[i]);
    }
  }

  /** The registration's unconsumed challenges are invalidated, and the new one joins. */
  ghost predicate NewCodeOnly(d: Desk, after: Desk, r: nat, ip: nat, code: nat, now: int)
    requires r < |d.registrations|
  {
    && after == d.(challenges := after.challenges) && |after.challenges| == |d.challenges| + 1
    && (forall k | 0 <= k < |d.challenges| ::
          var c := d.challenges[k];
          after.challenges[k] == if c.registration == r && c.consumedAt.None? then c.(invalidatedAt := Some(now)) else c)
    && var c := after.challenges[|d.challenges|];
       && c.registration == r && c.phone == d.registrations[r].phone && c.ip == ip && c.code == code
       && c.attempts == 0 && c.createdAt == now && c.expiresAt == now + OTP_TTL_SECONDS && Live(c)
  }

  /** A code is sent exactly when no window is full, none was sent lately, and delivery succeeds. */
  lemma SendsExactly(d: Desk, r: nat, ip: nat, code: nat, delivered: bool, now: int)
    requires CodesSound(d) && r < |d.registrations|
    ensures var (after, reply) := Send(d, r, ip, code, delivered, now);
            var full := WindowFull(d, d.registrations[r].phone, ip, now);
            var lately := SentLately(d.challenges, r, now);
            var crowded := OTP_MAX_ACTIVE == 1 && exists c | c in d.challenges :: ActiveFor(r, now)(c);
            && (reply == RateLimited <==> full)
            && (reply == CoolingDown <==> !full && lately)
            && (reply == TooManyActive <==> !full && !lately && crowded)
            && (reply == Aborted <==> !full && !lately && !crowded && !delivered)
            && (reply == Done <==> !full && !lately && !crowded && delivered)
            && (reply != Done ==> after == d)
            && (reply == Done ==> NewCodeOnly(d, after, r, ip, code, now))
  {
    CooldownExactly(d, r, now);
    if !OverLimit(d, d.registrations[r].phone, ip, now) && !InCooldown(d, r, now) {
      TooManyActiveExactly(d, r, ip, code, delivered, now);
    }
    assert OverLimit(d, d.registrations[r].phone, ip, now) == WindowFull(d, d.registrations[r].phone, ip, now);
  }

  // ---------- entering codes ----------

  /** The code entered is compared with challenge `k`: the newest live one for the current phone, in time. */
  predicate Compares(d: Desk, e: Event, k: nat) {
    && e.VerifyCode? && e.r < |d.registrations|
    && Newest(LiveFor(e.r, d.registrations[e.r].phone), d.challenges) == Some(k)
    && k < |d.challenges| && e.now < d.challenges[k].expiresAt && d.challenges[k].attempts < OTP_MAX_ATTEMPTS
  }

  /** Every comparison costs an attempt; the right code is consumed, and the last wrong one invalidates. */
  lemma ComparesExactly(d: Desk, e: Event, k: nat)
    requires Compares(d, e, k)
    ensures var (after, reply) := Verify(d, e.r, e.code, e.now);
            var c := d.challenges[k];
            && reply == (if e.code == c.code then Done else CodeInvalid)
            && after.exams == d.exams && after.transactions == d.transactions && OnlyRow(d.challenges, after.challenges, k)
            && after.challenges[k].attempts == c.attempts + 1
            && after.challenges[k].consumedAt == (if e.code == c.code then Some(e.now) else c.consumedAt)
            && after.challenges[k].invalidatedAt
               == (if e.code != c.code && c.attempts + 1 == OTP_MAX_ATTEMPTS then Some(e.now) else c.invalidatedAt)
            && SameStamp(c, after.challenges[k]) && after.challenges[k].expiresAt == c.expiresAt
            && (e.code != c.code ==> after.registrations == d.registrations)
  {
  }

  /** A code that is compared with nothing is refused as expired, and changes nothing. */
  lemma ExpiredOtherwise(d: Desk, e: Event)
    requires CodesSound(d) && e.VerifyCode? && e.r < |d.registrations| && forall k :: !Compares(d, e, k)
    ensures Verify(d, e.r, e.code, e.now) == (d, CodeExpired)
  {
    var found := Newest(LiveFor(e.r, d.registrations[e.r].phone), d.challenges);
    if found.Some? {
      assert ChallengeOk(d.registrations, d.challenges[found.value]);
      assert !Compares(d, e, found.value);
    }
  }

  // ---------- guessing ----------

  predicate GuessesWrong(d: Desk, e: Event, k: nat) {
    Compares(d, e, k) && e.code != d.challenges[k].code
  }

  function Comparing(k: nat): (Desk, Event) -> bool {
    (d: Desk, e: Event) => Compares(d, e, k)
  }

  function Guessing(k: nat): (Desk, Event) -> bool {
    (d: Desk, e: Event) => GuessesWrong(d, e, k)
  }

  /** An existing challenge counts its comparisons, and only the right code consumes it. */
  lemma StepComparisons(d: Desk, e: Event, k: nat)
    requires ChallengesOk(d) && k < |d.challenges|
    ensures k < |Step(d, e).challenges|
    ensures var c, after := d.challenges[k], Step(d, e).challenges[k];
            && after.attempts == c.attempts + One(Compares(d, e, k))
            && (after.consumedAt.Some? <==> c.consumedAt.Some? || (Compares(d, e, k) && e.code == c.code))
            && (Compares(d, e, k) ==> Live(c))
  {
    StepWeakens(d, e);
    if Compares(d, e, k) {
      ComparesExactly(d, e, k);
    } else if e.VerifyCode? && e.r < |d.registrations| {
      NotCompared(d, e, k);
    } else if e.SendCode? {
      SentKeepsCounts(d, e, k);
    } else if e.Edit? {
      EditKeepsCounts(d, e, k);
    }
  }

  lemma NotCompared(d: Desk, e: Event, k: nat)
    requires ChallengesOk(d) && e.VerifyCode? && e.r < |d.registrations| && k < |d.challenges| && !Compares(d, e, k)
    ensures Step(d, e).challenges[k] == d.challenges[k]
  {
    var found := Newest(LiveFor(e.r, d.registrations[e.r].phone), d.challenges);
    if found.Some? { assert ChallengeOk(d.registrations, d.challenges[found.value]); }
  }

  lemma SentKeepsCounts(d: Desk, e: Event, k: nat)
    requires e.SendCode? && k < |d.challenges|
    ensures k < |Step(d, e).challenges|
    ensures Step(d, e).challenges[k].attempts == d.challenges[k].attempts && Step(d, e).challenges[k].consumedAt == d.challenges[k].consumedAt
  {
  }

  lemma EditKeepsCounts(d: Desk, e: Event, k: nat)
    requires e.Edit? && k < |d.challenges|
    ensures k < |Step(d, e).challenges|
    ensures Step(d, e).challenges[k].attempts == d.challenges[k].attempts && Step(d, e).challenges[k].consumedAt == d.challenges[k].consumedAt
  {
  }

  /** A challenge that joins has been compared with nothing. */
  lemma NewChallengeUncounted(d: Desk, e: Event, k: nat)
    requires |d.challenges| <= k < |Step(d, e).challenges|
    ensures Step(d, e).challenges[k].attempts == 0 && Step(d, e).challenges[k].consumedAt.None? && !Compares(d, e, k)
  {
    StepWeakens(d, e);
    assert Sends(d, e) by { assert !Sends(d, e) ==> d.challenges + Added(d, e) == d.challenges; }
  }

  /** Over every run: attempts are comparisons, and all but the one that consumed it were wrong. */
  lemma {:induction false} AttemptsAreComparisons(exams: seq<Exam>, es: seq<Event>, k: nat)
    ensures var d := Run(NewDesk(exams), es);
            var compared, wrong := Happened(Comparing(k), NewDesk(exams), es), Happened(Guessing(k), NewDesk(exams), es);
            if k < |d.challenges|
            then d.challenges[k].attempts == compared && compared == wrong + One(d.challenges[k].consumedAt.Some?)
            else compared == 0 && wrong == 0
  {
    if es != [] {
      var d, e := Run(NewDesk(exams), es[..|es| - 1]), es[|es| - 1];
      AttemptsAreComparisons(exams, es[..|es| - 1], k);
      RunKeepsCodesSound(exams, es[..|es| - 1]);
      if k < |d.challenges| {
        StepComparisons(d, e, k);
      } else if k < |Step(d, e).challenges| {
        NewChallengeUncounted(d, e, k);
      }
    }
  }

  /** A challenge that is not live is never consumed. */
  lemma {:induction false} DeadIsNotConsumed(d: Desk, es: seq<Event>, k: nat)
    requires CodesSound(d) && k < |d.challenges| && !Live(d.challenges[k]) && d.challenges[k].consumedAt.None?
    ensures k < |Run(d, es).challenges| && !Live(Run(d, es).challenges[k]) && Run(d, es).challenges[k].consumedAt.None?
    ensures CodesSound(Run(d, es))
  {
    if es != [] {
      var before, e := Run(d, es[..|es| - 1]), es[|es| - 1];
      DeadIsNotConsumed(d, es[..|es| - 1], k);
      StepKeepsCodesSound(before, e);
      StepComparisons(before, e, k);
      StepWeakens(before, e);
      assert Weaker((before.challenges + Added(before, e))[k], Step(before, e).challenges[k]);
    }
  }

  /** After as many wrong codes as there are attempts, no code is ever accepted for the challenge, however the run goes on. */
  lemma ExhaustedIsFinal(exams: seq<Exam>, es: seq<Event>, k: nat, more: seq<Event>)
    requires Happened(Guessing(k), NewDesk(exams), es) >= OTP_MAX_ATTEMPTS
    ensures var d := Run(NewDesk(exams), es);
            && k < |d.challenges| && Happened(Guessing(k), NewDesk(exams), es) == OTP_MAX_ATTEMPTS
            && var later := Run(d, more);
               k < |later.challenges| && later.challenges[k].consumedAt.None? && !Live(later.challenges[k])
  {
    var d := Run(NewDesk(exams), es);
    AttemptsAreComparisons(exams, es, k);
    RunKeepsCodesSound(exams, es);
    assert ChallengeOk(d.registrations, d.challenges[k]);
    DeadIsNotConsumed(d, more, k);
  }

  // ---------- starting payments ----------

  /** A payment may be started: the registration waits for one, costs something and has none open. */
  predicate Payable(d: Desk, r: nat) {
    && r < |d.registrations| && d.registrations[r].status in {Submitted, PaymentPending}
    && d.registrations[r].amount.Some? && d.registrations[r].amount.value > 0 && d.registrations[r].currency.Some?
    && forall t | t in d.transactions :: !IsActive(t, r)
  }

  /** The new transaction charges the registration's price. */
  ghost predicate Charges(d: Desk, after: Desk, r: nat, key: nat)
    requires r < |d.registrations|
  {
    && after == d.(registrations := after.registrations, transactions := after.transactions)
    && OnlyRow(d.registrations, after.registrations, r) && after.registrations[r] == d.registrations[r].(status := PaymentPending)
    && OneMore(d.transactions, after.transactions)
    && var t := after.transactions[|d.transactions|];
       && t.registration == r && Some(t.amount) == d.registrations[r].amount && Some(t.currency) == d.registrations[r].currency
       && t.status == Pending && t.key == key && t.consumedAt.None? && t.providerId.None?
  }

  predicate KeyUsed(d: Desk, key: nat) {
    exists t | t in d.transactions :: t.key == key
  }

  /** A payment is started exactly with a new key for a payable registration; any other request changes nothing. */
  lemma StartsExactly(d: Desk, r: nat, key: nat)
    ensures var (after, reply, named) := Initiate(d, r, key);
            && (after != d ==> !KeyUsed(d, key) && Payable(d, r))
            && (!KeyUsed(d, key) && Payable(d, r) ==> reply == Done && named == Some(|d.transactions|) && Charges(d, after, r, key))
            && (reply == Done <==> named.Some?)
            && (reply == Done && after == d ==>
                  named.value < |d.transactions| && d.transactions[named.value].key == key && d.transactions[named.value].registration == r)
            && (reply == KeyConflict ==> exists t | t in d.transactions :: t.key == key && t.registration != r)
            && (reply == AlreadyPending ==> exists t | t in d.transactions :: IsActive(t, r))
            && (reply == NotPayable ==> d.registrations[r].status !in {Submitted, PaymentPending})
            && (reply == NothingToPay ==> d.registrations[r].amount.None? || d.registrations[r].amount.value == 0)
            && (reply == CurrencyMissing ==> d.registrations[r].currency.None?)
            && (reply == NotFound <==> r >= |d.registrations|)
            && reply in {Done, KeyConflict, AlreadyPending, NotPayable, NothingToPay, CurrencyMissing, NotFound}
  {
    var existing := FindKey(d.transactions, key);
    if existing.Some? { assert d.transactions[existing.value] in d.transactions; }
    if KeyUsed(d, key) {
      var t :| t in d.transactions && t.key == key;
      var i :| 0 <= i < |d.transactions| && d.transactions[i] == t;
      assert existing.Some?;
    }
  }

  // ---------- ending payments ----------

  /** The gateway's word on open transaction `k` is taken: it is genuine, and an id it carries is new. */
  predicate Ends(d: Desk, e: Event) {
    && e.GatewayCallback? && e.k < |d.transactions| && d.transactions[e.k].status == Pending && e.caller == Genuine
    && (e.outcome.Some? && e.outcome.value.Some? ==> forall t | t in d.transactions :: t.providerId != e.outcome.value)
  }

  /** Transaction and registration follow the gateway's word together, and nothing else changes. */
  lemma EndsExactly(d: Desk, e: Event)
    requires Sound(d) && Ends(d, e)
    ensures var (after, reply) := Callback(d, e.k, e.caller, e.outcome, e.now);
            var t := d.transactions[e.k];
            var paid := e.outcome.Some?;
            && reply == Done && after.exams == d.exams && after.challenges == d.challenges
            && OnlyRow(d.transactions, after.transactions, e.k) && t.registration < |d.registrations|
            && OnlyRow(d.registrations, after.registrations, t.registration)
            && SameCharge(t, after.transactions[e.k]) && after.transactions[e.k].consumedAt == Some(e.now)
            && after.transactions[e.k].status == (if paid then Successful else Failed)
            && after.transactions[e.k].providerId == (if paid then e.outcome.value else t.providerId)
            && after.registrations[t.registration]
               == d.registrations[t.registration].(status := if paid then Completed else Submitted,
                                                   payment := if paid then PaymentSuccessful else PaymentFailed)
  {
    assert TransactionOk(d.registrations, d.transactions[e.k]);
  }

  /** Any other callback changes nothing; a genuine one for a transaction that is over is answered as done. */
  lemma IgnoredOtherwise(d: Desk, e: Event)
    requires Sound(d) && e.GatewayCallback? && !Ends(d, e)
    ensures var (after, reply) := Callback(d, e.k, e.caller, e.outcome, e.now);
            && after == d
            && (reply == Done <==> e.k < |d.transactions| && e.caller == Genuine && d.transactions[e.k].status != Pending)
            && (reply == NotFound <==> e.k >= |d.transactions| || e.caller == WrongProvider)
            && (reply == CallbackInvalid <==> e.k < |d.transactions| && e.caller == WrongNonce)
  {
    if e.k < |d.transactions| { assert TransactionOk(d.registrations, d.transactions[e.k]); }
  }
}
