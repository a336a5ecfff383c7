/** The registration, code and payment services over their tables; each method is one transaction. */
module RegistrationDesks {
  import opened Common
  import opened Counting
  import opened Registrations
  import PaymentSafety
  import CodeSafety

  /** The loop over the changed fields sets each to its new value and leaves the others. */
  method SetAnswers(registration: Registration, changes: map<Answer, Option<string>>) returns (edited: Registration)
    ensures edited == registration.(answers := registration.answers + changes)
  {
    edited := registration;
    var fields := changes.Keys;
    while fields != {}
      invariant fields <= changes.Keys && edited == registration.(answers := edited.answers)
      invariant edited.answers == registration.answers + map f | f in changes.Keys - fields :: changes[f]
      decreases |fields|
    {
      var field :| field in fields;
      edited := edited.(answers := edited.answers[field := changes[field]]);
      fields := fields - {field};
    }
    assert changes == map f | f in changes.Keys - fields :: changes[f];
  }

  class RegistrationDesk {
    const exams: seq<Exam>
    var registrations: seq<Registration>
    var challenges: seq<Challenge>
    var transactions: seq<Transaction>

    ghost function View(): Desk
      reads this
    {
      Desk(exams, registrations, challenges, transactions)
    }

    /** What payments and codes promise in every state. */
    ghost predicate Valid()
      reads this
    {
      PaymentSafety.Sound(View()) && CodeSafety.CodesSound(View()) && CodeSafety.WithinLimits(challenges)
    }

    constructor (exams: seq<Exam>)
      ensures View() == NewDesk(exams) && Valid()
    {
      this.exams := exams;
      registrations, challenges, transactions := [], [], [];
      new;
      PaymentSafety.NewDeskIsSound(exams);
      CodeSafety.RunKeepsCodesSound(exams, []);
      CodeSafety.CodesWithinLimits(exams, []);
    }

    /** A request, whichever service it is for: one step of the machine, which keeps those promises. */
    method Handle(e: Event)
      requires Valid()
      modifies this
      ensures View() == Step(old(View()), e) && Valid()
    {
      PaymentSafety.StepKeepsSound(View(), e);
      CodeSafety.StepKeepsCodesSound(View(), e);
      CodeSafety.StepWithinLimits(View(), e);
      match e {
        case Create(exam, plan, phone, now) => var _ := CreateDraft(exam, plan, phone, now);
        case Edit(r, phone, changes, admission, now) => var _ := Patch(r, phone, changes, admission, now);
        case SetContacts(r, contacts) => var _ := ReplaceContacts(r, contacts);
        case SendCode(r, ip, code, delivered, now) => var _ := Send(r, ip, code, delivered, now);
        case VerifyCode(r, code, now) => var _ := Verify(r, code, now);
        case SubmitDraft(r, readiness, now) => var _ := Submit(r, readiness, now);
        case Pay(r, key) => var _, _ := Initiate(r, key);
        case GatewayCallback(k, caller, outcome, now) => var _ := VerifyCallback(k, caller, outcome, now);
        case Administer(r, requested, notes) => var _ := AdminUpdate(r, requested, notes);
      }
    }

    // ---------- app/registrations/service.py ----------

    method CreateDraft(exam: nat, plan: Plan, phone: nat, now: int) returns (reply: Reply)
      modifies this`registrations
      ensures (View(), reply) == Registrations.CreateDraft(old(View()), exam, plan, phone, now)
    {
      if exam >= |exams| { return NotFound; }
      var offering := exams[exam];
      if !offering.open { return ExamClosed; }
      if offering.startsAt.Some? && now < offering.startsAt.value { return ExamNotStarted; }
      if offering.endsAt.Some? && now >= offering.endsAt.value { return ExamClosed; }
      var amount, currency := 0, None;
      match plan {
        case Unavailable => return PlanUnavailable;
        case Priced(price, unit) => amount, currency := price, Some(unit);
        case NoPlan =>
      }
      var registration := Registration(exam, phone, None, None, PhoneVerificationRequired, PaymentDue, Some(amount), currency,
                                       map[ExtraAnswers := Some("{}")], [], None);
      registrations := registrations + [registration];
      return Done;
    }

    method Patch(r: nat, phone: Option<Option<nat>>, changes: map<Answer, Option<string>>, admission: Admission, now: int) returns (reply: Reply)
      modifies this`registrations, this`challenges
      ensures (View(), reply) == Registrations.Patch(old(View()), r, phone, changes, admission, now)
    {
      if r >= |registrations| { return NotFound; }
      var registration := registrations[r];
      if registration.status !in MUTABLE { return NotEditable; }
      if admission == BadReference { return ReferenceInvalid; }
      if phone == Some(None) || admission == Violation { return Aborted; } // refused when the row is written
      var oldPhone := registration.phone;
      registration := SetAnswers(registration, changes);
      if phone.Some? { registration := registration.(phone := phone.value.value); }
      if phone.Some? && registration.phone != oldPhone {
        registration := registration.(verifiedAt := None);
        registration := registration.(status := PhoneVerificationRequired);
        challenges := InvalidateLive(challenges, r, now);
      }
      registrations := registrations[r := registration];
      return Done;
    }

    method ReplaceContacts(r: nat, contacts: seq<Contact>) returns (reply: Reply)
      modifies this`registrations
      ensures (View(), reply) == Registrations.ReplaceContacts(old(View()), r, contacts)
    {
      if r >= |registrations| { return NotFound; }
      var registration := registrations[r];
      if registration.status !in MUTABLE { return NotEditable; }
      if !ContactsFine(contacts) { return Aborted; } // refused when the rows are written
      registration := registration.(contacts := []);
      registration := registration.(contacts := registration.contacts + contacts);
      assert registration.contacts == contacts;
      registrations := registrations[r := registration];
      return Done;
    }

    method Submit(r: nat, readiness: Readiness, now: int) returns (reply: Reply)
      modifies this`registrations
      ensures (View(), reply) == Registrations.Submit(old(View()), r, readiness, now)
    {
      if r >= |registrations| { return NotFound; }
      var registration := registrations[r];
      if registration.status in SEATED { return Done; }
      if registration.status !in MUTABLE { return StateInvalid; }
      if registration.verifiedAt.None? { return PhoneNotVerified; }
      if !IsComplete(registration) { return Incomplete; }
      if |registration.contacts| != 2 || Positions(registration.contacts) != {1, 2} { return ContactsMissing; }
      if readiness != Ready { return NotReady(readiness); }
      if registration.exam >= |exams| { return NotFound; }
      var exam := exams[registration.exam];
      if exam.endsAt.Some? && now >= exam.endsAt.value { return ExamClosed; }
      if exam.capacity.Some? {
        var submitted := Count(Seated(registration.exam), registrations);
        if submitted >= exam.capacity.value { return CapacityReached; }
      }
      registration := registration.(status := Submitted);
      registration := registration.(submittedAt := Some(now));
      registrations := registrations[r := registration];
      return Done;
    }

    // ---------- app/registrations/admin_service.py ----------

    method AdminUpdate(r: nat, requested: Option<Option<Status>>, notes: Option<Option<string>>) returns (reply: Reply)
      modifies this`registrations
      ensures (View(), reply) == Registrations.AdminUpdate(old(View()), r, requested, notes)
    {
      if r >= |registrations| { return NotFound; }
      var registration := registrations[r];
      if requested.Some? {
        if requested.value.None? { return Aborted; } // refused when the row is written
        var status := requested.value.value;
        if status != Submitted && status != Cancelled { return TransitionInvalid; }
        if status == Submitted && registration.status != Cancelled { return TransitionInvalid; }
        if status == Cancelled && registration.status == Completed { return TransitionInvalid; }
        registration := registration.(status := status);
      }
      if notes.Some? { registration := registration.(notes := notes.value); }
      registrations := registrations[r := registration];
      return Done;
    }

    // ---------- app/otp/service.py ----------

    method Send(r: nat, ip: nat, code: nat, delivered: bool, now: int) returns (reply: Reply)
      modifies this`challenges
      ensures (View(), reply) == Registrations.Send(old(View()), r, ip, code, delivered, now)
    {
      if r >= |registrations| { return NotFound; }
      var phone := registrations[r].phone;
      var hourAgo, minuteAgo := now - HOUR, now - MINUTE;
      var toPhone := CountSince(ToPhone(phone), SentAt(), challenges, hourAgo);
      var fromIp := CountSince(FromIp(ip), SentAt(), challenges, hourAgo);
      var all := CountSince(AnyChallenge(), SentAt(), challenges, minuteAgo);
      if toPhone >= OTP_PHONE_HOURLY_LIMIT || fromIp >= OTP_IP_HOURLY_LIMIT || all >= OTP_TENANT_MINUTE_LIMIT { return RateLimited; }
      var latest := Newest(OfRegistration(r), challenges);
      if latest.Some? && challenges[latest.value].createdAt + OTP_COOLDOWN_SECONDS > now { return CoolingDown; }
      var active := Count(ActiveFor(r, now), challenges);
      if active >= OTP_MAX_ACTIVE { return TooManyActive; }
      var before := challenges;
      challenges := InvalidateUnconsumed(challenges, r, now);
      challenges := challenges + [Challenge(r, phone, ip, code, 0, now, now + OTP_TTL_SECONDS, None, None)];
      if !delivered {
        challenges := before; // the transaction is rolled back
        return Aborted;
      }
      return Done;
    }

    method Verify(r: nat, code: nat, now: int) returns (reply: Reply)
      modifies this`registrations, this`challenges
      ensures (View(), reply) == Registrations.Verify(old(View()), r, code, now)
    {
      if r >= |registrations| { return NotFound; }
      var found := Newest(LiveFor(r, registrations[r].phone), challenges);
      if found.None? || challenges[found.value].expiresAt <= now { return CodeExpired; }
      var k := found.value;
      var challenge := challenges[k];
      if challenge.attempts >= OTP_MAX_ATTEMPTS {
        challenges := challenges[k := challenge.(invalidatedAt := Some(now))];
        return AttemptLimit;
      }
      challenge := challenge.(attempts := challenge.attempts + 1);
      if challenge.code != code {
        if challenge.attempts >= OTP_MAX_ATTEMPTS { challenge := challenge.(invalidatedAt := Some(now)); }
        challenges := challenges[k := challenge];
        return CodeInvalid;
      }
      challenge := challenge.(consumedAt := Some(now));
      var registration := registrations[r];
      registration := registration.(verifiedAt := Some(now));
      registration := registration.(status := PhoneVerified);
      challenges, registrations := challenges[k := challenge], registrations[r := registration];
      return Done;
    }

    // ---------- app/payments/service.py ----------

    method Initiate(r: nat, key: nat) returns (reply: Reply, named: Option<nat>)
      modifies this`registrations, this`transactions
      ensures (View(), reply, named) == Registrations.Initiate(old(View()), r, key)
    {
      if r >= |registrations| { return NotFound, None; }
      var existing := FindKey(transactions, key);
      if existing.Some? {
        if transactions[existing.value].registration != r { return KeyConflict, None; }
        return Done, existing;
      }
      if exists t | t in transactions :: IsActive(t, r) { return AlreadyPending, None; }
      var registration := registrations[r];
      if registration.status != Submitted && registration.status != PaymentPending { return NotPayable, None; }
      if registration.amount.None? || registration.amount.value == 0 { return NothingToPay, None; }
      if registration.currency.None? { return CurrencyMissing, None; }
      var transaction := Transaction(r, registration.amount.value, registration.currency.value, Pending, key, None, None);
      transactions := transactions + [transaction];
      registrations := registrations[r := registration.(status := PaymentPending)];
      return Done, Some(|transactions| - 1);
    }

    method VerifyCallback(k: nat, caller: Caller, outcome: Option<Option<nat>>, now: int) returns (reply: Reply)
      modifies this`registrations, this`transactions
      ensures (View(), reply) == Registrations.Callback(old(View()), k, caller, outcome, now)
    {
      if k >= |transactions| || caller == WrongProvider { return NotFound; }
      if caller == WrongNonce { return CallbackInvalid; }
      var transaction := transactions[k];
      if transaction.status == Successful { return Done; }
      if transaction.consumedAt.Some? { return Done; }
      transaction := transaction.(consumedAt := Some(now));
      var r := transaction.registration;
      if r >= |registrations| { return NotFound; }
      var registration := registrations[r];
      if outcome.Some? {
        if outcome.value.Some? && exists u | u in transactions :: u.providerId == outcome.value { return Aborted; }
        transaction := transaction.(status := Successful, providerId := outcome.value);
        registration := registration.(payment := PaymentSuccessful);
        registration := registration.(status := Completed);
      } else {
        transaction := transaction.(status := Failed);
        registration := registration.(payment := PaymentFailed);
        registration := registration.(status := Submitted);
      }
      transactions := transactions[k := transaction];
      registrations := registrations[r := registration];
      return Done;
    }
  }
}
