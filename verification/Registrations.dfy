/**
  Exam registration, phone verification and payment as one state machine over the tables of
  a tenant: registrations, one-time-code challenges and payment transactions.

  Rows are identified by their index. Exams do not change during a run.
 */
module Registrations {
  import opened Common
  import opened Counting

  type CodeLifetime = n: nat | 60 <= n <= 600 witness 180
  type Cooldown = n: nat | 10 <= n <= 600 witness 60
  type CodeAttempts = n: nat | 1 <= n <= 10 witness 5
  type ActiveLimit = n: nat | 1 <= n <= 10 witness 3
  type PhoneLimit = n: nat | 1 <= n <= 100 witness 10
  type IpLimit = n: nat | 1 <= n <= 500 witness 20
  type TenantLimit = n: nat | 1 <= n <= 10_000 witness 100

  const OTP_TTL_SECONDS: CodeLifetime
  const OTP_COOLDOWN_SECONDS: Cooldown
  const OTP_MAX_ATTEMPTS: CodeAttempts
  const OTP_MAX_ACTIVE: ActiveLimit
  const OTP_PHONE_HOURLY_LIMIT: PhoneLimit
  const OTP_IP_HOURLY_LIMIT: IpLimit
  const OTP_TENANT_MINUTE_LIMIT: TenantLimit
  const HOUR: nat := 3600
  const MINUTE: nat := 60

  datatype Status =
    | DraftSaved | PhoneVerificationRequired | PhoneVerified | ReadyForSubmission
    | Submitted | PaymentPending | Completed | Cancelled

  const MUTABLE := {DraftSaved, PhoneVerificationRequired, PhoneVerified, ReadyForSubmission}
  const SEATED := {Submitted, PaymentPending, Completed}

  datatype PaymentStatus = PaymentDue | PaymentSuccessful | PaymentFailed

  datatype Answer =
    | FirstName | LastName | Gender | NationalCode | FatherName | BirthDate | CurrentSchool
    | PreviousSchool | PostalCode | Address | ProfileImage | HomePhone | ExtraAnswers

  datatype Contact = Contact(position: nat, name: string, phone: string, relationship: string)

  datatype Registration = Registration(
    exam: nat,
    phone: nat,
    verifiedAt: Option<int>,
    submittedAt: Option<int>,
    status: Status,
    payment: PaymentStatus,
    amount: Option<nat>,
    currency: Option<string>,
    answers: map<Answer, Option<string>>,
    contacts: seq<Contact>,
    notes: Option<string>)

  datatype Challenge = Challenge(
    registration: nat,
    phone: nat,
    ip: nat,
    code: nat,
    attempts: nat,
    createdAt: int,
    expiresAt: int,
    consumedAt: Option<int>,
    invalidatedAt: Option<int>)

  datatype TransactionStatus = Initiated | Pending | Successful | Failed | Voided | Refunded

  datatype Transaction = Transaction(
    registration: nat,
    amount: nat,
    currency: string,
    status: TransactionStatus,
    key: nat,
    consumedAt: Option<int>,
    providerId: Option<nat>)

  datatype Exam = Exam(capacity: Option<nat>, open: bool, startsAt: Option<int>, endsAt: Option<int>)

  datatype Desk = Desk(
    exams: seq<Exam>,
    registrations: seq<Registration>,
    challenges: seq<Challenge>,
    transactions: seq<Transaction>)

  datatype Reply =
    | Done | NotFound | ExamNotStarted | ExamClosed | PlanUnavailable | NotEditable | ReferenceInvalid | RateLimited
    | CoolingDown | TooManyActive | CodeExpired | AttemptLimit | CodeInvalid | StateInvalid
    | PhoneNotVerified | Incomplete | ContactsMissing | NotReady(why: Readiness) | CapacityReached | KeyConflict
    | AlreadyPending | NotPayable | NothingToPay | CurrencyMissing | CallbackInvalid
    | TransitionInvalid | Aborted

  // ---------- drafts: app/registrations/service.py ----------

  datatype Plan = NoPlan | Unavailable | Priced(amount: nat, currency: string)

  function CreateDraft(d: Desk, exam: nat, plan: Plan, phone: nat, now: int): (Desk, Reply) {
    if exam >= |d.exams| then (d, NotFound)
    else
      var e := d.exams[exam];
      if !e.open then (d, ExamClosed)
      else if e.startsAt.Some? && now < e.startsAt.value then (d, ExamNotStarted)
      else if e.endsAt.Some? && now >= e.endsAt.value then (d, ExamClosed)
      else if plan.Unavailable? then (d, PlanUnavailable)
      else
        var r := Registration(exam, phone, None, None, PhoneVerificationRequired, PaymentDue,
                              Some(if plan.Priced? then plan.amount else 0),
                              if plan.Priced? then Some(plan.currency) else None, map[ExtraAnswers := Some("{}")], [], None);
        (d.(registrations := d.registrations + [r]), Done)
  }

  predicate Live(c: Challenge) {
    c.consumedAt.None? && c.invalidatedAt.None?
  }

  /** Bulk invalidation of a registration's live challenges. */
  function InvalidateLive(cs: seq<Challenge>, r: nat, now: int): seq<Challenge> {
    seq(|cs|, i requires 0 <= i < |cs| =>
      if cs[i].registration == r && Live(cs[i]) then cs[i].(invalidatedAt := Some(now)) else cs[i])
  }

  // What the database makes of the changes: whether the school and the image that they refer
  // to exist, and whether the row they give meets the table's constraints.
  datatype Admission = Admitted | BadReference | Violation

  /** A partial update. `phone` is absent, an explicit null, or a number. */
  function Patch(d: Desk, r: nat, phone: Option<Option<nat>>, changes: map<Answer, Option<string>>, admission: Admission, now: int): (Desk, Reply) {
    if r >= |d.registrations| then (d, NotFound)
    else
      var reg := d.registrations[r];
      if reg.status !in MUTABLE then (d, NotEditable)
      else if admission == BadReference then (d, ReferenceInvalid)
      else if phone == Some(None) || admission == Violation then (d, Aborted)
      else
        var edited := reg.(answers := reg.answers + changes);
        if phone.Some? && phone.value.value != reg.phone then
          (d.(registrations := d.registrations[r := edited.(phone := phone.value.value, verifiedAt := None, status := PhoneVerificationRequired)],
              challenges := InvalidateLive(d.challenges, r, now)), Done)
        else (d.(registrations := d.registrations[r := edited]), Done)
  }

  function Positions(contacts: seq<Contact>): set<nat> {
    set c | c in contacts :: c.position
  }

  /** The table's constraints: positions 1 and 2, each once. */
  predicate ContactsFine(contacts: seq<Contact>) {
    Positions(contacts) <= {1, 2} && forall i, k | 0 <= i < k < |contacts| :: contacts[i].position != contacts[k].position
  }

  function ReplaceContacts(d: Desk, r: nat, contacts: seq<Contact>): (Desk, Reply) {
    if r >= |d.registrations| then (d, NotFound)
    else if d.registrations[r].status !in MUTABLE then (d, NotEditable)
    else if !ContactsFine(contacts) then (d, Aborted)
    else (d.(registrations := d.registrations[r := d.registrations[r].(contacts := contacts)]), Done)
  }

  predicate IsComplete(reg: Registration) {
    forall a: Answer | a != HomePhone && a != ExtraAnswers :: a in reg.answers && reg.answers[a].Some?
  }

  function Seated(exam: nat): Registration -> bool {
    (r: Registration) => r.exam == exam && r.status in SEATED
  }

  function Seats(d: Desk, exam: nat): nat {
    Count(Seated(exam), d.registrations)
  }

  predicate Full(d: Desk, exam: nat) {
    exam < |d.exams| && d.exams[exam].capacity.Some? && Seats(d, exam) >= d.exams[exam].capacity.value
  }

  // The profile image, and the extra answers against the form definition.
  datatype Readiness = Ready | ImageNotReady | FormUnavailable | AnswersUnfit

  function Submit(d: Desk, r: nat, readiness: Readiness, now: int): (Desk, Reply) {
    if r >= |d.registrations| then (d, NotFound)
    else
      var reg := d.registrations[r];
      if reg.status in SEATED then (d, Done)
      else if reg.status !in MUTABLE then (d, StateInvalid)
      else if reg.verifiedAt.None? then (d, PhoneNotVerified)
      else if !IsComplete(reg) then (d, Incomplete)
      else if |reg.contacts| != 2 || Positions(reg.contacts) != {1, 2} then (d, ContactsMissing)
      else if readiness != Ready then (d, NotReady(readiness))
      else if reg.exam >= |d.exams| then (d, NotFound)
      else if d.exams[reg.exam].endsAt.Some? && now >= d.exams[reg.exam].endsAt.value then (d, ExamClosed)
      else if Full(d, reg.exam) then (d, CapacityReached)
      else (d.(registrations := d.registrations[r := reg.(status := Submitted, submittedAt := Some(now))]), Done)
  }

  // ---------- administration: app/registrations/admin_service.py ----------

  /** `requested` is absent, an explicit null, or one of the two statuses the schema admits; `notes` is absent or set. */
  function AdminUpdate(d: Desk, r: nat, requested: Option<Option<Status>>, notes: Option<Option<string>>): (Desk, Reply) {
    if r >= |d.registrations| then (d, NotFound)
    else
      var reg := d.registrations[r];
      var noted := if notes.Some? then reg.(notes := notes.value) else reg;
      if requested.None? then (d.(registrations := d.registrations[r := noted]), Done)
      else if requested.value.None? then (d, Aborted)
      else
        var status := requested.value.value;
        if status !in {Submitted, Cancelled} then (d, TransitionInvalid)
        else if status == Submitted && reg.status != Cancelled then (d, TransitionInvalid)
        else if status == Cancelled && reg.status == Completed then (d, TransitionInvalid)
        else (d.(registrations := d.registrations[r := noted.(status := status)]), Done)
  }

  // ---------- one-time codes: app/otp/service.py ----------

  function ToPhone(phone: nat): Challenge -> bool {
    (c: Challenge) => c.phone == phone
  }

  function FromIp(ip: nat): Challenge -> bool {
    (c: Challenge) => c.ip == ip
  }

  function AnyChallenge(): Challenge -> bool {
    (c: Challenge) => true
  }

  function SentAt(): Challenge -> int {
    (c: Challenge) => c.createdAt
  }

  function ActiveFor(r: nat, now: int): Challenge -> bool {
    (c: Challenge) => c.registration == r && Live(c) && c.expiresAt > now
  }

  /** The newest challenge that satisfies `p`. */
  function Newest(p: Challenge -> bool, cs: seq<Challenge>): (r: Option<nat>)
    ensures r.Some? ==> r.value < |cs| && p(cs[r.value])
    ensures r.Some? ==> forall i | 0 <= i < |cs| && p(cs[i]) :: cs[i].createdAt <= cs[r.value].createdAt
    ensures r.None? ==> forall i | 0 <= i < |cs| :: !p(cs[i])
  {
    if cs == [] then None
    else
      var last := |cs| - 1;
      var earlier := Newest(p, cs[..last]);
      if p(cs[last]) && (earlier.None? || cs[earlier.value].createdAt < cs[last].createdAt) then Some(last) else earlier
  }

  function OfRegistration(r: nat): Challenge -> bool {
    (c: Challenge) => c.registration == r
  }

  function LiveFor(r: nat, phone: nat): Challenge -> bool {
    (c: Challenge) => c.registration == r && c.phone == phone && Live(c)
  }

  /** Every unconsumed challenge is invalidated, also those invalidated before. */
  function InvalidateUnconsumed(cs: seq<Challenge>, r: nat, now: int): seq<Challenge> {
    seq(|cs|, i requires 0 <= i < |cs| =>
      if cs[i].registration == r && cs[i].consumedAt.None? then cs[i].(invalidatedAt := Some(now)) else cs[i])
  }

  predicate OverLimit(d: Desk, phone: nat, ip: nat, now: int) {
    || CountSince(ToPhone(phone), SentAt(), d.challenges, now - HOUR) >= OTP_PHONE_HOURLY_LIMIT
    || CountSince(FromIp(ip), SentAt(), d.challenges, now - HOUR) >= OTP_IP_HOURLY_LIMIT
    || CountSince(AnyChallenge(), SentAt(), d.challenges, now - MINUTE) >= OTP_TENANT_MINUTE_LIMIT
  }

  predicate InCooldown(d: Desk, r: nat, now: int) {
    var latest := Newest(OfRegistration(r), d.challenges);
    latest.Some? && d.challenges[latest.value].createdAt + OTP_COOLDOWN_SECONDS > now
  }

  function Send(d: Desk, r: nat, ip: nat, code: nat, delivered: bool, now: int): (Desk, Reply) {
    if r >= |d.registrations| then (d, NotFound)
    else
      var phone := d.registrations[r].phone;
      if OverLimit(d, phone, ip, now) then (d, RateLimited)
      else if InCooldown(d, r, now) then (d, CoolingDown)
      else if Count(ActiveFor(r, now), d.challenges) >= OTP_MAX_ACTIVE then (d, TooManyActive)
      else if !delivered then (d, Aborted)
      else
        (d.(challenges := InvalidateUnconsumed(d.challenges, r, now)
                          + [Challenge(r, phone, ip, code, 0, now, now + OTP_TTL_SECONDS, None, None)]), Done)
  }

  /** The newest live challenge for the current phone is in time, has attempts left and carries this code. */
  predicate CodeFits(d: Desk, r: nat, code: nat, now: int)
    requires r < |d.registrations|
  {
    var found := Newest(LiveFor(r, d.registrations[r].phone), d.challenges);
    && found.Some? && now < d.challenges[found.value].expiresAt
    && d.challenges[found.value].attempts < OTP_MAX_ATTEMPTS && d.challenges[found.value].code == code
  }

  /** The caller commits also when the code is refused, so failed attempts are kept. */
  function Verify(d: Desk, r: nat, code: nat, now: int): (Desk, Reply) {
    if r >= |d.registrations| then (d, NotFound)
    else
      var reg := d.registrations[r];
      var found := Newest(LiveFor(r, reg.phone), d.challenges);
      if found.None? || d.challenges[found.value].expiresAt <= now then (d, CodeExpired)
      else
        var k := found.value;
        var c := d.challenges[k];
        var tried := c.(attempts := c.attempts + 1);
        if c.attempts >= OTP_MAX_ATTEMPTS then
          (d.(challenges := d.challenges[k := c.(invalidatedAt := Some(now))]), AttemptLimit)
        else if code != c.code then
          (d.(challenges := d.challenges[k := if tried.attempts >= OTP_MAX_ATTEMPTS then tried.(invalidatedAt := Some(now)) else tried]), CodeInvalid)
        else
          (d.(challenges := d.challenges[k := tried.(consumedAt := Some(now))],
              registrations := d.registrations[r := reg.(verifiedAt := Some(now), status := PhoneVerified)]), Done)
  }

  // ---------- payments: app/payments/service.py ----------

  function FindKey(ts: seq<Transaction>, key: nat): (r: Option<nat>)
    ensures r.Some? ==> r.value < |ts| && ts[r.value].key == key
    ensures r.None? ==> forall i | 0 <= i < |ts| :: ts[i].key != key
  {
    if ts == [] then None
    else if ts[|ts| - 1].key == key then Some(|ts| - 1)
    else FindKey(ts[..|ts| - 1], key)
  }

  predicate IsActive(t: Transaction, r: nat) {
    t.registration == r && t.status in {Initiated, Pending}
  }

  /** The transaction that a request with this key names, besides the new state. */
  function Initiate(d: Desk, r: nat, key: nat): (Desk, Reply, Option<nat>) {
    if r >= |d.registrations| then (d, NotFound, None)
    else
      var reg := d.registrations[r];
      var existing := FindKey(d.transactions, key);
      if existing.Some? then
        if d.transactions[existing.value].registration != r then (d, KeyConflict, None) else (d, Done, existing)
      else if exists t | t in d.transactions :: IsActive(t, r) then (d, AlreadyPending, None)
      else if reg.status !in {Submitted, PaymentPending} then (d, NotPayable, None)
      else if reg.amount.None? || reg.amount.value == 0 then (d, NothingToPay, None)
      else if reg.currency.None? then (d, CurrencyMissing, None)
      else
        (d.(transactions := d.transactions + [Transaction(r, reg.amount.value, reg.currency.value, Pending, key, None, None)],
            registrations := d.registrations[r := reg.(status := PaymentPending)]), Done, Some(|d.transactions|))
  }

  // Whether the callback's provider is the configured one and its nonce is the transaction's.
  datatype Caller = Genuine | WrongProvider | WrongNonce

  /** `outcome` is the gateway's verification: none if it failed, else the transaction id it may carry. */
  function Callback(d: Desk, k: nat, caller: Caller, outcome: Option<Option<nat>>, now: int): (Desk, Reply) {
    if k >= |d.transactions| || caller == WrongProvider then (d, NotFound)
    else
      var t := d.transactions[k];
      if caller == WrongNonce then (d, CallbackInvalid)
      else if t.status == Successful || t.consumedAt.Some? then (d, Done)
      else if t.registration >= |d.registrations| then (d, NotFound)
      else
        var reg := d.registrations[t.registration];
        match outcome
        case Some(id) =>
          if id.Some? && exists u | u in d.transactions :: u.providerId == id then (d, Aborted)
          else
            (d.(transactions := d.transactions[k := t.(status := Successful, consumedAt := Some(now), providerId := id)],
                registrations := d.registrations[t.registration := reg.(payment := PaymentSuccessful, status := Completed)]), Done)
        case None =>
          (d.(transactions := d.transactions[k := t.(status := Failed, consumedAt := Some(now))],
              registrations := d.registrations[t.registration := reg.(payment := PaymentFailed, status := Submitted)]), Done)
  }

  // ---------- runs ----------

  datatype Event =
    | Create(exam: nat, plan: Plan, phone: nat, now: int)
    | Edit(r: nat, newPhone: Option<Option<nat>>, changes: map<Answer, Option<string>>, admission: Admission, now: int)
    | SetContacts(r: nat, contacts: seq<Contact>)
    | SendCode(r: nat, ip: nat, code: nat, delivered: bool, now: int)
    | VerifyCode(r: nat, code: nat, now: int)
    | SubmitDraft(r: nat, readiness: Readiness, now: int)
    | Pay(r: nat, key: nat)
    | GatewayCallback(k: nat, caller: Caller, outcome: Option<Option<nat>>, now: int)
    | Administer(r: nat, requested: Option<Option<Status>>, notes: Option<Option<string>>)

  function Step(d: Desk, e: Event): Desk {
    match e
    case Create(exam, plan, phone, now) => CreateDraft(d, exam, plan, phone, now).0
    case Edit(r, newPhone, changes, admission, now) => Patch(d, r, newPhone, changes, admission, now).0
    case SetContacts(r, contacts) => ReplaceContacts(d, r, contacts).0
    case SendCode(r, ip, code, delivered, now) => Send(d, r, ip, code, delivered, now).0
    case VerifyCode(r, code, now) => Verify(d, r, code, now).0
    case SubmitDraft(r, readiness, now) => Submit(d, r, readiness, now).0
    case Pay(r, key) => Initiate(d, r, key).0
    case GatewayCallback(k, caller, outcome, now) => Callback(d, k, caller, outcome, now).0
    case Administer(r, requested, notes) => AdminUpdate(d, r, requested, notes).0
  }

  function Run(d: Desk, es: seq<Event>): Desk {
    if es == [] then d else Step(Run(d, es[..|es| - 1]), es[|es| - 1])
  }

  function NewDesk(exams: seq<Exam>): Desk {
    Desk(exams, [], [], [])
  }
}
