/** Seats of an exam, over every run of registrations, codes and payments. */
module SeatSafety {
  import opened Common
  import opened Counting
  import opened Registrations

  // ---------- how a seat is taken and left ----------

  /** An editable, verified and complete registration of an exam that has not ended and is not full. */
  predicate Submittable(d: Desk, reg: Registration, readiness: Readiness, now: int) {
    && reg.status in MUTABLE && reg.verifiedAt.Some? && IsComplete(reg) && readiness == Ready
    && |reg.contacts| == 2 && Positions(reg.contacts) == {1, 2}
    && reg.exam < |d.exams| && (d.exams[reg.exam].endsAt.Some? ==> now < d.exams[reg.exam].endsAt.value)
    && !Full(d, reg.exam)
  }

  /** An accepted submission, which is the one way that looks at the capacity. */
  predicate Grants(d: Desk, e: Event, x: nat) {
    && e.SubmitDraft? && e.r < |d.registrations| && d.registrations[e.r].exam == x
    && Submittable(d, d.registrations[e.r], e.readiness, e.now)
  }

  /** An administrator puts a cancelled registration back. */
  predicate Restores(d: Desk, e: Event, x: nat) {
    && e.Administer? && e.r < |d.registrations| && d.registrations[e.r].exam == x
    && d.registrations[e.r].status == Cancelled && e.requested == Some(Some(Submitted))
  }

  /** A genuine callback, failed or with no provider id used before, ends a transaction of a registration that holds no seat. */
  predicate Reseats(d: Desk, e: Event, x: nat) {
    && e.GatewayCallback? && e.k < |d.transactions|
    && d.transactions[e.k].status != Successful && d.transactions[e.k].consumedAt.None?
    && d.transactions[e.k].registration < |d.registrations|
    && d.registrations[d.transactions[e.k].registration].exam == x
    && d.registrations[d.transactions[e.k].registration].status !in SEATED
    && e.caller == Genuine && (e.outcome.Some? && e.outcome.value.Some? ==> forall t | t in d.transactions :: t.providerId != e.outcome.value)
  }

  /** A seated registration is cancelled, or takes a code that fits. */
  predicate Leaves(d: Desk, e: Event, x: nat) {
    match e
    case Administer(r, requested, _) =>
      r < |d.registrations| && d.registrations[r].exam == x && d.registrations[r].status in {Submitted, PaymentPending} && requested == Some(Some(Cancelled))
    case VerifyCode(r, code, now) =>
      r < |d.registrations| && d.registrations[r].exam == x && d.registrations[r].status in SEATED && CodeFits(d, r, code, now)
    case _ => false
  }

  predicate Overrides(d: Desk, e: Event, x: nat) {
    Restores(d, e, x) || Reseats(d, e, x)
  }

  function One(b: bool): nat {
    if b then 1 else 0
  }

  // ---------- one step ----------

  lemma RowChanges(d: Desk, r: nat, reg: Registration, x: nat)
    requires r < |d.registrations|
    ensures Count(Seated(x), d.registrations[r := reg])
            == Seats(d, x) + One(Seated(x)(reg)) - One(Seated(x)(d.registrations[r]))
  {
    CountUpdate(Seated(x), d.registrations, r, reg);
  }

  lemma CreateSeats(d: Desk, e: Event, x: nat)
    requires e.Create?
    ensures Seats(Step(d, e), x) == Seats(d, x)
  {
    if Step(d, e) != d {
      CountSnoc(Seated(x), d.registrations, Step(d, e).registrations[|d.registrations|]);
    }
  }

  lemma EditSeats(d: Desk, e: Event, x: nat)
    requires e.Edit? || e.SetContacts?
    ensures Seats(Step(d, e), x) == Seats(d, x)
  {
    if Step(d, e) != d { RowChanges(d, e.r, Step(d, e).registrations[e.r], x); }
  }

  lemma CodeSeats(d: Desk, e: Event, x: nat)
    requires e.SendCode? || e.VerifyCode?
    ensures Seats(Step(d, e), x) == Seats(d, x) - One(Leaves(d, e, x))
  {
    if e.VerifyCode? && e.r < |d.registrations| {
      var (after, reply) := Verify(d, e.r, e.code, e.now);
      if reply == Done { RowChanges(d, e.r, after.registrations[e.r], x); }
    }
  }

  lemma SubmitSeats(d: Desk, e: Event, x: nat)
    requires e.SubmitDraft?
    ensures Seats(Step(d, e), x) == Seats(d, x) + One(Grants(d, e, x))
    ensures Grants(d, e, x) ==> x < |d.exams| && !Full(d, x)
  {
    if Step(d, e) != d { RowChanges(d, e.r, Step(d, e).registrations[e.r], x); }
  }

  lemma PaymentSeats(d: Desk, e: Event, x: nat)
    requires e.Pay? || e.GatewayCallback?
    ensures Seats(Step(d, e), x) == Seats(d, x) + One(Reseats(d, e, x))
  {
    var after := Step(d, e);
    if after != d {
      var r := if e.Pay? then e.r else d.transactions[e.k].registration;
      RowChanges(d, r, after.registrations[r], x);
    }
  }

  lemma AdminSeats(d: Desk, e: Event, x: nat)
    requires e.Administer?
    ensures Seats(Step(d, e), x) == Seats(d, x) + One(Restores(d, e, x)) - One(Leaves(d, e, x))
  {
    var after := Step(d, e);
    if after != d { RowChanges(d, e.r, after.registrations[e.r], x); }
  }

  /** Seats are taken and left in five ways only, and only one of them looks at the capacity. */
  lemma StepSeats(d: Desk, e: Event, x: nat)
    ensures Seats(Step(d, e), x) == Seats(d, x) + One(Grants(d, e, x)) + One(Overrides(d, e, x)) - One(Leaves(d, e, x))
    ensures Grants(d, e, x) ==> x < |d.exams| && !Full(d, x)
    ensures Step(d, e).exams == d.exams
  {
    match e
    case Create(_, _, _, _) => CreateSeats(d, e, x);
    case Edit(_, _, _, _, _) => EditSeats(d, e, x);
    case SetContacts(_, _) => EditSeats(d, e, x);
    case SendCode(_, _, _, _, _) => CodeSeats(d, e, x);
    case VerifyCode(_, _, _) => CodeSeats(d, e, x);
    case SubmitDraft(_, _, _) => SubmitSeats(d, e, x);
    case Pay(_, _) => PaymentSeats(d, e, x);
    case GatewayCallback(_, _, _, _) => PaymentSeats(d, e, x);
    case Administer(_, _, _) => AdminSeats(d, e, x);
  }

  /** An exam within its capacity is overbooked exactly by an override while it is full. */
  lemma OverbookedExactly(d: Desk, e: Event, x: nat)
    requires x < |d.exams| && d.exams[x].capacity.Some? && Seats(d, x) <= d.exams[x].capacity.value
    ensures Seats(Step(d, e), x) > d.exams[x].capacity.value <==> Full(d, x) && Overrides(d, e, x)
  {
    StepSeats(d, e, x);
  }

  // ---------- runs ----------

  /** How many events of a run satisfy `p` when they happen. */
  function Happened(p: (Desk, Event) -> bool, d: Desk, es: seq<Event>): nat {
    if es == [] then 0
    else Happened(p, d, es[..|es| - 1]) + One(p(Run(d, es[..|es| - 1]), es[|es| - 1]))
  }

  function Granting(x: nat): (Desk, Event) -> bool {
    (d: Desk, e: Event) => Grants(d, e, x)
  }

  function Overriding(x: nat): (Desk, Event) -> bool {
    (d: Desk, e: Event) => Overrides(d, e, x)
  }

  function Leaving(x: nat): (Desk, Event) -> bool {
    (d: Desk, e: Event) => Leaves(d, e, x)
  }

  /** Seats held now and seats left again add up to the seats granted and those given by an override. */
  lemma {:induction false} SeatLedger(exams: seq<Exam>, es: seq<Event>, x: nat)
    ensures Seats(Run(NewDesk(exams), es), x) + Happened(Leaving(x), NewDesk(exams), es)
            == Happened(Granting(x), NewDesk(exams), es) + Happened(Overriding(x), NewDesk(exams), es)
  {
    if es != [] {
      SeatLedger(exams, es[..|es| - 1], x);
      StepSeats(Run(NewDesk(exams), es[..|es| - 1]), es[|es| - 1], x);
    }
  }

  lemma {:induction false} RunKeepsExams(d: Desk, es: seq<Event>)
    ensures Run(d, es).exams == d.exams
  {
    if es != [] {
      RunKeepsExams(d, es[..|es| - 1]);
      StepSeats(Run(d, es[..|es| - 1]), es[|es| - 1], 0);
    }
  }

  /** Seats exceed the capacity by at most the number of overrides; without any they never do. */
  lemma {:induction false} CapacityHolds(exams: seq<Exam>, es: seq<Event>, x: nat)
    requires x < |exams| && exams[x].capacity.Some?
    ensures Seats(Run(NewDesk(exams), es), x) <= exams[x].capacity.value + Happened(Overriding(x), NewDesk(exams), es)
  {
    if es != [] {
      CapacityHolds(exams, es[..|es| - 1], x);
      RunKeepsExams(NewDesk(exams), es[..|es| - 1]);
      StepSeats(Run(NewDesk(exams), es[..|es| - 1]), es[|es| - 1], x);
    }
  }
}
