/** Theorems about payments, over every run of registrations, codes and payments. */
module PaymentSafety {
  import opened Common
  import opened Counting
  import opened Registrations

  function Open(r: nat): Transaction -> bool {
    (t: Transaction) => t.registration == r && t.status == Pending
  }

  function Paid(r: nat): Transaction -> bool {
    (t: Transaction) => t.registration == r && t.status == Successful
  }

  // ---------- what every run keeps ----------

  /** A transaction charges its registration's price, and is consumed exactly when it is over. */
  predicate TransactionOk(registrations: seq<Registration>, t: Transaction) {
    && t.registration < |registrations|
    && registrations[t.registration].amount == Some(t.amount) && t.amount > 0
    && registrations[t.registration].currency == Some(t.currency)
    && (t.status == Pending || t.status == Successful || t.status == Failed)
    && (t.consumedAt.Some? <==> t.status != Pending)
  }

  ghost predicate Entered(d: Desk) {
    forall i | 0 <= i < |d.transactions| :: TransactionOk(d.registrations, d.transactions[i])
  }

  ghost predicate DistinctKeys(ts: seq<Transaction>) {
    forall i, j | 0 <= i < j < |ts| :: ts[i].key != ts[j].key
  }

  predicate Account(status: Status, ts: seq<Transaction>, r: nat) {
    && Count(Open(r), ts) <= 1
    && (status == PaymentPending ==> Count(Open(r), ts) == 1)
    && (status == Completed ==> Count(Open(r), ts) == 0 && Count(Paid(r), ts) >= 1)
  }

  ghost predicate Accounts(d: Desk) {
    forall r | 0 <= r < |d.registrations| :: Account(d.registrations[r].status, d.transactions, r)
  }

  ghost predicate Sound(d: Desk) {
    Entered(d) && DistinctKeys(d.transactions) && Accounts(d)
  }

  /** The right code, in time, for a completed registration: it takes the completion back. */
  predicate Reopens(d: Desk, e: Event) {
    e.VerifyCode? && e.r < |d.registrations| && d.registrations[e.r].status == Completed && CodeFits(d, e.r, e.code, e.now)
  }

  /** The price and the exam of a registration are those of its creation. */
  predicate SameTerms(a: Registration, b: Registration) {
    a.amount == b.amount && a.currency == b.currency && a.exam == b.exam
  }

  lemma TermsAreFixed(d: Desk, e: Event, r: nat)
    requires r < |d.registrations|
    ensures r < |Step(d, e).registrations| && SameTerms(d.registrations[r], Step(d, e).registrations[r])
    ensures Step(d, e).exams == d.exams
  {
  }

  lemma OtherStepsFrame(d: Desk, e: Event)
    ensures |d.registrations| <= |Step(d, e).registrations|
    ensures !e.Pay? && !e.GatewayCallback? ==> Step(d, e).transactions == d.transactions
  {
  }

  /** Only payments lead into the two paying statuses, and only an accepted code leads out of completion. */
  lemma OtherSteps(d: Desk, e: Event, r: nat)
    requires !e.Pay? && !e.GatewayCallback?
    requires r < |Step(d, e).registrations|
    ensures var after := Step(d, e);
            && (r >= |d.registrations| ==> after.registrations[r].status == PhoneVerificationRequired)
            && (r < |d.registrations| && after.registrations[r].status in {PaymentPending, Completed} ==>
                  after.registrations[r].status == d.registrations[r].status)
            && (r < |d.registrations| && d.registrations[r].status == Completed ==>
                  (after.registrations[r].status == Completed <==> !(Reopens(d, e) && e.r == r)))
  {
  }

  lemma TransactionsStayOk(d: Desk, e: Event, t: Transaction)
    requires TransactionOk(d.registrations, t)
    ensures TransactionOk(Step(d, e).registrations, t)
  {
    TermsAreFixed(d, e, t.registration);
  }

  lemma NothingOwed(d: Desk, r: nat)
    requires Entered(d) && r >= |d.registrations|
    ensures Count(Open(r), d.transactions) == 0 && Count(Paid(r), d.transactions) == 0
  {
    CountNone(Open(r), d.transactions);
    CountNone(Paid(r), d.transactions);
  }

  lemma OtherStepsKeepSound(d: Desk, e: Event)
    requires Sound(d) && !e.Pay? && !e.GatewayCallback?
    ensures Sound(Step(d, e))
  {
    var after := Step(d, e);
    OtherStepsFrame(d, e);
    forall i | 0 <= i < |d.transactions| ensures TransactionOk(after.registrations, d.transactions[i]) {
      TransactionsStayOk(d, e, d.transactions[i]);
    }
    forall r | 0 <= r < |after.registrations| ensures Account(after.registrations[r].status, d.transactions, r) {
      OtherSteps(d, e, r);
      if r >= |d.registrations| { NothingOwed(d, r); } else { assert Account(d.registrations[r].status, d.transactions, r); }
    }
  }

  // A payment request and a callback, seen as changes of the two tables.
  lemma OpenedKeepsSound(d: Desk, r: nat, t: Transaction, reg: Registration)
    requires Sound(d) && r < |d.registrations| && SameTerms(d.registrations[r], reg) && reg.status == PaymentPending
    requires t.registration == r && t.status == Pending && t.consumedAt.None?
    requires TransactionOk(d.registrations, t)
    requires forall i | 0 <= i < |d.transactions| :: d.transactions[i].key != t.key && !Open(r)(d.transactions[i])
    ensures Sound(d.(transactions := d.transactions + [t], registrations := d.registrations[r := reg]))
  {
    var after := d.(transactions := d.transactions + [t], registrations := d.registrations[r := reg]);
    forall i | 0 <= i < |after.transactions| ensures TransactionOk(after.registrations, after.transactions[i]) {
      if i < |d.transactions| { assert TransactionOk(d.registrations, d.transactions[i]); }
    }
    forall k | 0 <= k < |after.registrations| ensures Account(after.registrations[k].status, after.transactions, k) {
      assert Account(d.registrations[k].status, d.transactions, k);
      CountSnoc(Open(k), d.transactions, t);
      CountSnoc(Paid(k), d.transactions, t);
      if k == r { CountNone(Open(r), d.transactions); }
    }
  }

  lemma PayKeepsSound(d: Desk, r: nat, key: nat)
    requires Sound(d)
    ensures Sound(Initiate(d, r, key).0)
  {
    var after := Initiate(d, r, key).0;
    if after != d {
      var t := after.transactions[|d.transactions|];
      forall i | 0 <= i < |d.transactions| ensures d.transactions[i].key != t.key && !Open(r)(d.transactions[i]) {
        assert d.transactions[i] in d.transactions && !IsActive(d.transactions[i], r);
      }
      OpenedKeepsSound(d, r, t, after.registrations[r]);
    }
  }

  // The open transaction `k` of a registration is over, and its registration's status follows it.
  lemma ClosedKeepsSound(d: Desk, k: nat, t: Transaction, reg: Registration)
    requires Sound(d) && k < |d.transactions| && d.transactions[k].status == Pending
    requires t.registration == d.transactions[k].registration && t.key == d.transactions[k].key
    requires t.status != Pending && TransactionOk(d.registrations, t)
    requires SameTerms(d.registrations[t.registration], reg)
    requires reg.status == if t.status == Successful then Completed else Submitted
    ensures Sound(d.(transactions := d.transactions[k := t], registrations := d.registrations[t.registration := reg]))
  {
    var after := d.(transactions := d.transactions[k := t], registrations := d.registrations[t.registration := reg]);
    forall i | 0 <= i < |after.transactions| ensures TransactionOk(after.registrations, after.transactions[i]) {
      assert TransactionOk(d.registrations, d.transactions[i]);
    }
    forall i, j | 0 <= i < j < |after.transactions| ensures after.transactions[i].key != after.transactions[j].key {
      assert d.transactions[i].key != d.transactions[j].key;
    }
    forall r | 0 <= r < |after.registrations| ensures Account(after.registrations[r].status, after.transactions, r) {
      assert Account(d.registrations[r].status, d.transactions, r);
      CountUpdate(Open(r), d.transactions, k, t);
      CountUpdate(Paid(r), d.transactions, k, t);
    }
  }

  lemma CallbackKeepsSound(d: Desk, k: nat, caller: Caller, outcome: Option<Option<nat>>, now: int)
    requires Sound(d)
    ensures Sound(Callback(d, k, caller, outcome, now).0)
  {
    var after := Callback(d, k, caller, outcome, now).0;
    if after != d {
      assert TransactionOk(d.registrations, d.transactions[k]);
      var t := after.transactions[k];
      ClosedKeepsSound(d, k, t, after.registrations[t.registration]);
    }
  }

  lemma StepKeepsSound(d: Desk, e: Event)
    requires Sound(d)
    ensures Sound(Step(d, e))
  {
    match e
    case Pay(r, key) => PayKeepsSound(d, r, key);
    case GatewayCallback(k, caller, outcome, now) => CallbackKeepsSound(d, k, caller, outcome, now);
    case _ => OtherStepsKeepSound(d, e);
  }

  /** Whatever happens, in whatever order: see `Sound`. */
  lemma {:induction false} RunKeepsSound(d: Desk, es: seq<Event>)
    requires Sound(d)
    ensures Sound(Run(d, es))
  {
    if es != [] {
      RunKeepsSound(d, es[..|es| - 1]);
      StepKeepsSound(Run(d, es[..|es| - 1]), es[|es| - 1]);
    }
  }

  // ---------- charged once, and then completed ----------

  predicate SettledRow(status: Status, ts: seq<Transaction>, r: nat) {
    Count(Open(r), ts) + Count(Paid(r), ts) <= 1 && (Count(Paid(r), ts) == 1 ==> status == Completed)
  }

  /** No registration is charged twice or while a payment is open, and a charged one is COMPLETED. */
  ghost predicate SettledOnce(d: Desk) {
    forall r | 0 <= r < |d.registrations| :: SettledRow(d.registrations[r].status, d.transactions, r)
  }

  lemma OtherStepsSettle(d: Desk, e: Event)
    requires Sound(d) && SettledOnce(d) && !e.Pay? && !e.GatewayCallback?
    ensures SettledOnce(Step(d, e)) <==> !Reopens(d, e)
  {
    var after := Step(d, e);
    OtherStepsFrame(d, e);
    if Reopens(d, e) {
      OtherSteps(d, e, e.r);
      assert Account(d.registrations[e.r].status, d.transactions, e.r);
      assert !SettledRow(after.registrations[e.r].status, d.transactions, e.r);
    } else {
      forall r | 0 <= r < |after.registrations| ensures SettledRow(after.registrations[r].status, d.transactions, r) {
        OtherSteps(d, e, r);
        if r >= |d.registrations| { NothingOwed(d, r); } else { assert SettledRow(d.registrations[r].status, d.transactions, r); }
      }
    }
  }

  lemma OpenedSettlesOnce(d: Desk, r: nat, t: Transaction, reg: Registration)
    requires Sound(d) && SettledOnce(d) && r < |d.registrations| && d.registrations[r].status != Completed
    requires t.registration == r && t.status == Pending
    requires forall i | 0 <= i < |d.transactions| :: !Open(r)(d.transactions[i])
    ensures SettledOnce(d.(transactions := d.transactions + [t], registrations := d.registrations[r := reg]))
  {
    var after := d.(transactions := d.transactions + [t], registrations := d.registrations[r := reg]);
    forall k | 0 <= k < |after.registrations| ensures SettledRow(after.registrations[k].status, after.transactions, k) {
      assert SettledRow(d.registrations[k].status, d.transactions, k);
      CountSnoc(Open(k), d.transactions, t);
      CountSnoc(Paid(k), d.transactions, t);
      if k == r { CountNone(Open(r), d.transactions); }
    }
  }

  lemma PaySettlesOnce(d: Desk, r: nat, key: nat)
    requires Sound(d) && SettledOnce(d)
    ensures SettledOnce(Initiate(d, r, key).0)
  {
    var after := Initiate(d, r, key).0;
    if after != d {
      forall i | 0 <= i < |d.transactions| ensures !Open(r)(d.transactions[i]) {
        assert d.transactions[i] in d.transactions && !IsActive(d.transactions[i], r);
      }
      OpenedSettlesOnce(d, r, after.transactions[|d.transactions|], after.registrations[r]);
    }
  }

  lemma CallbackSettlesOnce(d: Desk, k: nat, caller: Caller, outcome: Option<Option<nat>>, now: int)
    requires Sound(d) && SettledOnce(d)
    ensures SettledOnce(Callback(d, k, caller, outcome, now).0)
  {
    var after := Callback(d, k, caller, outcome, now).0;
    if after != d {
      assert TransactionOk(d.registrations, d.transactions[k]);
      forall r | 0 <= r < |after.registrations| ensures SettledRow(after.registrations[r].status, after.transactions, r) {
        assert SettledRow(d.registrations[r].status, d.transactions, r);
        CountUpdate(Open(r), d.transactions, k, after.transactions[k]);
        CountUpdate(Paid(r), d.transactions, k, after.transactions[k]);
      }
    }
  }

  /** One accepted code for a completed registration is all that parts a charge from its completion. */
  lemma StepSettlesOnce(d: Desk, e: Event)
    requires Sound(d) && SettledOnce(d)
    ensures SettledOnce(Step(d, e)) <==> !Reopens(d, e)
  {
    match e
    case Pay(r, key) => PaySettlesOnce(d, r, key);
    case GatewayCallback(k, caller, outcome, now) => CallbackSettlesOnce(d, k, caller, outcome, now);
    case _ => OtherStepsSettle(d, e);
  }

  predicate NeverReopened(d: Desk, es: seq<Event>) {
    es == [] || (NeverReopened(d, es[..|es| - 1]) && !Reopens(Run(d, es[..|es| - 1]), es[|es| - 1]))
  }

  /** After every event of the run. */
  ghost predicate AlwaysSettledOnce(d: Desk, es: seq<Event>) {
    SettledOnce(Run(d, es)) && (es == [] || AlwaysSettledOnce(d, es[..|es| - 1]))
  }

  lemma NewDeskIsSound(exams: seq<Exam>)
    ensures Sound(NewDesk(exams)) && SettledOnce(NewDesk(exams))
  {
  }

  /** Throughout a run registrations are charged once, and then COMPLETED, if and only if no completed one is reopened by a code. */
  lemma {:induction false} SettledOnceExactly(exams: seq<Exam>, es: seq<Event>)
    ensures AlwaysSettledOnce(NewDesk(exams), es) <==> NeverReopened(NewDesk(exams), es)
  {
    var d := NewDesk(exams);
    NewDeskIsSound(exams);
    if es != [] {
      var earlier := es[..|es| - 1];
      SettledOnceExactly(exams, earlier);
      RunKeepsSound(d, earlier);
      if AlwaysSettledOnce(d, earlier) { StepSettlesOnce(Run(d, earlier), es[|es| - 1]); }
    }
  }

  // ---------- one charge ----------

  /** No registration has two successful transactions. */
  ghost predicate ChargedOnce(d: Desk) {
    forall r | 0 <= r < |d.registrations| :: Count(Paid(r), d.transactions) <= 1
  }

  /** The gateway freshly confirms an open transaction. */
  predicate Confirms(d: Desk, e: Event) {
    && e.GatewayCallback? && e.k < |d.transactions| && d.transactions[e.k].status == Pending
    && e.caller == Genuine && e.outcome.Some?
    && (e.outcome.value.Some? ==> forall t | t in d.transactions :: t.providerId != e.outcome.value)
  }

  /** It does so for a registration that has a successful transaction already. */
  predicate ConfirmsAgain(d: Desk, e: Event) {
    Confirms(d, e) && exists t | t in d.transactions :: t.registration == d.transactions[e.k].registration && t.status == Successful
  }

  lemma SomePaid(ts: seq<Transaction>, r: nat)
    ensures Count(Paid(r), ts) >= 1 <==> exists t | t in ts :: t.registration == r && t.status == Successful
  {
    if forall i | 0 <= i < |ts| :: !Paid(r)(ts[i]) { CountNone(Paid(r), ts); }
    if i :| 0 <= i < |ts| && Paid(r)(ts[i]) {
      assert ts[i] in ts;
      CountUpdate(Paid(r), ts, i, ts[i].(status := Failed));
    }
  }

  lemma PayDoesNotCharge(d: Desk, k: nat, key: nat, r: nat)
    ensures var after := Initiate(d, k, key).0;
            |after.registrations| == |d.registrations| && Count(Paid(r), after.transactions) == Count(Paid(r), d.transactions)
  {
    var after := Initiate(d, k, key).0;
    if after.transactions != d.transactions { CountSnoc(Paid(r), d.transactions, after.transactions[|d.transactions|]); }
  }

  lemma CallbackDoesNotCharge(d: Desk, e: Event, r: nat)
    requires Entered(d) && e.GatewayCallback? && !Confirms(d, e)
    ensures var after := Step(d, e);
            |after.registrations| == |d.registrations| && Count(Paid(r), after.transactions) == Count(Paid(r), d.transactions)
  {
    var after := Step(d, e);
    if after.transactions != d.transactions {
      assert TransactionOk(d.registrations, d.transactions[e.k]);
      CountUpdate(Paid(r), d.transactions, e.k, after.transactions[e.k]);
    }
  }

  lemma OthersDoNotCharge(d: Desk, e: Event, r: nat)
    requires Sound(d) && !Confirms(d, e) && r < |Step(d, e).registrations|
    ensures Count(Paid(r), Step(d, e).transactions) == if r < |d.registrations| then Count(Paid(r), d.transactions) else 0
  {
    if r >= |d.registrations| { NothingOwed(d, r); }
    match e
    case Pay(k, key) => PayDoesNotCharge(d, k, key, r);
    case GatewayCallback(_, _, _, _) => CallbackDoesNotCharge(d, e, r);
    case _ => OtherStepsFrame(d, e);
  }

  lemma ConfirmationCharges(d: Desk, e: Event, r: nat)
    requires Sound(d) && Confirms(d, e)
    ensures Count(Paid(r), Step(d, e).transactions)
            == Count(Paid(r), d.transactions) + (if r == d.transactions[e.k].registration then 1 else 0)
    ensures |Step(d, e).registrations| == |d.registrations| && d.transactions[e.k].registration < |d.registrations|
  {
    assert TransactionOk(d.registrations, d.transactions[e.k]);
    CountUpdate(Paid(r), d.transactions, e.k, Step(d, e).transactions[e.k]);
  }

  /** A step charges a second time if and only if it confirms an open transaction of a charged registration. */
  lemma StepChargesOnce(d: Desk, e: Event)
    requires Sound(d) && ChargedOnce(d)
    ensures ChargedOnce(Step(d, e)) <==> !ConfirmsAgain(d, e)
  {
    var after := Step(d, e);
    if Confirms(d, e) {
      var charged := d.transactions[e.k].registration;
      SomePaid(d.transactions, charged);
      ConfirmationCharges(d, e, charged);
      forall r | 0 <= r < |after.registrations| && r != charged ensures Count(Paid(r), after.transactions) <= 1 {
        ConfirmationCharges(d, e, r);
      }
    } else {
      forall r | 0 <= r < |after.registrations| ensures Count(Paid(r), after.transactions) <= 1 {
        OthersDoNotCharge(d, e, r);
      }
    }
  }

  predicate NeverConfirmedAgain(d: Desk, es: seq<Event>) {
    es == [] || (NeverConfirmedAgain(d, es[..|es| - 1]) && !ConfirmsAgain(Run(d, es[..|es| - 1]), es[|es| - 1]))
  }

  ghost predicate AlwaysChargedOnce(d: Desk, es: seq<Event>) {
    ChargedOnce(Run(d, es)) && (es == [] || AlwaysChargedOnce(d, es[..|es| - 1]))
  }

  /** A run charges every registration at most once if and only if it never confirms an open transaction of a charged one. */
  lemma {:induction false} ChargedOnceExactly(exams: seq<Exam>, es: seq<Event>)
    ensures AlwaysChargedOnce(NewDesk(exams), es) <==> NeverConfirmedAgain(NewDesk(exams), es)
  {
    var d := NewDesk(exams);
    NewDeskIsSound(exams);
    if es != [] {
      var earlier := es[..|es| - 1];
      ChargedOnceExactly(exams, earlier);
      RunKeepsSound(d, earlier);
      if AlwaysChargedOnce(d, earlier) { StepChargesOnce(Run(d, earlier), es[|es| - 1]); }
    }
  }

  /** A second charge takes a reopening: where no code reopens a completed registration, none is charged twice. */
  lemma NoDoubleCharge(exams: seq<Exam>, es: seq<Event>)
    requires NeverReopened(NewDesk(exams), es)
    ensures ChargedOnce(Run(NewDesk(exams), es))
  {
    SettledOnceExactly(exams, es);
    var d := Run(NewDesk(exams), es);
    forall r | 0 <= r < |d.registrations| ensures Count(Paid(r), d.transactions) <= 1 {
      assert SettledRow(d.registrations[r].status, d.transactions, r);
    }
  }

  // ---------- completion ----------

  lemma PaySparesCompleted(d: Desk, k: nat, key: nat, r: nat)
    requires r < |d.registrations| && d.registrations[r].status == Completed
    ensures var after := Initiate(d, k, key).0;
            r < |after.registrations| && after.registrations[r] == d.registrations[r]
  {
  }

  lemma CallbackSparesCompleted(d: Desk, k: nat, caller: Caller, outcome: Option<Option<nat>>, now: int, r: nat)
    requires Entered(d) && r < |d.registrations| && Count(Open(r), d.transactions) == 0
    ensures var after := Callback(d, k, caller, outcome, now).0;
            r < |after.registrations| && after.registrations[r] == d.registrations[r]
  {
    var after := Callback(d, k, caller, outcome, now).0;
    if after != d {
      assert TransactionOk(d.registrations, d.transactions[k]);
      CountUpdate(Open(r), d.transactions, k, after.transactions[k]);
    }
  }

  /** A completed registration stays so in a step if and only if the step is not such a code for it. */
  lemma CompletionIsPermanent(d: Desk, e: Event, r: nat)
    requires Sound(d) && r < |d.registrations| && d.registrations[r].status == Completed
    ensures r < |Step(d, e).registrations|
    ensures Step(d, e).registrations[r].status == Completed <==> !(Reopens(d, e) && e.r == r)
  {
    assert Account(d.registrations[r].status, d.transactions, r);
    match e
    case Pay(k, key) => PaySparesCompleted(d, k, key, r);
    case GatewayCallback(k, caller, outcome, now) => CallbackSparesCompleted(d, k, caller, outcome, now, r);
    case _ =>
      OtherStepsFrame(d, e);
      OtherSteps(d, e, r);
  }

  /** After every event of the run. */
  predicate StaysCompleted(d: Desk, es: seq<Event>, r: nat) {
    && r < |Run(d, es).registrations| && Run(d, es).registrations[r].status == Completed
    && (es == [] || StaysCompleted(d, es[..|es| - 1], r))
  }

  predicate NeverReopenedFor(d: Desk, es: seq<Event>, r: nat) {
    es == [] || (NeverReopenedFor(d, es[..|es| - 1], r)
                 && !(Reopens(Run(d, es[..|es| - 1]), es[|es| - 1]) && es[|es| - 1].r == r))
  }

  /** Completion is permanent over a run if and only if no event of it reopens that registration. */
  lemma {:induction false} CompletionLastsExactly(d: Desk, es: seq<Event>, r: nat)
    requires Sound(d) && r < |d.registrations| && d.registrations[r].status == Completed
    ensures StaysCompleted(d, es, r) <==> NeverReopenedFor(d, es, r)
  {
    if es != [] {
      var earlier := es[..|es| - 1];
      CompletionLastsExactly(d, earlier, r);
      RunKeepsSound(d, earlier);
      if StaysCompleted(d, earlier, r) { CompletionIsPermanent(Run(d, earlier), es[|es| - 1], r); }
    }
  }

  /** A registration is completed by one thing only: the gateway's fresh confirmation of its open transaction. */
  lemma CompletesExactly(d: Desk, e: Event, r: nat)
    requires Sound(d) && r < |d.registrations| && d.registrations[r].status != Completed
    ensures r < |Step(d, e).registrations|
    ensures Step(d, e).registrations[r].status == Completed <==> Confirms(d, e) && d.transactions[e.k].registration == r
  {
    match e
    case Pay(_, _) =>
    case GatewayCallback(k, _, _, _) =>
      if k < |d.transactions| { assert TransactionOk(d.registrations, d.transactions[k]); }
    case _ =>
      OtherStepsFrame(d, e);
      OtherSteps(d, e, r);
  }

  // ---------- a key names one transaction ----------

  /** What a transaction is for never changes. */
  predicate SameCharge(a: Transaction, b: Transaction) {
    a.key == b.key && a.registration == b.registration && a.amount == b.amount && a.currency == b.currency
  }

  lemma ChargesAreFixed(d: Desk, e: Event, k: nat)
    requires k < |d.transactions|
    ensures k < |Step(d, e).transactions| && SameCharge(d.transactions[k], Step(d, e).transactions[k])
    ensures d.transactions[k].status in {Successful, Failed} && d.transactions[k].consumedAt.Some? ==>
              Step(d, e).transactions[k] == d.transactions[k]
  {
    if !e.Pay? && !e.GatewayCallback? { OtherStepsFrame(d, e); }
  }

  lemma {:induction false} ChargesStayFixed(d: Desk, es: seq<Event>, k: nat)
    requires k < |d.transactions|
    ensures k < |Run(d, es).transactions| && SameCharge(d.transactions[k], Run(d, es).transactions[k])
  {
    if es != [] {
      ChargesStayFixed(d, es[..|es| - 1], k);
      ChargesAreFixed(Run(d, es[..|es| - 1]), es[|es| - 1], k);
    }
  }

  /**
    Once a key has been accepted, repeating the request at any later point changes nothing
    and names the same transaction, at the same price; for another registration it is refused.
   */
  lemma KeyNamesOneTransaction(d: Desk, r: nat, key: nat, es: seq<Event>, other: nat)
    requires Sound(d) && Initiate(d, r, key).1 == Done
    requires var later := Run(Initiate(d, r, key).0, es); other < |later.registrations|
    ensures var (first, _, named) := Initiate(d, r, key);
            var later := Run(first, es);
            && named.Some? && named.value < |first.transactions| && named.value < |later.transactions|
            && SameCharge(first.transactions[named.value], later.transactions[named.value])
            && Initiate(later, other, key) == if other == r then (later, Done, named) else (later, KeyConflict, None)
  {
    var (first, _, named) := Initiate(d, r, key);
    PayKeepsSound(d, r, key);
    RunKeepsSound(first, es);
    var k := named.value;
    ChargesStayFixed(first, es, k);
    var later := Run(first, es);
    var found := FindKey(later.transactions, key);
    assert later.transactions[k].key == key;
    assert found == Some(k);
  }

  // ---------- a second charge ----------

  lemma {:induction false} RunConcat(d: Desk, es: seq<Event>, fs: seq<Event>)
    ensures Run(d, es + fs) == Run(Run(d, es), fs)
  {
    if fs == [] {
      assert es + fs == es;
    } else {
      assert (es + fs)[..|es + fs| - 1] == es + fs[..|fs| - 1];
      RunConcat(d, es, fs[..|fs| - 1]);
    }
  }

  const FILLED: map<Answer, Option<string>> := map a: Answer | a != HomePhone && a != ExtraAnswers :: Some("-")
  const BOTH_CONTACTS := [Contact(1, "-", "-", "-"), Contact(2, "-", "-", "-")]

  /** What an applicant does to register and pay, once the phone is verified. */
  function PayingPath(d: Desk, r: nat, key: nat, id: nat, now: int): seq<Event> {
    [Edit(r, None, FILLED, Admitted, now), SetContacts(r, BOTH_CONTACTS), SubmitDraft(r, Ready, now),
     Pay(r, key), GatewayCallback(|d.transactions|, Genuine, Some(Some(id)), now)]
  }

  /** The path is open to a verified, editable registration that costs something and has nothing pending. */
  ghost predicate MayPay(d: Desk, r: nat, key: nat, id: nat, now: int) {
    && r < |d.registrations|
    && var reg := d.registrations[r];
    && reg.status in MUTABLE && reg.verifiedAt.Some?
    && reg.amount.Some? && reg.amount.value > 0 && reg.currency.Some?
    && reg.exam < |d.exams| && (d.exams[reg.exam].endsAt.Some? ==> now < d.exams[reg.exam].endsAt.value)
    && !Full(d, reg.exam)
    && (forall i | 0 <= i < |d.transactions| :: !IsActive(d.transactions[i], r))
    && (forall i | 0 <= i < |d.transactions| :: d.transactions[i].key != key && d.transactions[i].providerId != Some(id))
  }

  // The registration `r` with everything filled in, and then submitted.
  function Filled(d: Desk, r: nat): Desk
    requires r < |d.registrations|
  {
    var reg := d.registrations[r];
    d.(registrations := d.registrations[r := reg.(answers := reg.answers + FILLED, contacts := BOTH_CONTACTS)])
  }

  function Prepared(d: Desk, r: nat, now: int): Desk
    requires r < |d.registrations|
  {
    var reg := Filled(d, r).registrations[r];
    d.(registrations := d.registrations[r := reg.(status := Submitted, submittedAt := Some(now))])
  }

  lemma Fills(d: Desk, r: nat, now: int)
    requires r < |d.registrations| && d.registrations[r].status in MUTABLE
    ensures Step(Step(d, Edit(r, None, FILLED, Admitted, now)), SetContacts(r, BOTH_CONTACTS)) == Filled(d, r)
  {
    var reg := d.registrations[r];
    var edited := reg.(answers := reg.answers + FILLED);
    BothContactsFit();
    var d1 := Step(d, Edit(r, None, FILLED, Admitted, now));
    assert d1 == d.(registrations := d.registrations[r := edited]);
    assert d1.registrations[r := edited.(contacts := BOTH_CONTACTS)] == d.registrations[r := edited.(contacts := BOTH_CONTACTS)];
  }

  lemma FilledIsComplete(d: Desk, r: nat)
    requires r < |d.registrations|
    ensures IsComplete(Filled(d, r).registrations[r])
  {
    forall a: Answer | a != HomePhone && a != ExtraAnswers ensures a in FILLED { }
  }

  lemma BothContactsFit()
    ensures Positions(BOTH_CONTACTS) == {1, 2} && ContactsFine(BOTH_CONTACTS)
  {
    assert BOTH_CONTACTS[0] in BOTH_CONTACTS && BOTH_CONTACTS[1] in BOTH_CONTACTS;
  }

  lemma Submits(d: Desk, r: nat, key: nat, id: nat, now: int)
    requires MayPay(d, r, key, id, now)
    ensures Submit(Filled(d, r), r, Ready, now) == (Prepared(d, r, now), Done)
  {
    var filled := Filled(d, r);
    var reg := filled.registrations[r];
    CountUpdate(Seated(reg.exam), d.registrations, r, reg);
    FilledIsComplete(d, r);
    BothContactsFit();
    assert filled.registrations[r := reg.(status := Submitted, submittedAt := Some(now))] == Prepared(d, r, now).registrations;
  }

  lemma Prepares(d: Desk, r: nat, key: nat, id: nat, now: int)
    requires MayPay(d, r, key, id, now)
    ensures Run(d, PayingPath(d, r, key, id, now)[..3]) == Prepared(d, r, now)
  {
    var path := PayingPath(d, r, key, id, now);
    Fills(d, r, now);
    Submits(d, r, key, id, now);
    RunThree(d, path[0], path[1], path[2]);
    assert path[..3] == [path[0], path[1], path[2]];
  }

  lemma RunThree(d: Desk, a: Event, b: Event, c: Event)
    ensures Run(d, [a, b, c]) == Step(Step(Step(d, a), b), c)
  {
    assert [a, b, c][..2] == [a, b] && [a, b][..1] == [a] && [a][..0] == [];
    assert Run(d, [a]) == Step(d, a);
    assert Run(d, [a, b]) == Step(Step(d, a), b);
  }

  lemma Pays(d: Desk, r: nat, key: nat, id: nat, now: int)
    requires MayPay(d, r, key, id, now)
    ensures var after := Run(d, PayingPath(d, r, key, id, now));
            && |after.registrations| == |d.registrations| && |after.transactions| == |d.transactions| + 1
            && SameTerms(d.registrations[r], after.registrations[r])
            && after.registrations[r].status == Completed && after.registrations[r].phone == d.registrations[r].phone
            && after.exams == d.exams && after.challenges == d.challenges
            && after.transactions[..|d.transactions|] == d.transactions
            && after.transactions[|d.transactions|].key == key && after.transactions[|d.transactions|].providerId == Some(id)
            && Paid(r)(after.transactions[|d.transactions|])
            && Count(Paid(r), after.transactions) == Count(Paid(r), d.transactions) + 1
  {
    var path := PayingPath(d, r, key, id, now);
    Prepares(d, r, key, id, now);
    var d3 := Prepared(d, r, now);
    var t := Charge(d.registrations[r], r, key);
    Starts(d3, r, key);
    Succeeds(Step(d3, path[3]), r, id, now);
    assert path[..5] == path && path[..5][..4] == path[..4] && path[..4][..3] == path[..3];
    assert Run(d, path[..4]) == Step(d3, path[3]);
    CountSnoc(Paid(r), d.transactions, t.(status := Successful, consumedAt := Some(now), providerId := Some(id)));
  }

  function Charge(reg: Registration, r: nat, key: nat): Transaction
    requires reg.amount.Some? && reg.currency.Some?
  {
    Transaction(r, reg.amount.value, reg.currency.value, Pending, key, None, None)
  }

  lemma Starts(d: Desk, r: nat, key: nat)
    requires r < |d.registrations| && d.registrations[r].status == Submitted
    requires d.registrations[r].amount.Some? && d.registrations[r].amount.value > 0 && d.registrations[r].currency.Some?
    requires forall i | 0 <= i < |d.transactions| :: !IsActive(d.transactions[i], r) && d.transactions[i].key != key
    ensures Step(d, Pay(r, key))
            == d.(transactions := d.transactions + [Charge(d.registrations[r], r, key)],
                  registrations := d.registrations[r := d.registrations[r].(status := PaymentPending)])
  {
  }

  lemma Succeeds(d: Desk, r: nat, id: nat, now: int)
    requires d.transactions != [] && r < |d.registrations|
    requires var t := d.transactions[|d.transactions| - 1]; t.status == Pending && t.consumedAt.None? && t.registration == r
    requires forall i | 0 <= i < |d.transactions| :: d.transactions[i].providerId != Some(id)
    ensures var k := |d.transactions| - 1;
            Step(d, GatewayCallback(k, Genuine, Some(Some(id)), now))
            == d.(transactions := d.transactions[..k] + [d.transactions[k].(status := Successful, consumedAt := Some(now), providerId := Some(id))],
                  registrations := d.registrations[r := d.registrations[r].(payment := PaymentSuccessful, status := Completed)])
  {
    var k := |d.transactions| - 1;
    assert !exists u | u in d.transactions :: u.providerId == Some(id);
    var paid := d.transactions[k].(status := Successful, consumedAt := Some(now), providerId := Some(id));
    assert d.transactions[k := paid] == d.transactions[..k] + [paid];
  }

  lemma ChargedHasPrice(d: Desk, r: nat)
    requires Entered(d) && r < |d.registrations| && Count(Paid(r), d.transactions) >= 1
    ensures var reg := d.registrations[r]; reg.amount.Some? && reg.amount.value > 0 && reg.currency.Some?
  {
    if forall i | 0 <= i < |d.transactions| :: !Paid(r)(d.transactions[i]) { CountNone(Paid(r), d.transactions); }
    var i :| 0 <= i < |d.transactions| && Paid(r)(d.transactions[i]);
    assert TransactionOk(d.registrations, d.transactions[i]);
  }

  lemma NothingActive(d: Desk, r: nat)
    requires Entered(d) && r < |d.registrations| && Count(Open(r), d.transactions) == 0
    ensures forall k | 0 <= k < |d.transactions| :: !IsActive(d.transactions[k], r)
  {
    forall k | 0 <= k < |d.transactions| ensures !IsActive(d.transactions[k], r) {
      assert TransactionOk(d.registrations, d.transactions[k]);
      CountUpdate(Open(r), d.transactions, k, d.transactions[k].(status := Failed));
    }
  }

  // A reopened registration is verified and editable, has left its seat, and is otherwise as it was.
  lemma ReopenedRow(d: Desk, e: Event)
    requires Reopens(d, e)
    ensures var after := Step(d, e);
            && after.transactions == d.transactions && after.exams == d.exams && |after.registrations| == |d.registrations|
            && after.registrations[e.r] == d.registrations[e.r].(verifiedAt := Some(e.now), status := PhoneVerified)
            && after.registrations == d.registrations[e.r := after.registrations[e.r]]
  {
  }

  lemma ReopenedSeats(d: Desk, e: Event, exam: nat)
    requires Reopens(d, e) && exam == d.registrations[e.r].exam && exam < |d.exams|
    requires d.exams[exam].capacity.Some? ==> Seats(d, exam) <= d.exams[exam].capacity.value
    ensures !Full(Step(d, e), exam)
  {
    ReopenedRow(d, e);
    CountUpdate(Seated(exam), d.registrations, e.r, Step(d, e).registrations[e.r]);
  }

  /**
    Where a completed registration is reopened by a code, the ordinary path leads to one more
    successful charge for it.
   */
  lemma SecondCharge(d: Desk, e: Event, key: nat, id: nat, now: int)
    requires Sound(d) && Reopens(d, e)
    requires var exam := d.registrations[e.r].exam;
             && exam < |d.exams| && (d.exams[exam].endsAt.Some? ==> now < d.exams[exam].endsAt.value)
             && (d.exams[exam].capacity.Some? ==> Seats(d, exam) <= d.exams[exam].capacity.value)
    requires forall i | 0 <= i < |d.transactions| :: d.transactions[i].key != key && d.transactions[i].providerId != Some(id)
    ensures Count(Paid(e.r), Run(Step(d, e), PayingPath(d, e.r, key, id, now)).transactions)
            == Count(Paid(e.r), d.transactions) + 1 >= 2
  {
    var r := e.r;
    assert Account(d.registrations[r].status, d.transactions, r);
    ChargedHasPrice(d, r);
    NothingActive(d, r);
    ReopenedSeats(d, e, d.registrations[r].exam);
    ReopenedRow(d, e);
    Pays(Step(d, e), r, key, id, now);
  }
}
