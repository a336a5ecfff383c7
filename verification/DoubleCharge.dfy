/** A concrete run, from an empty desk, that charges one registration twice. */
module DoubleCharge {
  import opened Common
  import opened Counting
  import opened Registrations
  import opened PaymentSafety

  const OPEN_EXAM := Exam(None, true, None, None)

  /** No challenge is live, and all are older than `limit`. */
  ghost predicate Settled(cs: seq<Challenge>, limit: int) {
    forall i | 0 <= i < |cs| :: cs[i].createdAt < limit && !Live(cs[i])
  }

  function NewCode(d: Desk, code: nat, now: int): Challenge
    requires d.registrations != []
  {
    Challenge(0, d.registrations[0].phone, 1, code, 0, now, now + OTP_TTL_SECONDS, None, None)
  }

  lemma SendsCode(d: Desk, code: nat, now: int)
    requires d.registrations != [] && Settled(d.challenges, now - HOUR)
    ensures Step(d, SendCode(0, 1, code, true, now))
            == d.(challenges := InvalidateUnconsumed(d.challenges, 0, now) + [NewCode(d, code, now)])
  {
    var p := d.registrations[0].phone;
    CountSinceNone(ToPhone(p), SentAt(), d.challenges, now - HOUR);
    CountSinceNone(FromIp(1), SentAt(), d.challenges, now - HOUR);
    CountSinceNone(AnyChallenge(), SentAt(), d.challenges, now - MINUTE);
    CountNone(ActiveFor(0, now), d.challenges);
  }

  lemma FindsCode(d: Desk, code: nat, now: int)
    requires d.registrations != [] && d.challenges != [] && d.challenges[|d.challenges| - 1] == NewCode(d, code, now)
    requires forall i | 0 <= i < |d.challenges| - 1 :: !Live(d.challenges[i])
    ensures Newest(LiveFor(0, d.registrations[0].phone), d.challenges) == Some(|d.challenges| - 1)
  {
    var p := LiveFor(0, d.registrations[0].phone);
    assert p(d.challenges[|d.challenges| - 1]);
    assert Newest(p, d.challenges).Some?;
  }

  lemma EntersCode(d: Desk, code: nat, now: int)
    requires d.registrations != [] && d.challenges != [] && d.challenges[|d.challenges| - 1] == NewCode(d, code, now)
    requires forall i | 0 <= i < |d.challenges| - 1 :: !Live(d.challenges[i])
    ensures var k := |d.challenges| - 1;
            Step(d, VerifyCode(0, code, now))
            == d.(challenges := d.challenges[k := d.challenges[k].(attempts := 1, consumedAt := Some(now))],
                  registrations := d.registrations[0 := d.registrations[0].(verifiedAt := Some(now), status := PhoneVerified)])
  {
    FindsCode(d, code, now);
  }

  function Codes(code: nat, now: int): seq<Event> {
    [SendCode(0, 1, code, true, now), VerifyCode(0, code, now)]
  }

  lemma VerifiesPhone(d: Desk, code: nat, now: int)
    requires d.registrations != [] && Settled(d.challenges, now - HOUR)
    ensures var after := Run(d, Codes(code, now));
            && after.exams == d.exams && after.transactions == d.transactions
            && after.registrations == d.registrations[0 := d.registrations[0].(verifiedAt := Some(now), status := PhoneVerified)]
            && Settled(after.challenges, now + 1)
  {
    SendsCode(d, code, now);
    var sent := Step(d, Codes(code, now)[0]);
    EntersCode(sent, code, now);
    assert Codes(code, now)[..1] == [Codes(code, now)[0]] && [Codes(code, now)[0]][..0] == [];
    assert Run(d, Codes(code, now)[..1]) == sent;
  }

  /** A registration with a price that an unlimited, open exam takes. */
  predicate Priceable(d: Desk) {
    && d.exams == [OPEN_EXAM] && |d.registrations| == 1 && d.registrations[0].exam == 0
    && d.registrations[0].amount.Some? && d.registrations[0].amount.value > 0 && d.registrations[0].currency.Some?
  }

  // One round: a code, then the paying path.
  lemma Round(d: Desk, code: nat, key: nat, id: nat, now: int) returns (es: seq<Event>)
    requires Priceable(d) && Settled(d.challenges, now - HOUR)
    requires forall i | 0 <= i < |d.transactions| :: !IsActive(d.transactions[i], 0) && d.transactions[i].key != key && d.transactions[i].providerId != Some(id)
    ensures var after := Run(d, es);
            && Priceable(after) && Settled(after.challenges, now + 1)
            && |after.transactions| == |d.transactions| + 1 && after.transactions[..|d.transactions|] == d.transactions
            && Paid(0)(after.transactions[|d.transactions|])
            && after.transactions[|d.transactions|].key == key && after.transactions[|d.transactions|].providerId == Some(id)
            && Count(Paid(0), after.transactions) == Count(Paid(0), d.transactions) + 1
  {
    VerifiesPhone(d, code, now);
    var verified := Run(d, Codes(code, now));
    Pays(verified, 0, key, id, now);
    RunConcat(d, Codes(code, now), PayingPath(verified, 0, key, id, now));
    es := Codes(code, now) + PayingPath(verified, 0, key, id, now);
  }

  lemma Opens()
    ensures var d := Run(NewDesk([OPEN_EXAM]), [Create(0, Priced(5, "IRR"), 7, 0)]);
            Priceable(d) && d.challenges == [] && d.transactions == []
  {
    var create := [Create(0, Priced(5, "IRR"), 7, 0)];
    assert create[..0] == [];
    assert Run(NewDesk([OPEN_EXAM]), create) == Step(NewDesk([OPEN_EXAM]), create[0]);
  }

  /** At the end of this run one registration has two successful charges. */
  lemma ChargedTwice() returns (es: seq<Event>)
    ensures Count(Paid(0), Run(NewDesk([OPEN_EXAM]), es).transactions) == 2
  {
    var start := NewDesk([OPEN_EXAM]);
    var create := [Create(0, Priced(5, "IRR"), 7, 0)];
    Opens();
    var d := Run(start, create);
    var first := Round(d, 42, 1, 1, 0);
    var once := Run(d, first);
    var second := Round(once, 43, 2, 2, 4000);
    RunConcat(start, create, first);
    RunConcat(start, create + first, second);
    es := create + first + second;
  }
}
