/**
  What each answer of a login or a rotation means: when it is given, told by the rows there
  are, and what it leaves behind; and that the reuse of a rotated token is always noticed.
 */
module SessionOutcomes {
  import opened Common
  import opened Counting
  import opened Sessions
  import opened SessionSafety

  // ---------- logins ----------

  /** Below the limit, and only there, a login is recorded with its outcome; beyond it nothing is. */
  lemma LoginExactly(s: State, scope: nat, valid: bool, seen: int, at: int)
    ensures var (s', reply) := Login(s, scope, valid, seen, at);
            var full := CountSince(FailureIn(scope), CreatedAt(), s.attempts, seen - WINDOW_SECONDS) >= MAX_ATTEMPTS;
            && reply == (if full then RateLimited else Accepted)
            && s'.tokens == s.tokens
            && |s'.attempts| == |s.attempts| + (if full then 0 else 1)
            && (forall k | 0 <= k < |s.attempts| :: s'.attempts[k] == s.attempts[k])
            && (!full ==> var a := s'.attempts[|s.attempts|]; a.scope == scope && a.succeeded == valid && a.createdAt == at)
  {
  }

  /** A login adds to the failures of its own scope exactly when it is let through and fails. */
  lemma LoginCounts(s: State, scope: nat, valid: bool, seen: int, at: int, other: nat, since: int)
    ensures var (s', reply) := Login(s, scope, valid, seen, at);
            CountSince(FailureIn(other), CreatedAt(), s'.attempts, since)
            == CountSince(FailureIn(other), CreatedAt(), s.attempts, since)
               + (if reply == Accepted && !valid && other == scope && at >= since then 1 else 0)
  {
    CountSinceSnoc(FailureIn(other), CreatedAt(), s.attempts, Attempt(scope, valid, at), since);
  }

  // ---------- one issue ----------

  /** A pair is issued exactly when its digest is new: one live token, in the family given or in one of its own. */
  lemma IssuesExactly(s: State, user: nat, tenant: Option<nat>, family: Option<nat>, hash: nat, now: int)
    ensures var (s', reply) := Issue(s, user, tenant, family, hash, now);
            && (reply == Accepted <==> Fresh(s.tokens, hash)) && (reply != Accepted ==> s' == s && reply == Collision)
            && (reply == Accepted ==>
                  && s'.attempts == s.attempts && |s'.tokens| == |s.tokens| + 1 && s'.tokens[..|s.tokens|] == s.tokens
                  && var t := s'.tokens[|s.tokens|];
                     && t.user == user && t.tenant == tenant && t.hash == hash
                     && t.family == (if family.Some? then family.value else |s.tokens|)
                     && t.createdAt == now && t.expiresAt == now + REFRESH_TTL_SECONDS
                     && t.revokedAt.None? && t.replacedBy.None?)
  {
  }

  // ---------- one rotation ----------

  /** The presented digest is that of token `i`, in time and by its own tenant. */
  predicate Presents(s: State, hash: nat, expected: Option<nat>, now: int, i: nat) {
    && i < |s.tokens| && FindHash(s.tokens, hash) == Some(i)
    && now < s.tokens[i].expiresAt && s.tokens[i].tenant == expected
  }

  predicate Fresh(tokens: seq<Token>, hash: nat) {
    forall k | 0 <= k < |tokens| :: tokens[k].hash != hash
  }

  /** Every token of the family is revoked, those alive at `now`; every other is as it was. */
  ghost predicate FamilyRevoked(tokens: seq<Token>, after: seq<Token>, family: nat, now: int) {
    && |after| == |tokens|
    && forall k | 0 <= k < |tokens| ::
         after[k] == if tokens[k].family == family && tokens[k].revokedAt.None? then tokens[k].(revokedAt := Some(now)) else tokens[k]
  }

  /** Token `i` is revoked and names its successor, the one new token; every other is as it was. */
  ghost predicate Succeeded(tokens: seq<Token>, after: seq<Token>, i: nat, next: nat, now: int, issuedAt: int)
    requires i < |tokens|
  {
    var n := |tokens|;
    && |after| == n + 1
    && (forall k | 0 <= k < n && k != i :: after[k] == tokens[k])
    && after[i] == tokens[i].(revokedAt := Some(now), replacedBy := Some(n))
    && after[n].user == tokens[i].user && after[n].tenant == tokens[i].tenant && after[n].family == tokens[i].family
    && after[n].hash == next && after[n].createdAt == issuedAt && after[n].expiresAt == issuedAt + REFRESH_TTL_SECONDS
    && after[n].revokedAt.None? && after[n].replacedBy.None?
  }

  /**
    Reuse is reported, and the family revoked, exactly when the presented token is revoked;
    the rotation is accepted exactly when it is not, its user is active and the successor's
    digest is new. Whatever else is answered changes nothing.
   */
  lemma RotatesExactly(s: State, hash: nat, expected: Option<nat>, active: bool, next: nat, now: int, issuedAt: int, i: nat)
    requires Presents(s, hash, expected, now, i)
    ensures var (s', reply) := Rotate(s, hash, expected, active, next, now, issuedAt);
            var alive := s.tokens[i].revokedAt.None?;
            && (reply == Reused <==> !alive)
            && (reply == Accepted <==> alive && active && Fresh(s.tokens, next))
            && (reply == Collision <==> alive && active && !Fresh(s.tokens, next))
            && (reply == Invalid <==> alive && !active)
            && s'.attempts == s.attempts
            && (reply == Reused ==> FamilyRevoked(s.tokens, s'.tokens, s.tokens[i].family, now))
            && (reply == Accepted ==> Succeeded(s.tokens, s'.tokens, i, next, now, issuedAt))
            && (reply == Collision || reply == Invalid ==> s' == s)
  {
    var (s', reply) := Rotate(s, hash, expected, active, next, now, issuedAt);
    if reply == Accepted {
      RotationEffect(s, hash, expected, active, next, now, issuedAt);
    } else if s.tokens[i].revokedAt.None? && active {
      var revoked := s.tokens[i := s.tokens[i].(revokedAt := Some(now))];
      var k := FindHash(revoked, next);
      if k.Some? { assert s.tokens[k.value].hash == next; }
    }
  }

  /** A digest of no token, of an expired one or of another tenant's is refused and leaves everything alone. */
  lemma RefusedOtherwise(s: State, hash: nat, expected: Option<nat>, active: bool, next: nat, now: int, issuedAt: int)
    requires forall i :: !Presents(s, hash, expected, now, i)
    ensures Rotate(s, hash, expected, active, next, now, issuedAt) == (s, Invalid)
  {
    var found := FindHash(s.tokens, hash);
    if found.Some? { assert !Presents(s, hash, expected, now, found.value); }
  }

  // ---------- a token keeps its identity ----------

  /** Over time a token is at most revoked and replaced. */
  predicate Ages(t: Token, t': Token) {
    && t'.user == t.user && t'.tenant == t.tenant && t'.family == t.family && t'.hash == t.hash
    && t'.expiresAt == t.expiresAt && t'.createdAt == t.createdAt
    && (t.revokedAt.Some? ==> t'.revokedAt == t.revokedAt) && (t.replacedBy.Some? ==> t'.replacedBy == t.replacedBy)
  }

  ghost predicate Unique(tokens: seq<Token>) {
    forall i, k | 0 <= i < k < |tokens| :: tokens[i].hash != tokens[k].hash
  }

  ghost predicate Grows(tokens: seq<Token>, after: seq<Token>) {
    |tokens| <= |after| && forall k | 0 <= k < |tokens| :: Ages(tokens[k], after[k])
  }

  lemma RevocationGrows(tokens: seq<Token>, after: seq<Token>, family: nat, now: int)
    requires FamilyRevoked(tokens, after, family, now) && Unique(tokens)
    ensures Unique(after) && Grows(tokens, after)
  {
    forall k | 0 <= k < |tokens| ensures Ages(tokens[k], after[k]) { }
    forall i, k | 0 <= i < k < |after| ensures after[i].hash != after[k].hash { assert tokens[i].hash != tokens[k].hash; }
  }

  lemma SuccessionGrows(tokens: seq<Token>, after: seq<Token>, i: nat, next: nat, now: int, issuedAt: int)
    requires i < |tokens| && Succeeded(tokens, after, i, next, now, issuedAt) && Fresh(tokens, next) && Unique(tokens)
    requires tokens[i].revokedAt.None? && tokens[i].replacedBy.None?
    ensures Unique(after) && Grows(tokens, after)
  {
    forall k | 0 <= k < |tokens| ensures Ages(tokens[k], after[k]) { }
    forall j, k | 0 <= j < k < |after| ensures after[j].hash != after[k].hash {
      assert Ages(tokens[j], after[j]);
      if k < |tokens| { assert tokens[j].hash != tokens[k].hash; }
    }
  }

  lemma RotationGrows(s: State, e: Event)
    requires e.Refresh? && Unique(s.tokens) && Linked(s.tokens)
    ensures Unique(Step(s, e).tokens) && Grows(s.tokens, Step(s, e).tokens)
  {
    var found := FindHash(s.tokens, e.hash);
    if found.Some? && Presents(s, e.hash, e.expected, e.now, found.value) {
      var (s', reply) := Rotate(s, e.hash, e.expected, e.active, e.next, e.now, e.issuedAt);
      RotatesExactly(s, e.hash, e.expected, e.active, e.next, e.now, e.issuedAt, found.value);
      assert s.tokens[found.value].replacedBy == Successor(s.tokens, found.value);
      if reply == Reused {
        RevocationGrows(s.tokens, s'.tokens, s.tokens[found.value].family, e.now);
      } else if reply == Accepted {
        SuccessionGrows(s.tokens, s'.tokens, found.value, e.next, e.now, e.issuedAt);
      }
    } else {
      forall i ensures !Presents(s, e.hash, e.expected, e.now, i) { }
      RefusedOtherwise(s, e.hash, e.expected, e.active, e.next, e.now, e.issuedAt);
    }
  }

  lemma StepGrows(s: State, e: Event)
    requires Unique(s.tokens) && Linked(s.tokens)
    ensures Unique(Step(s, e).tokens) && Grows(s.tokens, Step(s, e).tokens)
  {
    if e.Refresh? { RotationGrows(s, e); }
  }

  lemma {:induction false} RunGrows(s: State, es: seq<Event>)
    requires Unique(s.tokens) && Chains(s.tokens)
    ensures Unique(Run(s, es).tokens) && Grows(s.tokens, Run(s, es).tokens)
  {
    if es != [] {
      var before := Run(s, es[..|es| - 1]);
      RunGrows(s, es[..|es| - 1]);
      RunKeepsChains(s, es[..|es| - 1]);
      StepGrows(before, es[|es| - 1]);
      forall k | 0 <= k < |s.tokens| ensures Ages(s.tokens[k], Run(s, es).tokens[k]) {
        assert Ages(s.tokens[k], before.tokens[k]) && Ages(before.tokens[k], Run(s, es).tokens[k]);
      }
    }
  }

  lemma UniqueFinds(tokens: seq<Token>, i: nat)
    requires Unique(tokens) && i < |tokens|
    ensures FindHash(tokens, tokens[i].hash) == Some(i)
  {
    var k := FindHash(tokens, tokens[i].hash);
    assert k.Some? && tokens[k.value].hash == tokens[i].hash;
  }

  // ---------- reuse is always noticed ----------

  /** Token `i` is presented, in time and by its own tenant. */
  function PresentAgain(t: Token, active: bool, next: nat, now: int, issuedAt: int): Event {
    Refresh(t.hash, t.tenant, active, next, now, issuedAt)
  }

  /**
    A token that is alive is rotated. However the system goes on, presenting its digest once
    more, before it expires, revokes every token of its family.
   */
  lemma ReuseIsNoticed(es: seq<Event>, i: nat, next: nat, now: int, issuedAt: int, more: seq<Event>, again: Event)
    requires var s := Run(EMPTY, es);
             && i < |s.tokens| && s.tokens[i].revokedAt.None? && now < s.tokens[i].expiresAt && Fresh(s.tokens, next)
             && again.Refresh? && again.hash == s.tokens[i].hash && again.expected == s.tokens[i].tenant && again.now < s.tokens[i].expiresAt
    ensures var s := Run(EMPTY, es);
            var later := Run(Step(s, PresentAgain(s.tokens[i], true, next, now, issuedAt)), more);
            Dead(Step(later, again).tokens, s.tokens[i].family)
  {
    var s := Run(EMPTY, es);
    var e := PresentAgain(s.tokens[i], true, next, now, issuedAt);
    RunGrows(EMPTY, es);
    RunKeepsChains(EMPTY, es);
    UniqueFinds(s.tokens, i);
    RotatesExactly(s, e.hash, e.expected, true, next, now, issuedAt, i);
    var rotated := Step(s, e);
    StepGrows(s, e);
    StepKeepsChains(s, e);
    assert rotated.tokens[i].revokedAt.Some? && Ages(s.tokens[i], rotated.tokens[i]);
    RevokedIsNoticed(rotated, i, more, again);
  }

  /** The same of any token that is revoked, at whatever later moment. */
  lemma RevokedIsNoticed(s: State, i: nat, more: seq<Event>, again: Event)
    requires Unique(s.tokens) && Chains(s.tokens) && i < |s.tokens| && s.tokens[i].revokedAt.Some?
    requires again.Refresh? && again.hash == s.tokens[i].hash && again.expected == s.tokens[i].tenant && again.now < s.tokens[i].expiresAt
    ensures Dead(Step(Run(s, more), again).tokens, s.tokens[i].family)
  {
    var later := Run(s, more);
    RunGrows(s, more);
    RunKeepsChains(s, more);
    assert Ages(s.tokens[i], later.tokens[i]);
    UniqueFinds(later.tokens, i);
    RotatesExactly(later, again.hash, again.expected, again.active, again.next, again.now, again.issuedAt, i);
    assert OfFamily(later.tokens, later.tokens[i], i);
    FamilyIsDead(later.tokens, Step(later, again).tokens, later.tokens[i].family, again.now);
  }

  lemma FamilyIsDead(tokens: seq<Token>, after: seq<Token>, family: nat, now: int)
    requires FamilyRevoked(tokens, after, family, now) && family < |tokens|
    ensures Dead(after, family)
  {
  }
}
