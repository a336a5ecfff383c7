/** Theorems about every run of logins and token rotations. */
module SessionSafety {
  import opened Common
  import opened Counting
  import opened Sessions

  // ---------- failed logins ----------

  /**
    The clock is read twice in a login: for the limit, and for the stamp. `skew` is how far the
    second reading may lie behind the first; nothing is said about other logins' readings.
   */
  predicate ReadsWithin(e: Event, skew: nat) {
    e.TryLogin? ==> e.seen <= e.at + skew
  }

  ghost predicate LoginsLimited(s: State, width: nat) {
    forall scope :: Limited(FailureIn(scope), CreatedAt(), s.attempts, width, MAX_ATTEMPTS)
  }

  lemma LoginStep(s: State, e: Event, skew: nat)
    requires skew <= WINDOW_SECONDS && LoginsLimited(s, WINDOW_SECONDS - skew) && ReadsWithin(e, skew)
    ensures LoginsLimited(Step(s, e), WINDOW_SECONDS - skew)
  {
    var width := WINDOW_SECONDS - skew;
    if e.TryLogin? && Login(s, e.scope, e.valid, e.seen, e.at).1 == Accepted {
      var a := Attempt(e.scope, e.valid, e.at);
      forall scope ensures Limited(FailureIn(scope), CreatedAt(), s.attempts + [a], width, MAX_ATTEMPTS) {
        AdmittedKeepsLimit(FailureIn(scope), CreatedAt(), s.attempts, a, e.seen - WINDOW_SECONDS, width, MAX_ATTEMPTS);
      }
    }
  }

  /**
    In no interval of the window's length, less the skew, are there more failed logins of one
    scope than the limit. Without skew that is the whole window.
   */
  lemma {:induction false} FailedLoginsLimited(es: seq<Event>, skew: nat)
    requires skew <= WINDOW_SECONDS && forall e | e in es :: ReadsWithin(e, skew)
    ensures LoginsLimited(Run(EMPTY, es), WINDOW_SECONDS - skew)
  {
    if es == [] {
      forall scope ensures Limited(FailureIn(scope), CreatedAt(), [], WINDOW_SECONDS - skew, MAX_ATTEMPTS) {
        NoRowsLimited(FailureIn(scope), CreatedAt(), WINDOW_SECONDS - skew, MAX_ATTEMPTS);
      }
    } else {
      FailedLoginsLimited(es[..|es| - 1], skew);
      LoginStep(Run(EMPTY, es[..|es| - 1]), es[|es| - 1], skew);
    }
  }

  /**
    A login is refused exactly where one more failure now would exceed the limit, provided no
    failure of its scope is stamped later than now.
   */
  lemma RefusedExactly(s: State, scope: nat, valid: bool, now: int)
    requires LoginsLimited(s, WINDOW_SECONDS)
    requires forall i | 0 <= i < |s.attempts| && FailureIn(scope)(s.attempts[i]) :: s.attempts[i].createdAt <= now
    ensures Login(s, scope, valid, now, now).1 == RateLimited <==>
              !Limited(FailureIn(scope), CreatedAt(), s.attempts + [Attempt(scope, false, now)], WINDOW_SECONDS, MAX_ATTEMPTS)
  {
    var a := Attempt(scope, false, now);
    if Login(s, scope, valid, now, now).1 == RateLimited {
      RefusedWouldExceed(FailureIn(scope), CreatedAt(), s.attempts, a, WINDOW_SECONDS, MAX_ATTEMPTS);
    } else {
      AdmittedKeepsLimit(FailureIn(scope), CreatedAt(), s.attempts, a, now - WINDOW_SECONDS, WINDOW_SECONDS, MAX_ATTEMPTS);
    }
  }

  // As many failures at time 0 as the limit allows.
  function Failures(n: nat): seq<Event> {
    if n == 0 then [] else Failures(n - 1) + [TryLogin(0, false, 0, 0)]
  }

  const FAILURE := Attempt(0, false, 0)

  lemma {:induction false} FailuresRecorded(n: nat)
    requires n <= MAX_ATTEMPTS
    ensures var xs := Run(EMPTY, Failures(n)).attempts;
            |xs| == n && forall i | 0 <= i < n :: xs[i] == FAILURE
  {
    if n > 0 {
      FailuresRecorded(n - 1);
      var s := Run(EMPTY, Failures(n - 1));
      assert Failures(n)[..|Failures(n)| - 1] == Failures(n - 1);
      SinceIsAll(s.attempts, n - 1);
    }
  }

  lemma SinceIsAll(xs: seq<Attempt>, n: nat)
    requires |xs| == n && forall i | 0 <= i < n :: xs[i] == FAILURE
    ensures CountSince(FailureIn(0), CreatedAt(), xs, 0 - WINDOW_SECONDS) == n
  {
    CountSinceAll(FailureIn(0), CreatedAt(), xs, 0 - WINDOW_SECONDS);
  }

  /**
    The width lost is real: after the limit's worth of failures at time 0, a login that reads
    the clock past the window but is stamped 0 is let through, and the window exceeds the limit.
   */
  lemma SkewBreaksLimit() returns (es: seq<Event>)
    ensures !LoginsLimited(Run(EMPTY, es), WINDOW_SECONDS)
  {
    var late := TryLogin(0, false, WINDOW_SECONDS + 1, 0);
    var s := Run(EMPTY, Failures(MAX_ATTEMPTS));
    es := Failures(MAX_ATTEMPTS) + [late];
    assert es[..|es| - 1] == Failures(MAX_ATTEMPTS);
    FailuresRecorded(MAX_ATTEMPTS);
    CountSinceNone(FailureIn(0), CreatedAt(), s.attempts, 1);
    assert Run(EMPTY, es).attempts == s.attempts + [FAILURE];
    SinceIsAll(s.attempts, MAX_ATTEMPTS);
    RefusedWouldExceed(FailureIn(0), CreatedAt(), s.attempts, FAILURE, WINDOW_SECONDS, MAX_ATTEMPTS);
    assert !Limited(FailureIn(0), CreatedAt(), Run(EMPTY, es).attempts, WINDOW_SECONDS, MAX_ATTEMPTS);
  }

  // ---------- families are chains ----------

  /** The first token of the family at or after index `k`. */
  function NextFrom(tokens: seq<Token>, family: nat, k: nat): (r: Option<nat>)
    ensures r.Some? ==> k <= r.value < |tokens| && tokens[r.value].family == family
    ensures r.Some? ==> forall i | k <= i < r.value :: tokens[i].family != family
    ensures r.None? ==> forall i | k <= i < |tokens| :: tokens[i].family != family
    decreases |tokens| - k
  {
    if k >= |tokens| then None
    else if tokens[k].family == family then Some(k)
    else NextFrom(tokens, family, k + 1)
  }

  /** The next token of the same family, in order of issue. */
  function Successor(tokens: seq<Token>, i: nat): Option<nat>
    requires i < |tokens|
  {
    NextFrom(tokens, tokens[i].family, i + 1)
  }

  /** A family belongs to the user and tenant of the token that founded it. */
  ghost predicate Rooted(tokens: seq<Token>) {
    forall i | 0 <= i < |tokens| :: OfFamily(tokens, tokens[i], i)
  }

  predicate OfFamily(tokens: seq<Token>, t: Token, i: nat) {
    && t.family <= i && t.family < |tokens| && tokens[t.family].family == t.family
    && t.user == tokens[t.family].user && t.tenant == tokens[t.family].tenant
  }

  /** Each token is replaced by the next of its family, and revoked when it is. */
  ghost predicate Linked(tokens: seq<Token>) {
    forall i | 0 <= i < |tokens| ::
      tokens[i].replacedBy == Successor(tokens, i) && (tokens[i].replacedBy.Some? ==> tokens[i].revokedAt.Some?)
  }

  ghost predicate Chains(tokens: seq<Token>) {
    Rooted(tokens) && Linked(tokens)
  }

  // Families alone decide successors.
  lemma {:induction false} SameFamilies(a: seq<Token>, b: seq<Token>, family: nat, k: nat)
    requires |a| == |b| && forall i | 0 <= i < |a| :: a[i].family == b[i].family
    ensures NextFrom(a, family, k) == NextFrom(b, family, k)
    decreases |a| - k
  {
    if k < |a| { SameFamilies(a, b, family, k + 1); }
  }

  lemma {:induction false} NextSnoc(tokens: seq<Token>, t: Token, family: nat, k: nat)
    requires k <= |tokens|
    ensures NextFrom(tokens + [t], family, k)
            == if NextFrom(tokens, family, k).Some? then NextFrom(tokens, family, k)
               else if t.family == family then Some(|tokens|) else None
    decreases |tokens| - k
  {
    if k < |tokens| { NextSnoc(tokens, t, family, k + 1); }
  }

  lemma IssueKeepsChains(s: State, user: nat, tenant: Option<nat>, hash: nat, now: int)
    requires Chains(s.tokens)
    ensures Chains(Issue(s, user, tenant, None, hash, now).0.tokens)
  {
    var tokens := Issue(s, user, tenant, None, hash, now).0.tokens;
    if FindHash(s.tokens, hash).None? {
      var t := tokens[|s.tokens|];
      forall i | 0 <= i < |tokens| ensures tokens[i].replacedBy == Successor(tokens, i) {
        if i < |s.tokens| { NextSnoc(s.tokens, t, tokens[i].family, i + 1); }
      }
    }
  }

  // The last token of its family is replaced by the new token `t`.
  lemma ReplaceKeepsLinks(tokens: seq<Token>, i: nat, t: Token, at: int)
    requires Linked(tokens) && i < |tokens| && tokens[i].revokedAt.None?
    requires t.family == tokens[i].family && t.replacedBy.None?
    ensures Linked(tokens[i := tokens[i].(revokedAt := Some(at), replacedBy := Some(|tokens|))] + [t])
  {
    var replaced := tokens[i := tokens[i].(revokedAt := Some(at), replacedBy := Some(|tokens|))];
    var after := replaced + [t];
    assert Successor(tokens, i).None?;
    forall k | 0 <= k < |after|
      ensures after[k].replacedBy == Successor(after, k) && (after[k].replacedBy.Some? ==> after[k].revokedAt.Some?)
    {
      if k < |tokens| {
        assert tokens[k].replacedBy == Successor(tokens, k);
        SameFamilies(tokens, replaced, tokens[k].family, k + 1);
        NextSnoc(replaced, t, tokens[k].family, k + 1);
      }
    }
  }

  lemma ReplaceKeepsRoots(tokens: seq<Token>, i: nat, t: Token, r: Token)
    requires Rooted(tokens) && i < |tokens|
    requires t.family == tokens[i].family && t.user == tokens[i].user && t.tenant == tokens[i].tenant
    requires r.family == tokens[i].family && r.user == tokens[i].user && r.tenant == tokens[i].tenant
    ensures Rooted(tokens[i := r] + [t])
  {
    var after := tokens[i := r] + [t];
    forall k | 0 <= k < |after| ensures OfFamily(after, after[k], k) {
      assert OfFamily(tokens, tokens[if k < |tokens| then k else i], if k < |tokens| then k else i);
    }
  }

  lemma RevocationKeepsChains(tokens: seq<Token>, family: nat, now: int)
    requires Chains(tokens)
    ensures Chains(RevokeFamily(tokens, family, now))
  {
    var after := RevokeFamily(tokens, family, now);
    forall k | 0 <= k < |tokens| ensures after[k].replacedBy == Successor(after, k) {
      SameFamilies(tokens, after, tokens[k].family, k + 1);
      assert tokens[k].replacedBy == Successor(tokens, k);
    }
    forall k | 0 <= k < |tokens| ensures OfFamily(after, after[k], k) { assert OfFamily(tokens, tokens[k], k); }
  }

  lemma RotateKeepsChains(s: State, hash: nat, expected: Option<nat>, active: bool, next: nat, now: int, issuedAt: int)
    requires Chains(s.tokens)
    ensures Chains(Rotate(s, hash, expected, active, next, now, issuedAt).0.tokens)
  {
    var (s', reply) := Rotate(s, hash, expected, active, next, now, issuedAt);
    if reply == Accepted {
      RotationEffect(s, hash, expected, active, next, now, issuedAt);
      var i := FindHash(s.tokens, hash).value;
      ReplaceKeepsLinks(s.tokens, i, s'.tokens[|s.tokens|], now);
      ReplaceKeepsRoots(s.tokens, i, s'.tokens[|s.tokens|], s'.tokens[i]);
    } else if reply == Reused {
      RevocationKeepsChains(s.tokens, s.tokens[FindHash(s.tokens, hash).value].family, now);
    }
  }

  /** What an accepted rotation leaves behind. */
  lemma RotationEffect(s: State, hash: nat, expected: Option<nat>, active: bool, next: nat, now: int, issuedAt: int)
    requires Rotate(s, hash, expected, active, next, now, issuedAt).1 == Accepted
    ensures var tokens := Rotate(s, hash, expected, active, next, now, issuedAt).0.tokens;
            var i := FindHash(s.tokens, hash).value;
            var stored := s.tokens[i];
            && stored.revokedAt.None? && (forall k | 0 <= k < |s.tokens| :: s.tokens[k].hash != next)
            && tokens == s.tokens[i := stored.(revokedAt := Some(now), replacedBy := Some(|s.tokens|))]
                         + [Token(stored.user, stored.tenant, stored.family, next, issuedAt + REFRESH_TTL_SECONDS, issuedAt, None, None)]
  {
    var i := FindHash(s.tokens, hash).value;
    var revoked := s.tokens[i := s.tokens[i].(revokedAt := Some(now))];
    forall k | 0 <= k < |s.tokens| ensures s.tokens[k].hash != next { assert revoked[k].hash == s.tokens[k].hash; }
    var issued := Issue(State(revoked, s.attempts), s.tokens[i].user, s.tokens[i].tenant, Some(s.tokens[i].family), next, issuedAt).0.tokens;
    assert FindHash(issued, next) == Some(|s.tokens|);
  }

  lemma {:induction false} RunKeepsChains(s: State, es: seq<Event>)
    requires Chains(s.tokens)
    ensures Chains(Run(s, es).tokens)
  {
    if es != [] {
      RunKeepsChains(s, es[..|es| - 1]);
      StepKeepsChains(Run(s, es[..|es| - 1]), es[|es| - 1]);
    }
  }

  lemma StepKeepsChains(s: State, e: Event)
    requires Chains(s.tokens)
    ensures Chains(Step(s, e).tokens)
  {
    match e
    case TryLogin(_, _, _, _) =>
    case IssuePair(user, tenant, hash, now) => IssueKeepsChains(s, user, tenant, hash, now);
    case Refresh(hash, expected, active, next, now, issuedAt) =>
      RotateKeepsChains(s, hash, expected, active, next, now, issuedAt);
  }

  /** Following replacements from `i` arrives at `j`. */
  predicate LeadsTo(tokens: seq<Token>, i: nat, j: nat)
    decreases |tokens| - i
  {
    i < |tokens| &&
    (i == j || (tokens[i].replacedBy.Some? && i < tokens[i].replacedBy.value && LeadsTo(tokens, tokens[i].replacedBy.value, j)))
  }

  /** A family is a single chain: from any of its tokens every later one is reached. */
  lemma {:induction false} FamilyIsOneChain(tokens: seq<Token>, i: nat, j: nat)
    requires Chains(tokens) && i <= j < |tokens| && tokens[i].family == tokens[j].family
    ensures LeadsTo(tokens, i, j) && tokens[i].user == tokens[j].user && tokens[i].tenant == tokens[j].tenant
    decreases j - i
  {
    assert OfFamily(tokens, tokens[i], i) && OfFamily(tokens, tokens[j], j);
    if i < j {
      var heir := Successor(tokens, i);
      assert tokens[i].replacedBy == heir && heir.Some? && heir.value <= j;
      FamilyIsOneChain(tokens, heir.value, j);
    }
  }

  /** A live token is the last of its family, so no family has two. */
  lemma OneLiveToken(tokens: seq<Token>, i: nat, j: nat)
    requires Chains(tokens) && i < |tokens| && j < |tokens|
    requires tokens[i].family == tokens[j].family && tokens[i].revokedAt.None?
    ensures j <= i && (tokens[j].revokedAt.None? ==> i == j)
  {
    assert tokens[i].replacedBy == Successor(tokens, i) && tokens[i].replacedBy.None?;
    if tokens[j].revokedAt.None? { assert tokens[j].replacedBy == Successor(tokens, j) && tokens[j].replacedBy.None?; }
  }

  // ---------- rotated once ----------

  predicate Rotates(s: State, e: Event, i: nat) {
    e.Refresh? && FindHash(s.tokens, e.hash) == Some(i) &&
    Rotate(s, e.hash, e.expected, e.active, e.next, e.now, e.issuedAt).1 == Accepted
  }

  function Rotations(es: seq<Event>, i: nat): nat {
    if es == [] then 0
    else Rotations(es[..|es| - 1], i) + (if Rotates(Run(EMPTY, es[..|es| - 1]), es[|es| - 1], i) then 1 else 0)
  }

  // The four things a step can do to the table.
  datatype Effect =
    | Unchanged
    | Founded(founder: Token)
    | Revoked(family: nat, now: int)
    | Replaced(i: nat, at: int, next: Token)

  predicate Possible(tokens: seq<Token>, f: Effect) {
    match f
    case Founded(t) => t.family == |tokens| && t.replacedBy.None?
    case Replaced(i, _, t) => i < |tokens| && tokens[i].revokedAt.None? && t.family == tokens[i].family && t.replacedBy.None?
    case _ => true
  }

  function After(tokens: seq<Token>, f: Effect): seq<Token>
    requires Possible(tokens, f)
  {
    match f
    case Unchanged => tokens
    case Founded(t) => tokens + [t]
    case Revoked(family, now) => RevokeFamily(tokens, family, now)
    case Replaced(i, at, t) => tokens[i := tokens[i].(revokedAt := Some(at), replacedBy := Some(|tokens|))] + [t]
  }

  /** Only an accepted rotation replaces a token, and it replaces the one it looked up. */
  lemma StepEffect(s: State, e: Event) returns (f: Effect)
    ensures Possible(s.tokens, f) && Step(s, e).tokens == After(s.tokens, f)
    ensures forall i :: Rotates(s, e, i) <==> f.Replaced? && f.i == i
    ensures e.Refresh? && Rotate(s, e.hash, e.expected, e.active, e.next, e.now, e.issuedAt).1 == Reused ==>
              f.Revoked? && f.family == s.tokens[FindHash(s.tokens, e.hash).value].family
  {
    f := Unchanged;
    if e.IssuePair? && FindHash(s.tokens, e.hash).None? {
      f := Founded(Step(s, e).tokens[|s.tokens|]);
    } else if e.Refresh? {
      var (s', reply) := Rotate(s, e.hash, e.expected, e.active, e.next, e.now, e.issuedAt);
      if reply == Reused {
        f := Revoked(s.tokens[FindHash(s.tokens, e.hash).value].family, e.now);
      } else if reply == Accepted {
        RotationEffect(s, e.hash, e.expected, e.active, e.next, e.now, e.issuedAt);
        f := Replaced(FindHash(s.tokens, e.hash).value, e.now, s'.tokens[|s.tokens|]);
      }
    }
  }

  // Rows keep their place, and gain a replacement exactly when it is they that are replaced.
  lemma EffectOnRow(tokens: seq<Token>, f: Effect, i: nat)
    requires Linked(tokens) && Possible(tokens, f)
    ensures var after := After(tokens, f);
            && |tokens| <= |after|
            && (i < |tokens| ==> (after[i].replacedBy.Some? <==> tokens[i].replacedBy.Some? || (f.Replaced? && f.i == i)))
            && (|tokens| <= i < |after| ==> after[i].replacedBy.None?)
            && (f.Replaced? && f.i == i ==> tokens[i].replacedBy.None?)
  {
  }

  /** Over a whole run a token is rotated once if it has been replaced, and otherwise never. */
  lemma {:induction false} RotatedAtMostOnce(es: seq<Event>, i: nat)
    ensures var tokens := Run(EMPTY, es).tokens;
            Rotations(es, i) == if i < |tokens| && tokens[i].replacedBy.Some? then 1 else 0
  {
    if es != [] {
      RotatedAtMostOnce(es[..|es| - 1], i);
      RunKeepsChains(EMPTY, es[..|es| - 1]);
      var f := StepEffect(Run(EMPTY, es[..|es| - 1]), es[|es| - 1]);
      EffectOnRow(Run(EMPTY, es[..|es| - 1]).tokens, f, i);
    }
  }

  // ---------- after a reuse ----------

  /** Every token of the family is revoked. */
  ghost predicate Dead(tokens: seq<Token>, family: nat) {
    family < |tokens| && forall i | 0 <= i < |tokens| && tokens[i].family == family :: tokens[i].revokedAt.Some?
  }

  lemma RevokedIsDead(tokens: seq<Token>, family: nat, now: int)
    requires family < |tokens|
    ensures Dead(RevokeFamily(tokens, family, now), family)
  {
  }

  lemma DeadAfter(tokens: seq<Token>, f: Effect, family: nat)
    requires Dead(tokens, family) && Possible(tokens, f)
    ensures Dead(After(tokens, f), family) && (f.Replaced? ==> tokens[f.i].family != family)
  {
    var after := After(tokens, f);
    forall k | 0 <= k < |after| && after[k].family == family ensures after[k].revokedAt.Some? {
      if k < |tokens| { assert tokens[k].family == family; }
    }
  }

  lemma DeadStep(s: State, e: Event, family: nat)
    requires Dead(s.tokens, family)
    ensures Dead(Step(s, e).tokens, family)
    ensures forall i | 0 <= i < |s.tokens| && s.tokens[i].family == family :: !Rotates(s, e, i)
  {
    var f := StepEffect(s, e);
    DeadAfter(s.tokens, f, family);
  }

  lemma {:induction false} DeadStaysDead(s: State, es: seq<Event>, family: nat)
    requires Dead(s.tokens, family)
    ensures Dead(Run(s, es).tokens, family)
  {
    if es != [] {
      DeadStaysDead(s, es[..|es| - 1], family);
      DeadStep(Run(s, es[..|es| - 1]), es[|es| - 1], family);
    }
  }

  /** Once reuse of a token has been detected, no token of its family is ever rotated again. */
  lemma NothingAfterReuse(s: State, reuse: Event, es: seq<Event>, later: Event, i: nat)
    requires Chains(s.tokens) && reuse.Refresh?
    requires Rotate(s, reuse.hash, reuse.expected, reuse.active, reuse.next, reuse.now, reuse.issuedAt).1 == Reused
    requires i < |Run(Step(s, reuse), es).tokens|
    requires Run(Step(s, reuse), es).tokens[i].family == s.tokens[FindHash(s.tokens, reuse.hash).value].family
    ensures !Rotates(Run(Step(s, reuse), es), later, i)
  {
    var k := FindHash(s.tokens, reuse.hash).value;
    var f := StepEffect(s, reuse);
    assert OfFamily(s.tokens, s.tokens[k], k);
    RevokedIsDead(s.tokens, f.family, f.now);
    DeadStaysDead(Step(s, reuse), es, f.family);
    DeadStep(Run(Step(s, reuse), es), later, f.family);
  }
}
