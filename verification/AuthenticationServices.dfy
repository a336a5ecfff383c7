/** The authentication service over its two tables; each method is one transaction. */
module AuthenticationServices {
  import opened Common
  import opened Counting
  import opened Sessions

  class AuthenticationService {
    var tokens: seq<Token>
    var attempts: seq<Attempt>

    ghost function View(): State
      reads this
    {
      State(tokens, attempts)
    }

    constructor ()
      ensures View() == EMPTY
    {
      tokens, attempts := [], [];
    }

    /** Where it does not refuse, one more failure from now on leaves every window within the limit. */
    method EnforceRateLimit(scope: nat, seen: int) returns (limited: bool)
      ensures limited <==> CountSince(FailureIn(scope), CreatedAt(), attempts, seen - WINDOW_SECONDS) >= MAX_ATTEMPTS
      ensures !limited && Limited(FailureIn(scope), CreatedAt(), attempts, WINDOW_SECONDS, MAX_ATTEMPTS) ==>
                forall at | seen <= at ::
                  Limited(FailureIn(scope), CreatedAt(), attempts + [Attempt(scope, false, at)], WINDOW_SECONDS, MAX_ATTEMPTS)
    {
      var since := seen - WINDOW_SECONDS;
      limited := CountSince(FailureIn(scope), CreatedAt(), attempts, since) >= MAX_ATTEMPTS;
      if !limited && Limited(FailureIn(scope), CreatedAt(), attempts, WINDOW_SECONDS, MAX_ATTEMPTS) {
        forall at | seen <= at
          ensures Limited(FailureIn(scope), CreatedAt(), attempts + [Attempt(scope, false, at)], WINDOW_SECONDS, MAX_ATTEMPTS)
        {
          AdmittedKeepsLimit(FailureIn(scope), CreatedAt(), attempts, Attempt(scope, false, at), since, WINDOW_SECONDS, MAX_ATTEMPTS);
        }
      }
    }

    method AuthenticateUser(scope: nat, valid: bool, seen: int, at: int) returns (reply: Reply)
      modifies this`attempts
      ensures (View(), reply) == Login(old(View()), scope, valid, seen, at)
    {
      var limited := EnforceRateLimit(scope, seen);
      if limited { return RateLimited; }
      attempts := attempts + [Attempt(scope, valid, at)];
      return Accepted;
    }

    method IssuePair(user: nat, tenant: Option<nat>, family: Option<nat>, hash: nat, now: int) returns (reply: Reply)
      modifies this`tokens
      ensures (View(), reply) == Issue(old(View()), user, tenant, family, hash, now)
    {
      if FindHash(tokens, hash).Some? { return Collision; }
      var name := if family.Some? then family.value else |tokens|;
      tokens := tokens + [Token(user, tenant, name, hash, now + REFRESH_TTL_SECONDS, now, None, None)];
      return Accepted;
    }

    /** Presents the token with digest `hash`; `next` is the digest of the token issued in its place. */
    method RotateRefreshToken(hash: nat, expected: Option<nat>, active: bool, next: nat, now: int, issuedAt: int)
      returns (reply: Reply)
      modifies this`tokens
      ensures (View(), reply) == Rotate(old(View()), hash, expected, active, next, now, issuedAt)
    {
      var before := tokens;
      var found := FindHash(tokens, hash);
      if found.None? { return Invalid; }
      var stored := tokens[found.value];
      if stored.expiresAt <= now { return Invalid; }
      if stored.tenant != expected { return Invalid; }
      if stored.revokedAt.Some? {
        tokens := RevokeFamily(tokens, stored.family, now);
        return Reused;
      }
      if !active { return Invalid; }
      stored := stored.(revokedAt := Some(now));
      tokens := tokens[found.value := stored];
      reply := IssuePair(stored.user, stored.tenant, Some(stored.family), next, issuedAt);
      if reply != Accepted {
        tokens := before; // the transaction is rolled back
        return;
      }
      stored := stored.(replacedBy := FindHash(tokens, next));
      tokens := tokens[found.value := stored];
    }
  }
}
