/**
  Login attempts and refresh tokens: the sliding-window limit on failed logins, and token
  families, in which every rotation replaces one token by the next and reuse revokes all.

  A token is identified by its index; `hash` is the digest it is looked up by.
 */
module Sessions {
  import opened Common
  import opened Counting

  type WindowLength = n: nat | 60 <= n <= 3600 witness 900
  type AttemptLimit = n: nat | 3 <= n <= 100 witness 10
  type TokenLifetime = n: nat | 3600 <= n witness 3600

  const WINDOW_SECONDS: WindowLength
  const MAX_ATTEMPTS: AttemptLimit
  const REFRESH_TTL_SECONDS: TokenLifetime

  datatype Attempt = Attempt(scope: nat, succeeded: bool, createdAt: int)

  datatype Token = Token(
    user: nat,
    tenant: Option<nat>,
    family: nat,
    hash: nat,
    expiresAt: int,
    createdAt: int,
    revokedAt: Option<int>,
    replacedBy: Option<nat>)

  datatype State = State(tokens: seq<Token>, attempts: seq<Attempt>)

  datatype Reply = Accepted | RateLimited | Invalid | Reused | Collision

  // ---------- logins ----------

  function FailureIn(scope: nat): Attempt -> bool {
    (a: Attempt) => a.scope == scope && !a.succeeded
  }

  function CreatedAt(): Attempt -> int {
    (a: Attempt) => a.createdAt
  }

  /** One authentication: the limit is checked at the clock reading `seen`, the attempt stamped `at`. */
  function Login(s: State, scope: nat, valid: bool, seen: int, at: int): (State, Reply) {
    if CountSince(FailureIn(scope), CreatedAt(), s.attempts, seen - WINDOW_SECONDS) >= MAX_ATTEMPTS then (s, RateLimited)
    else (s.(attempts := s.attempts + [Attempt(scope, valid, at)]), Accepted)
  }

  // ---------- refresh tokens ----------

  function FindHash(tokens: seq<Token>, hash: nat): (r: Option<nat>)
    ensures r.Some? ==> r.value < |tokens| && tokens[r.value].hash == hash
    ensures r.None? ==> forall i | 0 <= i < |tokens| :: tokens[i].hash != hash
  {
    if tokens == [] then None
    else if tokens[|tokens| - 1].hash == hash then Some(|tokens| - 1)
    else FindHash(tokens[..|tokens| - 1], hash)
  }

  /** A new token; the hash column is unique. A new family is named after its first token. */
  function Issue(s: State, user: nat, tenant: Option<nat>, family: Option<nat>, hash: nat, now: int): (State, Reply) {
    if FindHash(s.tokens, hash).Some? then (s, Collision)
    else
      var token := Token(user, tenant, if family.Some? then family.value else |s.tokens|, hash,
                         now + REFRESH_TTL_SECONDS, now, None, None);
      (s.(tokens := s.tokens + [token]), Accepted)
  }

  function RevokeFamily(tokens: seq<Token>, family: nat, now: int): seq<Token> {
    seq(|tokens|, i requires 0 <= i < |tokens| =>
      if tokens[i].family == family && tokens[i].revokedAt.None? then tokens[i].(revokedAt := Some(now)) else tokens[i])
  }

  /**
    A rotation. Expiry and tenant are looked at before revocation, so an expired or foreign
    token is refused without touching its family.
   */
  function Rotate(s: State, hash: nat, expected: Option<nat>, active: bool, next: nat, now: int, issuedAt: int): (State, Reply) {
    var found := FindHash(s.tokens, hash);
    if found.None? then (s, Invalid)
    else
      var i := found.value;
      var stored := s.tokens[i];
      if stored.expiresAt <= now || stored.tenant != expected then (s, Invalid)
      else if stored.revokedAt.Some? then (s.(tokens := RevokeFamily(s.tokens, stored.family, now)), Reused)
      else if !active then (s, Invalid)
      else
        var revoked := s.(tokens := s.tokens[i := stored.(revokedAt := Some(now))]);
        var (issued, reply) := Issue(revoked, stored.user, stored.tenant, Some(stored.family), next, issuedAt);
        if reply != Accepted then (s, reply)
        else (issued.(tokens := issued.tokens[i := issued.tokens[i].(replacedBy := FindHash(issued.tokens, next))]), Accepted)
  }

  // ---------- runs ----------

  datatype Event =
    | TryLogin(scope: nat, valid: bool, seen: int, at: int)
    | IssuePair(user: nat, tenant: Option<nat>, hash: nat, now: int)
    | Refresh(hash: nat, expected: Option<nat>, active: bool, next: nat, now: int, issuedAt: int)

  function Step(s: State, e: Event): State {
    match e
    case TryLogin(scope, valid, seen, at) => Login(s, scope, valid, seen, at).0
    case IssuePair(user, tenant, hash, now) => Issue(s, user, tenant, None, hash, now).0
    case Refresh(hash, expected, active, next, now, issuedAt) => Rotate(s, hash, expected, active, next, now, issuedAt).0
  }

  function Run(s: State, es: seq<Event>): State {
    if es == [] then s else Step(Run(s, es[..|es| - 1]), es[|es| - 1])
  }

  const EMPTY := State([], [])
}
