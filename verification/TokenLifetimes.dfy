/** Redis keys whose lifetimes have to cover those of signed tokens
    (src/common/token-revocation/token-revocation.service.ts,
    src/auth/guards/jwt-auth.guard.ts, src/auth/auth.service.ts:313-391 and 931-968).

    Times are milliseconds. A signed token carries whole seconds: it is issued at
    the second it was signed in and is rejected from its `exp` second on (section
    4.1.4 of RFC 7519). A Redis key set for n seconds lives n * 1000 ms. */
module TokenLifetimes {
  import opened Prelude

  /** The second a JWT records for an instant. */
  function Seconds(t: nat): nat { t / 1000 }

  datatype Kind = Access | LoginChallenge

  datatype Token = Token(id: nat, user: nat, kind: Kind, exp: nat)

  const IMPERSONATION_SECONDS: nat := 600
  const CHALLENGE_SECONDS: nat := 600
  const MAX_CHALLENGE_ATTEMPTS: nat := 5

  function Sign(id: nat, user: nat, kind: Kind, now: nat, seconds: nat): Token {
    Token(id, user, kind, Seconds(now) + seconds)
  }

  predicate Unexpired(token: Token, now: nat) { Seconds(now) < token.exp }

  // ── Redis ─────────────────────────────────────────────────────────────

  /** `revoked` maps a user to the instant the key expires; `attempts` a challenge
      to its counter and the instant that expires. `compared` counts, for each
      challenge, the code comparisons made so far. */
  datatype State = State(now: nat, revoked: map<nat, nat>, attempts: map<nat, (nat, nat)>, compared: map<nat, nat>)

  datatype Event =
    | Revoke(user: nat)
    | Attempt(token: Token)
    | Advance(elapsed: nat)

  function RevokeStep(s: State, user: nat, ttl: nat): State {
    s.(revoked := s.revoked[user := s.now + 1000 * ttl])
  }

  predicate IsRevokedAt(revoked: map<nat, nat>, user: nat, now: nat) {
    user in revoked && now < revoked[user]
  }

  /** INCR of a counter that reads as zero once it is gone, and EXPIRE when the
      result is one. */
  function Incremented(attempts: map<nat, (nat, nat)>, id: nat, now: nat): (nat, nat) {
    var (count, expiry) := if id in attempts && now < attempts[id].1 then attempts[id] else (0, now);
    (count + 1, if count == 0 then now + 1000 * CHALLENGE_SECONDS else expiry)
  }

  function Compared(s: State, id: nat): nat { if id in s.compared then s.compared[id] else 0 }

  /** `verifyLogin` up to its code comparison. */
  function AttemptStep(s: State, token: Token): State {
    if !Unexpired(token, s.now) || token.kind != LoginChallenge then s
    else
      var counter := Incremented(s.attempts, token.id, s.now);
      var counted := s.(attempts := s.attempts[token.id := counter]);
      if counter.0 <= MAX_CHALLENGE_ATTEMPTS then
        counted.(compared := counted.compared[token.id := Compared(s, token.id) + 1])
      else counted
  }

  function Step(s: State, ttl: nat, e: Event): State {
    match e
    case Revoke(user) => RevokeStep(s, user, ttl)
    case Attempt(token) => AttemptStep(s, token)
    case Advance(elapsed) => s.(now := s.now + elapsed)
  }

  function Run(s: State, ttl: nat, events: seq<Event>): State
    decreases |events|
  {
    if events == [] then s else Run(Step(s, ttl, events[0]), ttl, events[1..])
  }

  /** The guard's verdict on a route that is not public. */
  predicate Admits(s: State, token: Token) {
    Unexpired(token, s.now) && token.kind == Access && !IsRevokedAt(s.revoked, token.user, s.now)
  }

  // ── Revocation covers every access token already issued ───────────────

  /** The user's key, if it has lapsed at all, lapsed no earlier than `until`. */
  predicate CoveredUntil(s: State, user: nat, until: nat) {
    user in s.revoked && s.revoked[user] >= until
  }

  lemma {:induction false} RunKeepsCover(s: State, ttl: nat, events: seq<Event>, user: nat, until: nat)
    requires CoveredUntil(s, user, until) && until <= s.now + 1000 * ttl
    ensures CoveredUntil(Run(s, ttl, events), user, until)
    ensures Run(s, ttl, events).now >= s.now
    decreases |events|
  {
    if events != [] {
      RunKeepsCover(Step(s, ttl, events[0]), ttl, events[1..], user, until);
    }
  }

  /** Every access token signed for at most the key's lifetime and no later than the
      revocation is rejected at every later instant, whatever happens in between:
      while the key lives by the key, afterwards by its own expiry. */
  lemma RevokedTokensStayRejected(s: State, ttl: nat, events: seq<Event>, id: nat, user: nat, signedAt: nat,
      seconds: nat)
    requires signedAt <= s.now && seconds <= ttl
    ensures !Admits(Run(RevokeStep(s, user, ttl), ttl, events), Sign(id, user, Access, signedAt, seconds))
  {
    RunKeepsCover(RevokeStep(s, user, ttl), ttl, events, user, s.now + 1000 * ttl);
    var t := Run(RevokeStep(s, user, ttl), ttl, events).now;
    if t >= s.now + 1000 * ttl {
      assert t / 1000 >= (s.now + 1000 * ttl) / 1000 == s.now / 1000 + ttl;
      assert s.now / 1000 >= signedAt / 1000;
    }
  }

  /** A token is rejected at `t` if its user was revoked at `r` and nothing else happened. */
  predicate RejectedAt(ttl: nat, seconds: nat, signedAt: nat, r: nat, t: nat)
    requires r <= t
  {
    var s := Run(RevokeStep(State(r, map[], map[], map[]), 0, ttl), ttl, [Advance(t - r)]);
    !Admits(s, Sign(0, 0, Access, signedAt, seconds))
  }

  /** Tokens of a fixed lifetime, such as impersonation tokens, are covered by a
      revocation exactly when the key lives at least as long. */
  lemma RevocationCoversIff(ttl: nat, seconds: nat)
    ensures (forall signedAt, r, t | signedAt <= r <= t :: RejectedAt(ttl, seconds, signedAt, r, t)) <==> seconds <= ttl
  {
    if seconds <= ttl {
      forall signedAt, r, t | signedAt <= r <= t ensures RejectedAt(ttl, seconds, signedAt, r, t) {
        RevokedTokensStayRejected(State(r, map[], map[], map[]), ttl, [Advance(t - r)], 0, 0, signedAt, seconds);
      }
    } else {
      var s := RevokeStep(State(0, map[], map[], map[]), 0, ttl);
      assert [Advance(1000 * ttl - 0)][1..] == [];
      assert Run(s, ttl, [Advance(1000 * ttl - 0)]) == s.(now := 1000 * ttl);
      assert !RejectedAt(ttl, seconds, 0, 0, 1000 * ttl);
    }
  }

  lemma ImpersonationCoveredIff(ttl: nat)
    ensures (forall signedAt, r, t | signedAt <= r <= t :: RejectedAt(ttl, IMPERSONATION_SECONDS, signedAt, r, t))
            <==> ttl >= 600
  {
    RevocationCoversIff(ttl, IMPERSONATION_SECONDS);
  }

  /** The last time the user is revoked in a run that begins at `now`. */
  function LastRevocation(now: nat, events: seq<Event>, user: nat): Option<nat>
    decreases |events|
  {
    if events == [] then None
    else
      var later := LastRevocation(if events[0].Advance? then now + events[0].elapsed else now, events[1..], user);
      if later.None? && events[0] == Revoke(user) then Some(now) else later
  }

  lemma {:induction false} KeyFollowsRevocations(s: State, ttl: nat, events: seq<Event>, user: nat)
    ensures var t, last := Run(s, ttl, events), LastRevocation(s.now, events, user);
      match last
      case Some(at) => user in t.revoked && t.revoked[user] == at + 1000 * ttl
      case None => (user in t.revoked <==> user in s.revoked)
                   && (user in s.revoked ==> t.revoked[user] == s.revoked[user])
    decreases |events|
  {
    if events != [] { KeyFollowsRevocations(Step(s, ttl, events[0]), ttl, events[1..], user); }
  }

  /** What the guard answers after any run, for a user without a key at its start: a token
      is admitted exactly if it is an access token, so never a login challenge, has not
      expired, and the last revocation is a key's lifetime ago. */
  lemma AdmittedIff(s: State, ttl: nat, events: seq<Event>, token: Token)
    requires token.user !in s.revoked
    ensures var t, last := Run(s, ttl, events), LastRevocation(s.now, events, token.user);
      Admits(t, token) <==>
        && token.kind == Access
        && t.now / 1000 < token.exp
        && (last.Some? ==> last.value + 1000 * ttl <= t.now)
  {
    KeyFollowsRevocations(s, ttl, events, token.user);
  }

  // ── One challenge, five comparisons ───────────────────────────────────

  /** The counter of a challenge signed at `signedAt` bounds its comparisons and
      outlives the challenge. */
  predicate Counted(s: State, id: nat, signedAt: nat) {
    && Compared(s, id) <= MAX_CHALLENGE_ATTEMPTS
    && (id !in s.attempts ==> Compared(s, id) == 0)
    && (id in s.attempts ==>
          && Compared(s, id) <= s.attempts[id].0
          && s.attempts[id].1 >= signedAt + 1000 * CHALLENGE_SECONDS)
  }

  /** Attempts in a run that present challenge `id` present the token signed then. */
  predicate Genuine(events: seq<Event>, token: Token) {
    forall i :: 0 <= i < |events| && events[i].Attempt? && events[i].token.id == token.id ==> events[i].token == token
  }

  lemma AttemptKeepsCounted(s: State, token: Token, id: nat, user: nat, signedAt: nat)
    requires signedAt <= s.now && Counted(s, id, signedAt)
    requires token.id == id ==> token == Sign(id, user, LoginChallenge, signedAt, CHALLENGE_SECONDS)
    ensures Counted(AttemptStep(s, token), id, signedAt)
  {
    if token.id == id && Unexpired(token, s.now) {
      assert s.now / 1000 < signedAt / 1000 + CHALLENGE_SECONDS;
      assert s.now < signedAt + 1000 * CHALLENGE_SECONDS;
    }
  }

  /** Over its whole validity, and over any run of anything else, one login
      challenge admits at most five code comparisons. */
  lemma {:induction false} AtMostFiveComparisons(s: State, ttl: nat, events: seq<Event>, id: nat, user: nat,
      signedAt: nat)
    requires signedAt <= s.now && Counted(s, id, signedAt)
    requires Genuine(events, Sign(id, user, LoginChallenge, signedAt, CHALLENGE_SECONDS))
    ensures Compared(Run(s, ttl, events), id) <= 5
    decreases |events|
  {
    if events != [] {
      if events[0].Attempt? { AttemptKeepsCounted(s, events[0].token, id, user, signedAt); }
      AtMostFiveComparisons(Step(s, ttl, events[0]), ttl, events[1..], id, user, signedAt);
    }
  }

  /** The bound is met: a fresh challenge tried five times at once is compared five times. */
  lemma FiveComparisonsHappen(s: State, ttl: nat, id: nat, user: nat)
    requires id !in s.attempts && id !in s.compared
    ensures var token := Sign(id, user, LoginChallenge, s.now, CHALLENGE_SECONDS);
      Compared(Run(s, ttl, seq(5, _ => Attempt(token))), id) == 5
  {
    var token := Sign(id, user, LoginChallenge, s.now, CHALLENGE_SECONDS);
    TriesAddUp(s, ttl, token, 0, 5);
  }

  lemma {:induction false} TriesAddUp(s: State, ttl: nat, token: Token, before: nat, n: nat)
    requires token.kind == LoginChallenge && Unexpired(token, s.now)
    requires Compared(s, token.id) == before && before + n <= MAX_CHALLENGE_ATTEMPTS
    requires if before == 0 then token.id !in s.attempts
             else token.id in s.attempts && s.attempts[token.id].0 == before && s.now < s.attempts[token.id].1
    ensures Compared(Run(s, ttl, seq(n, _ => Attempt(token))), token.id) == before + n
    decreases n
  {
    if n > 0 {
      var tries := seq(n, _ => Attempt(token));
      assert tries[1..] == seq(n - 1, _ => Attempt(token));
      TriesAddUp(AttemptStep(s, token), ttl, token, before + 1, n - 1);
    }
  }

  /** Presentations of a challenge before it expires. */
  function TimelyTries(now: nat, events: seq<Event>, token: Token): nat
    decreases |events|
  {
    if events == [] then 0
    else
      (if events[0] == Attempt(token) && now / 1000 < token.exp then 1 else 0)
      + TimelyTries(if events[0].Advance? then now + events[0].elapsed else now, events[1..], token)
  }

  /** So many tries have been counted and the first five of them compared. */
  predicate Tallied(s: State, id: nat, signedAt: nat, tries: nat) {
    && Compared(s, id) == Min(5, tries)
    && (tries == 0 ==> id !in s.attempts)
    && (tries > 0 ==>
          && id in s.attempts && s.attempts[id].0 == tries
          && s.attempts[id].1 >= signedAt + 1000 * CHALLENGE_SECONDS)
  }

  lemma AttemptIsTallied(s: State, token: Token, presented: Token, signedAt: nat, tries: nat)
    requires token == Sign(token.id, token.user, LoginChallenge, signedAt, CHALLENGE_SECONDS) && signedAt <= s.now
    requires presented.id == token.id ==> presented == token
    requires Tallied(s, token.id, signedAt, tries)
    ensures Tallied(AttemptStep(s, presented), token.id, signedAt,
                    tries + if presented == token && s.now / 1000 < token.exp then 1 else 0)
  {
    if presented == token && Unexpired(token, s.now) {
      assert s.now < signedAt + 1000 * CHALLENGE_SECONDS;
    }
  }

  /** Exactly the first five timely presentations of a challenge reach the code comparison,
      over any run. */
  lemma {:induction false} FirstFiveAreCompared(
    s: State, ttl: nat, events: seq<Event>, token: Token, signedAt: nat, tries: nat)
    requires token == Sign(token.id, token.user, LoginChallenge, signedAt, CHALLENGE_SECONDS) && signedAt <= s.now
    requires Genuine(events, token) && Tallied(s, token.id, signedAt, tries)
    ensures Compared(Run(s, ttl, events), token.id) == Min(5, tries + TimelyTries(s.now, events, token))
    decreases |events|
  {
    if events != [] {
      var s' := Step(s, ttl, events[0]);
      if events[0].Attempt? { AttemptIsTallied(s, token, events[0].token, signedAt, tries); }
      var more := if events[0] == Attempt(token) && s.now / 1000 < token.exp then 1 else 0;
      assert Genuine(events[1..], token) by {
        assert forall i :: 0 <= i < |events[1..]| ==> events[1..][i] == events[i + 1];
      }
      FirstFiveAreCompared(s', ttl, events[1..], token, signedAt, tries + more);
    }
  }

  /** A counter whose key has lapsed begins anew, with a whole lifetime ahead. */
  lemma LapsedCounterBeginsAnew(attempts: map<nat, (nat, nat)>, id: nat, now: nat)
    requires id in attempts ==> attempts[id].1 <= now
    ensures Incremented(attempts, id, now) == (1, now + 600_000)
  {
  }

  /** Other tokens, access tokens above all, and expired challenges leave no trace. */
  lemma OnlyLiveChallengesCount(s: State, token: Token)
    ensures AttemptStep(s, token) == s || (token.kind == LoginChallenge && s.now / 1000 < token.exp)
    ensures AttemptStep(s, token).now == s.now && AttemptStep(s, token).revoked == s.revoked
    ensures forall id :: id != token.id ==> Compared(AttemptStep(s, token), id) == Compared(s, id)
  {
  }

  // ── The services themselves ───────────────────────────────────────────

  class TokenRevocationService {
    const accessTokenTtlSeconds: nat
    var now: nat
    var revoked: map<nat, nat>
    var attempts: map<nat, (nat, nat)>
    var compared: map<nat, nat>

    constructor (accessTokenTtlSeconds: nat, now: nat)
      ensures this.accessTokenTtlSeconds == accessTokenTtlSeconds
      ensures Snapshot() == State(now, map[], map[], map[])
    {
      this.accessTokenTtlSeconds := accessTokenTtlSeconds;
      this.now := now;
      revoked, attempts, compared := map[], map[], map[];
    }

    function Snapshot(): State
      reads this
    {
      State(now, revoked, attempts, compared)
    }

    method RevokeUser(user: nat)
      modifies this`revoked
      ensures Snapshot() == RevokeStep(old(Snapshot()), user, accessTokenTtlSeconds)
    {
      revoked := revoked[user := now + 1000 * accessTokenTtlSeconds];
    }

    method IsRevoked(user: nat) returns (exists_: bool)
      ensures exists_ == IsRevokedAt(revoked, user, now)
    {
      exists_ := user in revoked && now < revoked[user];
    }

    method RegisterChallengeAttempt(id: nat) returns (within: bool)
      modifies this`attempts
      ensures attempts == old(attempts)[id := Incremented(old(attempts), id, now)]
      ensures within <==> attempts[id].0 <= MAX_CHALLENGE_ATTEMPTS
    {
      var key: (nat, nat) := if id in attempts && now < attempts[id].1 then attempts[id] else (0, now);
      var count: nat := key.0 + 1;
      attempts := attempts[id := (count, key.1)];
      if count == 1 {
        attempts := attempts[id := (count, now + 1000 * CHALLENGE_SECONDS)];
      }
      within := count <= MAX_CHALLENGE_ATTEMPTS;
    }

    /** `verifyLogin`: signature and expiry, type, attempt cap, then the comparison. */
    method VerifyLogin(token: Token, codeMatches: bool) returns (accepted: bool)
      modifies this`attempts, this`compared
      ensures Snapshot() == AttemptStep(old(Snapshot()), token)
      ensures accepted ==> codeMatches && Compared(Snapshot(), token.id) == Compared(old(Snapshot()), token.id) + 1
    {
      if now / 1000 >= token.exp { return false; }
      if token.kind != LoginChallenge { return false; }
      var within := RegisterChallengeAttempt(token.id);
      if !within { return false; }
      compared := compared[token.id := Compared(Snapshot(), token.id) + 1];
      return codeMatches;
    }

    /** `JwtAuthGuard.canActivate`. */
    method CanActivate(isPublic: bool, bearer: Option<Token>) returns (allowed: bool)
      ensures allowed <==> isPublic || (bearer.Some? && Admits(Snapshot(), bearer.value))
    {
      if isPublic { return true; }
      if bearer.None? { return false; }
      var token := bearer.value;
      if now / 1000 >= token.exp { return false; }
      if token.kind != Access { return false; }
      var isRevoked := IsRevoked(token.user);
      return !isRevoked;
    }
  }
}
