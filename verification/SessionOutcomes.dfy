/** What the session handlers answer and what they leave in the table, column by column,
    and what an answer means for every later run (src/auth/auth.service.ts:395-493,
    src/sessions/sessions.service.ts:51-152, src/sessions/devices.service.ts:121-138). */
module SessionOutcomes {
  import opened Prelude
  import opened Sessions

  /** Session `i` answers for `token`: it is the token's own session, neither revoked nor
      expired, or the live successor of one revoked at most 15 seconds ago. */
  ghost predicate AnswersFor(s: State, token: nat, i: nat) {
    && token < |s.sessions| && i < |s.sessions|
    && s.sessions[i].revokedAt == None && s.now < s.sessions[i].expiresAt
    && (i == token
        || (&& s.sessions[token].replacedBy == Some(i)
            && s.sessions[token].revokedAt.Some?
            && s.now <= s.sessions[token].revokedAt.value + 15_000))
  }

  ghost predicate SomeAnswers(s: State, token: nat) {
    exists i: nat :: AnswersFor(s, token, i)
  }

  ghost predicate EnabledAnswers(s: State, token: nat) {
    exists i: nat :: AnswersFor(s, token, i) && s.sessions[i].user in s.enabled
  }

  /** Exactly the sessions of `chosen` have been revoked, now. */
  ghost predicate RevokesExactly(s: State, s': State, chosen: set<nat>) {
    && s'.now == s.now && s'.enabled == s.enabled && |s'.sessions| == |s.sessions|
    && forall i :: 0 <= i < |s.sessions| ==>
         s'.sessions[i] == if i in chosen then s.sessions[i].(revokedAt := Some(s.now)) else s.sessions[i]
  }

  lemma AnswerIsRotated(s: State, token: nat, i: nat)
    requires AnswersFor(s, token, i)
    ensures Rotatable(s, token) == Some(i)
  {
  }

  lemma RotatedAnswers(s: State, token: nat)
    requires Rotatable(s, token).Some?
    ensures AnswersFor(s, token, Rotatable(s, token).value)
  {
  }

  /** A pair is issued exactly when a session answers for the token and its user is enabled. */
  lemma PairIff(c: Config, s: State, token: nat)
    ensures RefreshStep(c, s, token).1.Pair? <==> EnabledAnswers(s, token)
    ensures RefreshStep(c, s, token).1.Pair? ==> RefreshStep(c, s, token).1 == Pair(|s.sessions|)
  {
    if i: nat :| AnswersFor(s, token, i) && s.sessions[i].user in s.enabled {
      AnswerIsRotated(s, token, i);
    }
    if RefreshStep(c, s, token).1.Pair? { RotatedAnswers(s, token); }
  }

  /** What a refresh that issues a pair leaves: the session that answered is revoked and
      linked, a new one for the same user and device ends the table, nothing else moves. */
  lemma PairTable(c: Config, s: State, token: nat, i: nat)
    requires AnswersFor(s, token, i) && s.sessions[i].user in s.enabled
    ensures var s', n := RefreshStep(c, s, token).0, |s.sessions|;
      && s'.now == s.now && s'.enabled == s.enabled && |s'.sessions| == n + 1
      && s'.sessions[i] == s.sessions[i].(revokedAt := Some(s.now), replacedBy := Some(n))
      && s'.sessions[n].user == s.sessions[i].user && s'.sessions[n].device == s.sessions[i].device
      && s'.sessions[n].createdAt == s.now && s'.sessions[n].expiresAt == s.now + c.lifetime
      && s'.sessions[n].revokedAt == None && s'.sessions[n].replacedBy == None
      && (forall k :: 0 <= k < n && k != i ==> s'.sessions[k] == s.sessions[k])
  {
    AnswerIsRotated(s, token, i);
  }

  /** What a refused refresh leaves. A disabled user loses the session that answered; a
      revoked token for which none answers costs its user every session; a token that is
      unknown or has only expired changes nothing. */
  lemma RefusalTable(c: Config, s: State, token: nat)
    requires !EnabledAnswers(s, token)
    ensures var s' := RefreshStep(c, s, token).0;
      && (forall i: nat :: AnswersFor(s, token, i) ==> s.sessions[i].user !in s.enabled && RevokesExactly(s, s', {i}))
      && (!SomeAnswers(s, token) && token < |s.sessions| && s.sessions[token].revokedAt.Some? ==>
            RevokesExactly(s, s', set i | 0 <= i < |s.sessions|
              && s.sessions[i].user == s.sessions[token].user && s.sessions[i].revokedAt == None))
      && (token >= |s.sessions| || (s.sessions[token].revokedAt == None && s.sessions[token].expiresAt <= s.now) ==>
            s' == s)
  {
    forall i: nat | AnswersFor(s, token, i)
      ensures s.sessions[i].user !in s.enabled && RevokesExactly(s, RefreshStep(c, s, token).0, {i})
    {
      AnswerIsRotated(s, token, i);
    }
    if Rotatable(s, token).Some? { RotatedAnswers(s, token); }
  }

  // ── Disabled accounts ─────────────────────────────────────────────────

  ghost predicate NeverEnabled(events: seq<Event>, user: nat) {
    forall i :: 0 <= i < |events| ==> events[i] != SetStatus(user, true)
  }

  lemma DisabledIsRefused(c: Config, s: State, e: Event, token: nat)
    requires Wf(c, s) && token < |s.sessions| && s.sessions[token].user !in s.enabled
    ensures Yields(c, s, e, token) == 0
  {
    assert LinkWf(s, token);
    PairIff(c, s, token);
  }

  lemma StepKeepsDisabled(c: Config, s: State, e: Event, token: nat)
    requires token < |s.sessions| && s.sessions[token].user !in s.enabled
    requires e != SetStatus(s.sessions[token].user, true)
    ensures var s' := Step(c, s, e);
      token < |s'.sessions| && s'.sessions[token].user == s.sessions[token].user
      && s'.sessions[token].user !in s'.enabled
  {
  }

  /** While an account stays disabled none of its tokens yields a pair, whatever happens. */
  lemma {:induction false} DisabledGetsNoPair(c: Config, s: State, events: seq<Event>, token: nat)
    requires c.Valid() && Wf(c, s) && token < |s.sessions| && s.sessions[token].user !in s.enabled
    requires NeverEnabled(events, s.sessions[token].user)
    ensures PairsFrom(c, s, events, token) == 0
    decreases |events|
  {
    if events != [] {
      DisabledIsRefused(c, s, events[0], token);
      StepKeepsWf(c, s, events[0]);
      assert events[0] != SetStatus(s.sessions[token].user, true);
      StepKeepsDisabled(c, s, events[0], token);
      assert forall i :: 0 <= i < |events[1..]| ==> events[1..][i] == events[i + 1];
      DisabledGetsNoPair(c, Step(c, s, events[0]), events[1..], token);
    }
  }

  /** What the last change of the account's status in a run says, if there is one. */
  function LastStatus(events: seq<Event>, user: nat): Option<bool> {
    if events == [] then None
    else
      var later := LastStatus(events[1..], user);
      if later.None? && events[0].SetStatus? && events[0].user == user then Some(events[0].active) else later
  }

  /** Handlers do not enable or disable an account: its status is the last one set. */
  lemma {:induction false} EnabledIsTheLastStatus(c: Config, s: State, events: seq<Event>, user: nat)
    ensures user in Run(c, s, events).enabled <==>
      match LastStatus(events, user) case Some(active) => active case None => user in s.enabled
    decreases |events|
  {
    if events != [] {
      EnabledIsTheLastStatus(c, Step(c, s, events[0]), events[1..], user);
    }
  }

  // ── The grace period ──────────────────────────────────────────────────

  lemma ThreeSteps(c: Config, s: State, a: Event, b: Event, d: Event, token: nat)
    ensures var one := Step(c, s, a); var two := Step(c, one, b);
      PairsFrom(c, s, [a, b, d], token) == Yields(c, s, a, token) + Yields(c, one, b, token) + Yields(c, two, d, token)
  {
    var one := Step(c, s, a);
    var two := Step(c, one, b);
    assert [a, b, d][1..] == [b, d] && [b, d][1..] == [d] && [d][1..] == [];
    assert PairsFrom(c, two, [d], token) == Yields(c, two, d, token) + PairsFrom(c, Step(c, two, d), [], token);
  }

  /** A live token of an enabled user presented twice, `elapsed` apart: the second
      presentation yields a pair exactly within 15 seconds (and the new session's life). */
  lemma SecondPairIff(c: Config, s: State, token: nat, elapsed: nat)
    requires c.Valid() && Wf(c, s) && AnswersFor(s, token, token) && s.sessions[token].user in s.enabled
    ensures PairsFrom(c, s, [Refresh(token), Advance(elapsed), Refresh(token)], token)
         == if elapsed <= 15_000 && elapsed < c.lifetime then 2 else 1
  {
    PairIff(c, s, token);
    PairTable(c, s, token, token);
    var one, n := RefreshStep(c, s, token).0, |s.sessions|;
    var two := one.(now := one.now + elapsed);
    assert AnswersFor(two, token, n) <==> elapsed <= 15_000 && elapsed < c.lifetime;
    assert forall i: nat :: AnswersFor(two, token, i) ==> i == n;
    PairIff(c, two, token);
    ThreeSteps(c, s, Refresh(token), Advance(elapsed), Refresh(token), token);
  }

  // ── Signing out for good ──────────────────────────────────────────────

  /** A token whose session and whose successor are revoked never yields a pair again. */
  lemma SpentForGood(c: Config, s: State, events: seq<Event>, token: nat)
    requires c.Valid() && Wf(c, s) && token < |s.sessions| && s.sessions[token].revokedAt.Some?
    requires s.sessions[token].replacedBy.Some? && s.sessions[token].replacedBy.value < |s.sessions| ==>
      s.sessions[s.sessions[token].replacedBy.value].revokedAt.Some?
    ensures PairsFrom(c, s, events, token) == 0
  {
    RunSpendsBudget(c, s, events, token);
  }

  /** Removing a device revokes its unrevoked sessions and unlinks all of them, and no
      other session changes. */
  lemma RemovedDeviceTable(s: State, device: nat)
    ensures var s' := RemoveDeviceStep(s, device);
      && s'.now == s.now && s'.enabled == s.enabled && |s'.sessions| == |s.sessions|
      && (forall i :: 0 <= i < |s.sessions| && s.sessions[i].device != Some(device) ==>
            s'.sessions[i] == s.sessions[i])
      && (forall i :: 0 <= i < |s.sessions| && s.sessions[i].device == Some(device) ==>
            && s'.sessions[i].device == None
            && s'.sessions[i].revokedAt ==
                 (if s.sessions[i].revokedAt == None then Some(s.now) else s.sessions[i].revokedAt)
            && s'.sessions[i] == s.sessions[i].(
                 device := s'.sessions[i].device, revokedAt := s'.sessions[i].revokedAt))
  {
  }

  /** Once a device is removed no token of its sessions, rotated or not, yields a pair in
      any run that follows. */
  lemma RemovedDeviceIsSignedOut(c: Config, s: State, device: nat, events: seq<Event>, token: nat)
    requires c.Valid() && Wf(c, s) && token < |s.sessions| && s.sessions[token].device == Some(device)
    ensures PairsFrom(c, RemoveDeviceStep(s, device), events, token) == 0
  {
    RemovedDeviceTable(s, device);
    RemoveDeviceKeepsWf(c, s, device);
    assert LinkWf(s, token);
    SpentForGood(c, RemoveDeviceStep(s, device), events, token);
  }

  lemma RevokedUserTable(s: State, user: nat)
    ensures RevokesExactly(s, RevokeAllForUser(s, user),
              set i | 0 <= i < |s.sessions| && s.sessions[i].user == user && s.sessions[i].revokedAt == None)
  {
  }

  /** After `revokeAllForUser` none of the user's tokens yields a pair in any run. */
  lemma RevokedUserIsSignedOut(c: Config, s: State, events: seq<Event>, token: nat)
    requires c.Valid() && Wf(c, s) && token < |s.sessions|
    ensures PairsFrom(c, RevokeAllForUser(s, s.sessions[token].user), events, token) == 0
  {
    var user := s.sessions[token].user;
    RevokedUserTable(s, user);
    RevokeWhereKeepsWf(c, s, Unrevoked(s, user));
    assert LinkWf(s, token);
    SpentForGood(c, RevokeAllForUser(s, user), events, token);
  }

  /** A replayed token ends every session its user had: no token issued so far yields a
      pair again. */
  lemma ReplayEndsEveryToken(c: Config, s: State, replayed: nat, events: seq<Event>, token: nat)
    requires c.Valid() && Wf(c, s) && replayed < |s.sessions| && s.sessions[replayed].revokedAt.Some?
    requires !SomeAnswers(s, replayed)
    requires token < |s.sessions| && s.sessions[token].user == s.sessions[replayed].user
    ensures RefreshStep(c, s, replayed).1 == Refused
    ensures PairsFrom(c, RefreshStep(c, s, replayed).0, events, token) == 0
  {
    if Rotatable(s, replayed).Some? { RotatedAnswers(s, replayed); }
    RevokedUserIsSignedOut(c, s, events, token);
  }

  /** A logout revokes exactly the session of a live token, for good; with any other token
      it changes nothing. */
  lemma LogoutEndsTheSession(c: Config, s: State, events: seq<Event>, token: nat)
    requires c.Valid() && Wf(c, s)
    ensures AnswersFor(s, token, token) ==>
      && RevokesExactly(s, LogoutStep(s, token), {token})
      && PairsFrom(c, LogoutStep(s, token), events, token) == 0
    ensures !AnswersFor(s, token, token) ==> LogoutStep(s, token) == s
  {
    if AnswersFor(s, token, token) {
      RevokeWhereKeepsWf(c, s, {token});
      assert LinkWf(s, token);
      SpentForGood(c, LogoutStep(s, token), events, token);
    }
  }

  lemma LoginRows(c: Config, s: State, user: nat, device: nat)
    requires c.Valid()
    ensures var s', n := IssueTokenPair(c, s, user, device), |s.sessions|;
      && |s'.sessions| == n + 1
      && s'.sessions[n] == Session(user, Some(device), s.now, s.now + c.lifetime, None, None)
      && (forall i :: 0 <= i < n ==>
            s'.sessions[i] == s.sessions[i] ||
            (ActiveFor(s, user, i) && s'.sessions[i] == s.sessions[i].(revokedAt := Some(s.now))))
  {
    EvictedSplit(c, s, user);
    forall i | i in Listed(Evicted(c, s, user)) ensures i < |s.sessions| && ActiveFor(s, user, i) {
      assert i in Active(s, user);
    }
  }

  /** A login ends the table with a session of the user on the device, signs out the oldest
      sessions if it must, and leaves the user with one active session more, up to the cap. */
  lemma LoginTable(c: Config, s: State, user: nat, device: nat)
    requires c.Valid() && Wf(c, s)
    ensures var s', n := IssueTokenPair(c, s, user, device), |s.sessions|;
      && |s'.sessions| == n + 1
      && s'.sessions[n] == Session(user, Some(device), s.now, s.now + c.lifetime, None, None)
      && (forall i :: 0 <= i < n ==>
            s'.sessions[i] == s.sessions[i] ||
            (ActiveFor(s, user, i) && s'.sessions[i] == s.sessions[i].(revokedAt := Some(s.now))))
      && n in Active(s', user)
      && |Active(s', user)| == (if |Active(s, user)| < c.maxSessions then |Active(s, user)| + 1 else c.maxSessions)
      && (forall other :: other != user ==> Active(s', other) == Active(s, other))
  {
    var limited := EnforceLimit(c, s, user);
    EnforceLimitEvictsTheOldest(c, s, user);
    LoginRows(c, s, user, device);
    CreatedIsActive(c, limited, user, Some(device), user);
    assert |s.sessions| !in Active(limited, user);
    forall other | other != user ensures Active(IssueTokenPair(c, s, user, device), other) == Active(s, other) {
      CreatedIsActive(c, limited, user, Some(device), other);
    }
  }
}
