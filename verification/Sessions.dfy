/** Refresh-token sessions: rotation, the concurrent-refresh grace rule, the theft
    response and the session cap (src/sessions/sessions.service.ts,
    src/auth/auth.service.ts, src/sessions/devices.service.ts). Each handler is one
    step; refreshes and logins interleaved call by call are in InterleavedRotation.

    A raw token names the one session whose hash it matches, so tokens are session
    numbers, and a number no session has yet is an unknown token. Times are in
    milliseconds. */
module Sessions {
  import opened Prelude

  datatype Session = Session(
    user: nat, device: Option<nat>, createdAt: int, expiresAt: int,
    revokedAt: Option<int>, replacedBy: Option<nat>)

  /** `maxSessions` is MAX_TRUSTED_DEVICES and `lifetime` REFRESH_TOKEN_EXPIRY_DAYS,
      both validated to be at least one when the service starts. */
  datatype Config = Config(maxSessions: nat, lifetime: nat) {
    predicate Valid() { maxSessions >= 1 && lifetime >= 1 }
  }

  const GRACE: int := 15_000

  datatype State = State(now: int, sessions: seq<Session>, enabled: set<nat>)

  datatype Outcome = Pair(session: nat) | Refused

  datatype Event =
    | Login(user: nat, device: nat)
    | Refresh(token: nat)
    | Logout(token: nat)
    | RevokeUser(user: nat)
    | RemoveDevice(device: nat)
    | SetStatus(user: nat, active: bool)
    | Advance(elapsed: nat)

  // ── Sessions table ────────────────────────────────────────────────────

  predicate Live(session: Session, now: int) {
    session.revokedAt.None? && session.expiresAt > now
  }

  predicate ActiveFor(s: State, user: nat, i: nat)
    requires i < |s.sessions|
  {
    s.sessions[i].user == user && Live(s.sessions[i], s.now)
  }

  function ActiveBelow(s: State, user: nat, n: nat): set<nat>
    requires n <= |s.sessions|
  {
    set i | 0 <= i < n && ActiveFor(s, user, i)
  }

  function Active(s: State, user: nat): set<nat> { ActiveBelow(s, user, |s.sessions|) }

  /** The active sessions of a user among the first `n`, oldest first. */
  function OldestFirst(s: State, user: nat, n: nat): seq<nat>
    requires n <= |s.sessions|
  {
    if n == 0 then []
    else OldestFirst(s, user, n - 1) + if ActiveFor(s, user, n - 1) then [n - 1] else []
  }

  function RevokeWhere(s: State, chosen: set<nat>): State {
    s.(sessions := seq(|s.sessions|, i requires 0 <= i < |s.sessions| =>
         if i in chosen then s.sessions[i].(revokedAt := Some(s.now)) else s.sessions[i]))
  }

  function Listed(s: seq<nat>): set<nat> { set i | i in s }

  // ── Handlers ──────────────────────────────────────────────────────────

  /** The sessions `enforceLimit` signs out: the oldest ones, as many as needed to
      make room for one more. */
  function Evicted(c: Config, s: State, user: nat): seq<nat> {
    var active := OldestFirst(s, user, |s.sessions|);
    var overBy := |active| - c.maxSessions + 1;
    if overBy <= 0 then [] else if overBy <= |active| then active[..overBy] else active
  }

  function EnforceLimit(c: Config, s: State, user: nat): State {
    RevokeWhere(s, Listed(Evicted(c, s, user)))
  }

  function Create(c: Config, s: State, user: nat, device: Option<nat>): State {
    s.(sessions := s.sessions + [Session(user, device, s.now, s.now + c.lifetime, None, None)])
  }

  function IssueTokenPair(c: Config, s: State, user: nat, device: nat): State {
    Create(c, EnforceLimit(c, s, user), user, Some(device))
  }

  function Rotate(c: Config, s: State, i: nat): State
    requires i < |s.sessions|
  {
    var created := Create(c, s, s.sessions[i].user, s.sessions[i].device);
    created.(sessions := created.sessions[i :=
      created.sessions[i].(revokedAt := Some(s.now), replacedBy := Some(|s.sessions|))])
  }

  function Unrevoked(s: State, user: nat): set<nat> {
    set i | 0 <= i < |s.sessions| && s.sessions[i].user == user && s.sessions[i].revokedAt.None?
  }

  function RevokeAllForUser(s: State, user: nat): State { RevokeWhere(s, Unrevoked(s, user)) }

  /** A revoked token whose successor may still be rotated in its place. */
  predicate GraceApplies(s: State, token: nat) {
    && token < |s.sessions|
    && var session := s.sessions[token];
    && session.revokedAt.Some? && session.replacedBy.Some?
    && s.now - session.revokedAt.value <= GRACE
    && session.replacedBy.value < |s.sessions|
    && Live(s.sessions[session.replacedBy.value], s.now)
  }

  /** The session a presented token will rotate, if any. */
  function Rotatable(s: State, token: nat): (i: Option<nat>)
    ensures i.Some? ==> i.value < |s.sessions| && Live(s.sessions[i.value], s.now)
  {
    if token < |s.sessions| && Live(s.sessions[token], s.now) then Some(token)
    else if GraceApplies(s, token) then s.sessions[token].replacedBy
    else None
  }

  function RefreshStep(c: Config, s: State, token: nat): (State, Outcome) {
    match Rotatable(s, token)
    case None =>
      if token < |s.sessions| && s.sessions[token].revokedAt.Some? then
        (RevokeAllForUser(s, s.sessions[token].user), Refused)
      else (s, Refused)
    case Some(i) =>
      if s.sessions[i].user !in s.enabled then (RevokeWhere(s, {i}), Refused)
      else (Rotate(c, s, i), Pair(|s.sessions|))
  }

  function LogoutStep(s: State, token: nat): State {
    if token < |s.sessions| && Live(s.sessions[token], s.now) then RevokeWhere(s, {token}) else s
  }

  function OnDevice(s: State, device: nat): set<nat> {
    set i | 0 <= i < |s.sessions| && s.sessions[i].device == Some(device) && s.sessions[i].revokedAt.None?
  }

  /** What `onDelete: SetNull` does to the sessions of a deleted device. */
  function Unlink(s: State, device: nat): State {
    s.(sessions := seq(|s.sessions|, i requires 0 <= i < |s.sessions| =>
         if s.sessions[i].device == Some(device) then s.sessions[i].(device := None) else s.sessions[i]))
  }

  function RemoveDeviceStep(s: State, device: nat): State {
    Unlink(RevokeWhere(s, OnDevice(s, device)), device)
  }

  function Step(c: Config, s: State, e: Event): State {
    match e
    case Login(user, device) => IssueTokenPair(c, s, user, device)
    case Refresh(token) => RefreshStep(c, s, token).0
    case Logout(token) => LogoutStep(s, token)
    case RevokeUser(user) => RevokeAllForUser(s, user)
    case RemoveDevice(device) => RemoveDeviceStep(s, device)
    case SetStatus(user, active) => s.(enabled := if active then s.enabled + {user} else s.enabled - {user})
    case Advance(elapsed) => s.(now := s.now + elapsed)
  }

  function Run(c: Config, s: State, events: seq<Event>): State
    decreases |events|
  {
    if events == [] then s else Run(c, Step(c, s, events[0]), events[1..])
  }

  // ── Rotation links ────────────────────────────────────────────────────

  /** Links lead to later sessions of the same user and device that expire no earlier, from
      sessions that are revoked; no two sessions share a successor; ids follow the
      order of creation. */
  ghost predicate LinkWf(s: State, i: nat)
    requires i < |s.sessions|
  {
    && s.sessions[i].createdAt <= s.now
    && (s.sessions[i].revokedAt.Some? ==> s.sessions[i].revokedAt.value <= s.now)
    && (s.sessions[i].replacedBy.Some? ==>
          var j := s.sessions[i].replacedBy.value;
          && i < j < |s.sessions|
          && s.sessions[j].user == s.sessions[i].user
          && s.sessions[j].device == s.sessions[i].device
          && s.sessions[i].expiresAt <= s.sessions[j].expiresAt
          && s.sessions[i].revokedAt.Some?)
  }

  ghost predicate Wf(c: Config, s: State) {
    && (forall i {:trigger s.sessions[i]} :: 0 <= i < |s.sessions| ==>
          LinkWf(s, i) && s.sessions[i].expiresAt == s.sessions[i].createdAt + c.lifetime)
    && (forall i, j :: 0 <= i < j < |s.sessions| ==> s.sessions[i].createdAt <= s.sessions[j].createdAt)
    && (forall i, j :: 0 <= i < j < |s.sessions| && s.sessions[i].replacedBy.Some? ==>
          s.sessions[i].replacedBy != s.sessions[j].replacedBy)
  }

  /** Every user is within the cap. */
  ghost predicate Capped(c: Config, s: State) {
    forall user {:trigger Active(s, user)} :: |Active(s, user)| <= c.maxSessions
  }

  lemma RevokeWhereKeepsWf(c: Config, s: State, chosen: set<nat>)
    requires Wf(c, s)
    ensures Wf(c, RevokeWhere(s, chosen))
  {
    var s' := RevokeWhere(s, chosen);
    forall i | 0 <= i < |s'.sessions|
      ensures LinkWf(s', i) && s'.sessions[i].expiresAt == s'.sessions[i].createdAt + c.lifetime
    {
      assert LinkWf(s, i);
    }
  }

  lemma CreateKeepsWf(c: Config, s: State, user: nat, device: Option<nat>)
    requires Wf(c, s)
    ensures Wf(c, Create(c, s, user, device))
  {
    var s' := Create(c, s, user, device);
    forall i | 0 <= i < |s'.sessions|
      ensures LinkWf(s', i) && s'.sessions[i].expiresAt == s'.sessions[i].createdAt + c.lifetime
    {
      if i < |s.sessions| { assert LinkWf(s, i); }
    }
    forall i, j | 0 <= i < j < |s'.sessions| ensures s'.sessions[i].createdAt <= s'.sessions[j].createdAt {
      assert LinkWf(s, i);
    }
    forall i, j | 0 <= i < j < |s'.sessions| && s'.sessions[i].replacedBy.Some?
      ensures s'.sessions[i].replacedBy != s'.sessions[j].replacedBy
    {
      assert LinkWf(s, i);
    }
  }

  /** Linking a session to a newer one of its user that nobody links to yet. */
  lemma LinkKeepsWf(c: Config, s: State, i: nat, incoming: nat)
    requires Wf(c, s) && i < incoming < |s.sessions|
    requires s.sessions[incoming].user == s.sessions[i].user && s.sessions[incoming].device == s.sessions[i].device
    requires forall k :: 0 <= k < |s.sessions| ==> s.sessions[k].replacedBy != Some(incoming)
    ensures Wf(c, s.(sessions :=
        s.sessions[i := s.sessions[i].(revokedAt := Some(s.now), replacedBy := Some(incoming))]))
  {
    var s' := s.(sessions := s.sessions[i := s.sessions[i].(revokedAt := Some(s.now), replacedBy := Some(incoming))]);
    assert LinkWf(s, i) && LinkWf(s, incoming);
    forall k | 0 <= k < |s'.sessions|
      ensures LinkWf(s', k) && s'.sessions[k].expiresAt == s'.sessions[k].createdAt + c.lifetime
    {
      assert LinkWf(s, k);
    }
  }

  lemma RotateKeepsWf(c: Config, s: State, i: nat)
    requires Wf(c, s) && i < |s.sessions|
    ensures Wf(c, Rotate(c, s, i))
  {
    CreateKeepsWf(c, s, s.sessions[i].user, s.sessions[i].device);
    forall k | 0 <= k < |s.sessions| ensures s.sessions[k].replacedBy != Some(|s.sessions|) {
      assert LinkWf(s, k);
    }
    LinkKeepsWf(c, Create(c, s, s.sessions[i].user, s.sessions[i].device), i, |s.sessions|);
  }

  lemma UnlinkKeepsWf(c: Config, s: State, device: nat)
    requires Wf(c, s)
    ensures Wf(c, Unlink(s, device))
  {
    var s' := Unlink(s, device);
    forall i | 0 <= i < |s'.sessions|
      ensures LinkWf(s', i) && s'.sessions[i].expiresAt == s'.sessions[i].createdAt + c.lifetime
    {
      assert LinkWf(s, i);
    }
  }

  lemma RemoveDeviceKeepsWf(c: Config, s: State, device: nat)
    requires Wf(c, s)
    ensures Wf(c, RemoveDeviceStep(s, device))
  {
    RevokeWhereKeepsWf(c, s, OnDevice(s, device));
    UnlinkKeepsWf(c, RevokeWhere(s, OnDevice(s, device)), device);
  }

  lemma RefreshKeepsWf(c: Config, s: State, token: nat)
    requires Wf(c, s)
    ensures Wf(c, RefreshStep(c, s, token).0)
  {
    match Rotatable(s, token)
    case None =>
      if token < |s.sessions| { RevokeWhereKeepsWf(c, s, Unrevoked(s, s.sessions[token].user)); }
    case Some(i) =>
      RevokeWhereKeepsWf(c, s, {i});
      RotateKeepsWf(c, s, i);
  }

  lemma StepKeepsWf(c: Config, s: State, e: Event)
    requires Wf(c, s)
    ensures Wf(c, Step(c, s, e))
  {
    match e
    case Login(user, device) =>
      RevokeWhereKeepsWf(c, s, Listed(Evicted(c, s, user)));
      CreateKeepsWf(c, EnforceLimit(c, s, user), user, Some(device));
    case Refresh(token) => RefreshKeepsWf(c, s, token);
    case Logout(token) => RevokeWhereKeepsWf(c, s, {token});
    case RevokeUser(user) => RevokeWhereKeepsWf(c, s, Unrevoked(s, user));
    case RemoveDevice(device) => RemoveDeviceKeepsWf(c, s, device);
    case SetStatus(_, _) =>
      var s' := Step(c, s, e);
      assert forall i :: 0 <= i < |s.sessions| ==> (LinkWf(s, i) <==> LinkWf(s', i));
    case Advance(_) =>
      var s' := Step(c, s, e);
      assert forall i :: 0 <= i < |s.sessions| ==> (LinkWf(s, i) ==> LinkWf(s', i));
  }

  /** The last session of the rotation path through `i`. */
  function Last(s: State, i: nat): nat
    requires i < |s.sessions|
    decreases |s.sessions| - i
  {
    match s.sessions[i].replacedBy
    case Some(j) => if i < j < |s.sessions| then Last(s, j) else i
    case None => i
  }

  /** Rotation paths go forward, keep the user, never shorten the expiry, and only
      their last session can be unrevoked; paths that meet are one path. */
  lemma {:induction false} PathFacts(c: Config, s: State, i: nat)
    requires Wf(c, s) && i < |s.sessions|
    ensures var last := Last(s, i);
      && i <= last < |s.sessions|
      && s.sessions[last].replacedBy.None?
      && s.sessions[last].user == s.sessions[i].user
      && s.sessions[i].expiresAt <= s.sessions[last].expiresAt
      && (i != last ==> s.sessions[i].revokedAt.Some?)
    ensures forall k :: 0 <= k < |s.sessions| && k != i && s.sessions[k].replacedBy.Some? ==>
              s.sessions[k].replacedBy != s.sessions[i].replacedBy
    decreases |s.sessions| - i
  {
    assert LinkWf(s, i);
    if s.sessions[i].replacedBy.Some? {
      PathFacts(c, s, s.sessions[i].replacedBy.value);
    }
  }

  // ── The session cap ───────────────────────────────────────────────────

  ghost predicate Increasing(list: seq<nat>) {
    forall a, b :: 0 <= a < b < |list| ==> list[a] < list[b]
  }

  lemma {:induction false} IncreasingSize(list: seq<nat>)
    requires Increasing(list)
    ensures |Listed(list)| == |list|
  {
    if list != [] {
      var init, last := list[..|list| - 1], list[|list| - 1];
      IncreasingSize(init);
      assert list == init + [last];
      assert Listed(list) == Listed(init) + {last};
      assert last !in Listed(init);
    }
  }

  lemma {:induction false} OldestFirstLists(s: State, user: nat, n: nat)
    requires n <= |s.sessions|
    ensures Listed(OldestFirst(s, user, n)) == ActiveBelow(s, user, n)
  {
    if n > 0 {
      OldestFirstLists(s, user, n - 1);
      if ActiveFor(s, user, n - 1) {
        assert ActiveBelow(s, user, n) == ActiveBelow(s, user, n - 1) + {n - 1};
        assert Listed(OldestFirst(s, user, n - 1) + [n - 1]) == Listed(OldestFirst(s, user, n - 1)) + {n - 1};
      } else {
        assert ActiveBelow(s, user, n) == ActiveBelow(s, user, n - 1);
      }
    }
  }

  lemma {:induction false} OldestFirstIncreases(s: State, user: nat, n: nat)
    requires n <= |s.sessions|
    ensures Increasing(OldestFirst(s, user, n))
    ensures forall a :: 0 <= a < |OldestFirst(s, user, n)| ==> OldestFirst(s, user, n)[a] < n
  {
    if n > 0 { OldestFirstIncreases(s, user, n - 1); }
  }

  lemma SubsetSize(a: set<nat>, b: set<nat>)
    requires a <= b
    ensures |a| <= |b|
  {
    assert b == a + (b - a);
  }

  lemma RevokedAreInactive(s: State, chosen: set<nat>, user: nat)
    ensures Active(RevokeWhere(s, chosen), user) == Active(s, user) - chosen
  {
    var s' := RevokeWhere(s, chosen);
    forall i | 0 <= i < |s.sessions|
      ensures ActiveFor(s', user, i) <==> ActiveFor(s, user, i) && i !in chosen
    {
    }
  }

  lemma SplitIncreasing(list: seq<nat>, k: nat)
    requires Increasing(list) && k <= |list|
    ensures Listed(list) - Listed(list[..k]) == Listed(list[k..])
    ensures |Listed(list[k..])| == |list| - k
    ensures forall low, high :: low in Listed(list[..k]) && high in Listed(list[k..]) ==> low < high
  {
    var front, back := list[..k], list[k..];
    assert list == front + back;
    forall low, high | low in front && high in back ensures low < high {
      var a :| 0 <= a < |front| && front[a] == low;
      var b :| 0 <= b < |back| && back[b] == high;
      assert list[a] < list[k + b];
    }
    IncreasingSize(back);
    assert forall p :: p in list <==> p in front || p in back;
  }

  /** The part of the table `enforceLimit` touches and what it leaves. */
  lemma EvictedSplit(c: Config, s: State, user: nat)
    requires c.Valid()
    ensures var gone, before := Listed(Evicted(c, s, user)), Active(s, user);
      && gone <= before
      && |before - gone| == (if |before| < c.maxSessions then |before| else c.maxSessions - 1)
      && (forall low, high :: low in gone && high in before - gone ==> low < high)
  {
    var list, gone := OldestFirst(s, user, |s.sessions|), Evicted(c, s, user);
    OldestFirstLists(s, user, |s.sessions|);
    OldestFirstIncreases(s, user, |s.sessions|);
    IncreasingSize(list);
    assert gone == list[..|gone|];
    SplitIncreasing(list, |gone|);
  }

  lemma OthersKeepTheirs(s: State, chosen: set<nat>, user: nat, other: nat)
    requires chosen <= Active(s, user) && other != user
    ensures Active(RevokeWhere(s, chosen), other) == Active(s, other)
  {
    RevokedAreInactive(s, chosen, other);
  }

  /** `enforceLimit` signs out exactly the oldest active sessions: nothing when
      there is room, otherwise what it takes to leave one place free, and every
      session it signs out was created no later than every one it keeps. */
  lemma EnforceLimitEvictsTheOldest(c: Config, s: State, user: nat)
    requires c.Valid() && Wf(c, s)
    ensures var before, after := Active(s, user), Active(EnforceLimit(c, s, user), user);
      && after <= before
      && |after| == (if |before| < c.maxSessions then |before| else c.maxSessions - 1)
      && (forall gone, kept :: gone in before - after && kept in after ==>
            gone < kept && s.sessions[gone].createdAt <= s.sessions[kept].createdAt)
    ensures forall other :: other != user ==> Active(EnforceLimit(c, s, user), other) == Active(s, other)
  {
    var before, chosen := Active(s, user), Listed(Evicted(c, s, user));
    EvictedSplit(c, s, user);
    RevokedAreInactive(s, chosen, user);
    assert before - (before - chosen) == chosen;
    forall other | other != user ensures Active(EnforceLimit(c, s, user), other) == Active(s, other) {
      OthersKeepTheirs(s, chosen, user, other);
    }
  }

  lemma CreatedIsActive(c: Config, s: State, user: nat, device: Option<nat>, other: nat)
    requires c.Valid()
    ensures Active(Create(c, s, user, device), other)
         == Active(s, other) + if other == user then {|s.sessions|} else {}
  {
    var s' := Create(c, s, user, device);
    assert forall i :: 0 <= i < |s.sessions| ==> (ActiveFor(s', other, i) <==> ActiveFor(s, other, i));
  }

  lemma RotatedSet(c: Config, s: State, i: nat, other: nat)
    requires c.Valid() && i < |s.sessions|
    ensures Active(Rotate(c, s, i), other)
         == (Active(s, other) - {i}) + if other == s.sessions[i].user then {|s.sessions|} else {}
  {
    var s' := Rotate(c, s, i);
    forall k | 0 <= k < |s'.sessions|
      ensures ActiveFor(s', other, k) <==>
                (k < |s.sessions| && k != i && ActiveFor(s, other, k))
                    || (k == |s.sessions| && other == s.sessions[i].user)
    {
    }
  }

  /** A rotation replaces one active session by one of the same user. */
  lemma RotatedActive(c: Config, s: State, i: nat, other: nat)
    requires c.Valid() && i < |s.sessions| && Live(s.sessions[i], s.now)
    ensures |Active(Rotate(c, s, i), other)| == |Active(s, other)|
  {
    RotatedSet(c, s, i, other);
    assert |s.sessions| !in Active(s, other);
    if other == s.sessions[i].user {
      assert i in Active(s, other);
    } else {
      assert i !in Active(s, other);
      assert Active(s, other) - {i} == Active(s, other);
    }
  }

  /** No handler takes a user beyond the cap, or further beyond it. */
  lemma StepStaysWithin(c: Config, s: State, e: Event, user: nat)
    requires c.Valid() && Wf(c, s)
    ensures |Active(Step(c, s, e), user)| <= c.maxSessions || |Active(Step(c, s, e), user)| <= |Active(s, user)|
  {
    match e
    case Login(who, device) =>
      EnforceLimitEvictsTheOldest(c, s, who);
      CreatedIsActive(c, EnforceLimit(c, s, who), who, Some(device), user);
    case Refresh(token) =>
      match Rotatable(s, token) {
        case None =>
          if token < |s.sessions| {
            RevokedAreInactive(s, Unrevoked(s, s.sessions[token].user), user);
            SubsetSize(Active(s, user) - Unrevoked(s, s.sessions[token].user), Active(s, user));
          }
        case Some(i) =>
          RotatedActive(c, s, i, user);
          RevokedAreInactive(s, {i}, user);
          SubsetSize(Active(s, user) - {i}, Active(s, user));
      }
    case _ =>
      ShrinkingStep(c, s, e, user);
      SubsetSize(Active(Step(c, s, e), user), Active(s, user));
  }

  lemma StepKeepsCapped(c: Config, s: State, e: Event)
    requires c.Valid() && Wf(c, s) && Capped(c, s)
    ensures Capped(c, Step(c, s, e))
  {
    forall user ensures |Active(Step(c, s, e), user)| <= c.maxSessions {
      StepStaysWithin(c, s, e, user);
    }
  }

  lemma ShrinkingStep(c: Config, s: State, e: Event, user: nat)
    requires !e.Login? && !e.Refresh?
    ensures Active(Step(c, s, e), user) <= Active(s, user)
  {
    match e
    case Logout(token) => RevokedAreInactive(s, {token}, user);
    case RevokeUser(who) => RevokedAreInactive(s, Unrevoked(s, who), user);
    case RemoveDevice(device) =>
      var revoked := RevokeWhere(s, OnDevice(s, device));
      RevokedAreInactive(s, OnDevice(s, device), user);
      assert forall i :: 0 <= i < |s.sessions| ==>
        (ActiveFor(Unlink(revoked, device), user, i) <==> ActiveFor(revoked, user, i));
    case SetStatus(_, _) =>
      assert forall i :: 0 <= i < |s.sessions| ==> (ActiveFor(Step(c, s, e), user, i) <==> ActiveFor(s, user, i));
    case Advance(_) =>
      assert forall i :: 0 <= i < |s.sessions| ==> (ActiveFor(Step(c, s, e), user, i) ==> ActiveFor(s, user, i));
  }

  /** Over any run of handlers no user ever has more active sessions than the cap,
      and the rotation links stay well-formed. */
  lemma {:induction false} SessionCapHolds(c: Config, s: State, events: seq<Event>, user: nat)
    requires c.Valid() && Wf(c, s) && Capped(c, s)
    ensures Wf(c, Run(c, s, events))
    ensures |Active(Run(c, s, events), user)| <= c.maxSessions
    decreases |events|
  {
    if events != [] {
      StepKeepsWf(c, s, events[0]);
      StepKeepsCapped(c, s, events[0]);
      SessionCapHolds(c, Step(c, s, events[0]), events[1..], user);
    }
  }

  /** The state of a new installation. */
  lemma EmptyStateIsWf(c: Config, now: int, enabled: set<nat>)
    ensures Wf(c, State(now, [], enabled)) && Capped(c, State(now, [], enabled))
  {
    assert forall user :: Active(State(now, [], enabled), user) == {};
  }

  // ── How often one refresh token can be used ───────────────────────────

  /** Token pairs a token can still yield: one as an active session, one through
      the grace link while its successor is unrevoked. */
  function Budget(s: State, token: nat): nat {
    if token >= |s.sessions| || s.sessions[token].revokedAt.None? then 2
    else match s.sessions[token].replacedBy
      case Some(j) => if j < |s.sessions| && s.sessions[j].revokedAt.None? then 1 else 0
      case None => 0
  }

  function Yields(c: Config, s: State, e: Event, token: nat): nat {
    if e == Refresh(token) && RefreshStep(c, s, token).1.Pair? then 1 else 0
  }

  lemma RevokingShrinksBudget(c: Config, s: State, chosen: set<nat>, token: nat)
    requires Wf(c, s)
    ensures Budget(RevokeWhere(s, chosen), token) <= Budget(s, token)
  {
    if token < |s.sessions| { assert LinkWf(s, token); }
  }

  lemma RotatingShrinksBudget(c: Config, s: State, i: nat, token: nat)
    requires Wf(c, s) && i < |s.sessions| && Live(s.sessions[i], s.now)
    ensures Budget(Rotate(c, s, i), token) <= Budget(s, token)
    ensures token == i || (token < |s.sessions| && s.sessions[token].replacedBy == Some(i)) ==>
              Budget(Rotate(c, s, i), token) < Budget(s, token)
  {
    if token < |s.sessions| { assert LinkWf(s, token); }
  }

  lemma StepSpendsBudget(c: Config, s: State, e: Event, token: nat)
    requires c.Valid() && Wf(c, s)
    ensures Yields(c, s, e, token) + Budget(Step(c, s, e), token) <= Budget(s, token)
  {
    match e
    case Login(user, device) =>
      RevokingShrinksBudget(c, s, Listed(Evicted(c, s, user)), token);
      RevokeWhereKeepsWf(c, s, Listed(Evicted(c, s, user)));
      CreatingKeepsBudget(c, EnforceLimit(c, s, user), user, Some(device), token);
    case Refresh(presented) => RefreshSpendsBudget(c, s, presented, token);
    case Logout(presented) => RevokingShrinksBudget(c, s, {presented}, token);
    case RevokeUser(user) => RevokingShrinksBudget(c, s, Unrevoked(s, user), token);
    case RemoveDevice(device) =>
      RevokingShrinksBudget(c, s, OnDevice(s, device), token);
      assert Budget(Unlink(RevokeWhere(s, OnDevice(s, device)), device), token)
          == Budget(RevokeWhere(s, OnDevice(s, device)), token);
    case SetStatus(_, _) =>
    case Advance(_) =>
  }

  lemma CreatingKeepsBudget(c: Config, s: State, user: nat, device: Option<nat>, token: nat)
    requires Wf(c, s)
    ensures Budget(Create(c, s, user, device), token) <= Budget(s, token)
  {
    if token < |s.sessions| { assert LinkWf(s, token); }
  }

  lemma RefreshSpendsBudget(c: Config, s: State, presented: nat, token: nat)
    requires c.Valid() && Wf(c, s)
    ensures Yields(c, s, Refresh(presented), token) + Budget(RefreshStep(c, s, presented).0, token) <= Budget(s, token)
  {
    match Rotatable(s, presented)
    case None =>
      if presented < |s.sessions| { RevokingShrinksBudget(c, s, Unrevoked(s, s.sessions[presented].user), token); }
    case Some(i) =>
      RevokingShrinksBudget(c, s, {i}, token);
      RotatingShrinksBudget(c, s, i, token);
  }

  /** Token pairs handed out for `token` during a run. */
  function PairsFrom(c: Config, s: State, events: seq<Event>, token: nat): nat
    decreases |events|
  {
    if events == [] then 0
    else Yields(c, s, events[0], token) + PairsFrom(c, Step(c, s, events[0]), events[1..], token)
  }

  lemma {:induction false} RunSpendsBudget(c: Config, s: State, events: seq<Event>, token: nat)
    requires c.Valid() && Wf(c, s)
    ensures Wf(c, Run(c, s, events))
    ensures PairsFrom(c, s, events, token) + Budget(Run(c, s, events), token) <= Budget(s, token)
    decreases |events|
  {
    if events != [] {
      StepKeepsWf(c, s, events[0]);
      StepSpendsBudget(c, s, events[0], token);
      RunSpendsBudget(c, Step(c, s, events[0]), events[1..], token);
    }
  }

  /** A revoked token presented outside the grace rule is refused and leaves its
      user without a single active session. */
  lemma ReplayRevokesEverySession(c: Config, s: State, token: nat)
    requires token < |s.sessions| && s.sessions[token].revokedAt.Some?
    requires !GraceApplies(s, token)
    ensures RefreshStep(c, s, token).1 == Refused
    ensures Active(RefreshStep(c, s, token).0, s.sessions[token].user) == {}
  {
    var user := s.sessions[token].user;
    RevokedAreInactive(s, Unrevoked(s, user), user);
    assert Active(s, user) <= Unrevoked(s, user) by {
      assert forall i :: 0 <= i < |s.sessions| && ActiveFor(s, user, i) ==> i in Unrevoked(s, user);
    }
  }

  /** One raw token yields at most two token pairs over any run; once it has, every
      later presentation of it is refused and signs its user out everywhere. */
  lemma AtMostTwoPairsPerToken(c: Config, s: State, events: seq<Event>, token: nat)
    requires c.Valid() && Wf(c, s)
    ensures PairsFrom(c, s, events, token) <= 2
    ensures var t := Run(c, s, events);
      PairsFrom(c, s, events, token) == 2 ==>
        && token < |t.sessions|
        && RefreshStep(c, t, token).1 == Refused
        && Active(RefreshStep(c, t, token).0, t.sessions[token].user) == {}
  {
    RunSpendsBudget(c, s, events, token);
    var t := Run(c, s, events);
    if PairsFrom(c, s, events, token) == 2 {
      assert Budget(t, token) == 0;
      ReplayRevokesEverySession(c, t, token);
    }
  }

  /** A pair obtained with a token belongs to the token's user, extends the token's
      own path or that of its direct successor, and frees as many places as it takes. */
  lemma PairContinuesThePath(c: Config, s: State, token: nat)
    requires c.Valid() && Wf(c, s)
    requires RefreshStep(c, s, token).1.Pair?
    ensures var s', n := RefreshStep(c, s, token).0, RefreshStep(c, s, token).1.session;
      && token < |s.sessions| == n < |s'.sessions|
      && s'.sessions[n].user == s.sessions[token].user
      && s'.sessions[n].device == s.sessions[token].device
      && Last(s', token) == n
      && s'.sessions[token].revokedAt.Some?
      && |Active(s', s.sessions[token].user)| == |Active(s, s.sessions[token].user)|
  {
    var i := Rotatable(s, token).value;
    assert LinkWf(s, token);
    assert LinkWf(s, i);
    RotatedActive(c, s, i, s.sessions[token].user);
    var s' := RefreshStep(c, s, token).0;
    assert Last(s', |s.sessions|) == |s.sessions|;
    assert Last(s', i) == |s.sessions|;
  }

  /** Nothing in a run brings a revoked session back. */
  lemma {:induction false} RevokedStaysRevoked(c: Config, s: State, events: seq<Event>, i: nat)
    requires i < |s.sessions| && s.sessions[i].revokedAt.Some?
    ensures i < |Run(c, s, events).sessions| && Run(c, s, events).sessions[i].revokedAt.Some?
    decreases |events|
  {
    if events != [] {
      RevokedStaysRevoked(c, Step(c, s, events[0]), events[1..], i);
    }
  }
}
