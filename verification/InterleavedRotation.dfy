/** Refreshes and logins that interleave call by call with each other and with every
    other handler. `rotate` creates the new session and updates the old one in two calls
    (src/sessions/sessions.service.ts:123-137), and the session it rotates was read
    before. A login lists the active sessions, signs out the oldest, and creates its own
    in three (src/sessions/sessions.service.ts:51-63, src/auth/auth.service.ts:866-880).
    The links survive any interleaving; the session cap holds up to the rotations that
    are half done and the writes that came too late. */
module InterleavedRotation {
  import opened Prelude
  import opened Sessions

  /** A refresh that has read the session to rotate, with its device, and what it created. */
  datatype Rotation =
    | Chosen(outgoing: nat, device: Option<nat>)
    | Created(outgoing: nat, incoming: nat, user: nat)
    | Done

  /** A login that has listed the sessions to sign out, or has signed them out. */
  datatype SignIn =
    | Evicting(user: nat, device: nat, chosen: set<nat>)
    | Creating(user: nat, device: nat)
    | Complete

  /** `removed` are the devices deleted so far. */
  datatype World = World(db: State, rotations: seq<Rotation>, logins: seq<SignIn>, removed: set<nat>)

  /** A handler taken as one step, or one call of a login, of a refresh, or of a handler
      whose only write revokes a session it has read before. */
  datatype Action =
    | Whole(event: Event)
    | ListActive(user: nat, device: nat)
    | EvictListed(login: nat)
    | CreateListed(login: nat)
    | RevokeOne(session: nat)
    | Choose(token: nat)
    | CreateFresh(rotation: nat)
    | Link(rotation: nat)

  function Act(c: Config, w: World, a: Action): World {
    match a
    case Whole(event) =>
      w.(db := Step(c, w.db, event),
         removed := if event.RemoveDevice? then w.removed + {event.device} else w.removed)
    case ListActive(user, device) =>
      w.(logins := w.logins + [Evicting(user, device, Listed(Evicted(c, w.db, user)))])
    case EvictListed(l) =>
      if l < |w.logins| && w.logins[l].Evicting? then
        w.(db := RevokeWhere(w.db, w.logins[l].chosen),
           logins := w.logins[l := Creating(w.logins[l].user, w.logins[l].device)])
      else w
    case CreateListed(l) =>
      if l < |w.logins| && w.logins[l].Creating? then
        // A device removed in between makes the create violate its foreign key.
        if w.logins[l].device in w.removed then w.(logins := w.logins[l := Complete])
        else w.(db := Create(c, w.db, w.logins[l].user, Some(w.logins[l].device)), logins := w.logins[l := Complete])
      else w
    case RevokeOne(i) => w.(db := RevokeWhere(w.db, {i}))
    case Choose(token) =>
      (match Rotatable(w.db, token)
       case Some(i) =>
         if w.db.sessions[i].user in w.db.enabled then
           w.(rotations := w.rotations + [Chosen(i, w.db.sessions[i].device)])
         else w
       case None => w)
    case CreateFresh(r) =>
      if r < |w.rotations| && w.rotations[r].Chosen? && w.rotations[r].outgoing < |w.db.sessions| then
        var i := w.rotations[r].outgoing;
        // A device removed since the read makes the create violate its foreign key.
        if w.db.sessions[i].device != w.rotations[r].device then w.(rotations := w.rotations[r := Done])
        else w.(db := Create(c, w.db, w.db.sessions[i].user, w.db.sessions[i].device),
                rotations := w.rotations[r := Created(i, |w.db.sessions|, w.db.sessions[i].user)])
      else w
    case Link(r) =>
      if r < |w.rotations| && w.rotations[r].Created? && w.rotations[r].outgoing < |w.db.sessions| then
        var i := w.rotations[r].outgoing;
        w.(db := w.db.(sessions := w.db.sessions[i := w.db.sessions[i].(
                   revokedAt := Some(w.db.now), replacedBy := Some(w.rotations[r].incoming))]),
           rotations := w.rotations[r := Done])
      else w
  }

  function Exec(c: Config, w: World, actions: seq<Action>): World
    decreases |actions|
  {
    if actions == [] then w else Exec(c, Act(c, w, actions[0]), actions[1..])
  }

  /** A created session is newer than the one it will replace, of the same user,
      and nobody links to it yet. */
  ghost predicate RotationWf(w: World, r: nat)
    requires r < |w.rotations|
  {
    match w.rotations[r]
    case Chosen(i, _) => i < |w.db.sessions|
    case Created(i, incoming, user) =>
      && i < incoming < |w.db.sessions|
      && w.db.sessions[incoming].user == w.db.sessions[i].user == user
      && w.db.sessions[incoming].device == w.db.sessions[i].device
      && (forall k :: 0 <= k < |w.db.sessions| ==> w.db.sessions[k].replacedBy != Some(incoming))
    case Done => true
  }

  ghost predicate RotationsWf(w: World) {
    && (forall r {:trigger w.rotations[r]} :: 0 <= r < |w.rotations| ==> RotationWf(w, r))
    && (forall r, q :: 0 <= r < q < |w.rotations| && w.rotations[r].Created? && w.rotations[q].Created? ==>
          w.rotations[r].incoming != w.rotations[q].incoming)
  }

  ghost predicate WorldWf(c: Config, w: World) { Wf(c, w.db) && RotationsWf(w) }

  /** Users stay, sessions of one device stay together, revoked sessions stay revoked, and
      the only new links lead to the first new session. */
  ghost predicate Frame(s: State, s': State) {
    && |s.sessions| <= |s'.sessions|
    && (forall i :: 0 <= i < |s.sessions| ==>
          && s'.sessions[i].user == s.sessions[i].user
          && (s'.sessions[i].replacedBy == s.sessions[i].replacedBy || s'.sessions[i].replacedBy == Some(|s.sessions|))
          && (s.sessions[i].revokedAt.Some? ==> s'.sessions[i].revokedAt.Some?))
    && (forall i, j :: 0 <= i < |s.sessions| && 0 <= j < |s.sessions| ==>
          (s.sessions[i].device == s.sessions[j].device ==> s'.sessions[i].device == s'.sessions[j].device))
    && (forall i :: |s.sessions| <= i < |s'.sessions| ==> s'.sessions[i].replacedBy.None?)
  }

  lemma RefreshFrame(c: Config, s: State, token: nat)
    ensures Frame(s, RefreshStep(c, s, token).0)
  {
  }

  lemma RemoveDeviceFrame(s: State, device: nat)
    ensures Frame(s, RemoveDeviceStep(s, device))
  {
  }

  lemma LoginFrame(c: Config, s: State, user: nat, device: nat)
    ensures Frame(s, IssueTokenPair(c, s, user, device))
  {
  }

  lemma RevokeFrame(s: State, chosen: set<nat>)
    ensures Frame(s, RevokeWhere(s, chosen))
  {
  }

  lemma CreateFrame(c: Config, s: State, user: nat, device: Option<nat>)
    ensures Frame(s, Create(c, s, user, device))
  {
  }

  lemma StepFrame(c: Config, s: State, e: Event)
    ensures Frame(s, Step(c, s, e))
  {
    match e
    case Login(user, device) => LoginFrame(c, s, user, device);
    case Refresh(token) => RefreshFrame(c, s, token);
    case RemoveDevice(device) => RemoveDeviceFrame(s, device);
    case _ =>
  }

  lemma LinkKeepsRotations(c: Config, w: World, r: nat)
    requires RotationsWf(w) && r < |w.rotations| && w.rotations[r].Created?
    ensures RotationsWf(Act(c, w, Link(r)))
  {
    assert RotationWf(w, r);
    var w' := Act(c, w, Link(r));
    forall q | 0 <= q < |w'.rotations| ensures RotationWf(w', q) {
      if q != r { assert RotationWf(w, q); }
    }
  }

  lemma LinkKeepsWorldWf(c: Config, w: World, r: nat)
    requires WorldWf(c, w) && r < |w.rotations| && w.rotations[r].Created?
    ensures WorldWf(c, Act(c, w, Link(r)))
  {
    LinkKeepsRotations(c, w, r);
    assert RotationWf(w, r);
    LinkKeepsWf(c, w.db, w.rotations[r].outgoing, w.rotations[r].incoming);
  }

  lemma CreateKeepsWorldWf(c: Config, w: World, r: nat)
    requires WorldWf(c, w) && r < |w.rotations| && w.rotations[r].Chosen?
    ensures WorldWf(c, Act(c, w, CreateFresh(r)))
  {
    assert RotationWf(w, r);
    var i := w.rotations[r].outgoing;
    var w' := Act(c, w, CreateFresh(r));
    CreateKeepsWf(c, w.db, w.db.sessions[i].user, w.db.sessions[i].device);
    forall q | 0 <= q < |w'.rotations| ensures RotationWf(w', q) {
      assert RotationWf(w, q);
      forall k | 0 <= k < |w.db.sessions| ensures w.db.sessions[k].replacedBy != Some(|w.db.sessions|) {
        assert LinkWf(w.db, k);
      }
    }
    forall q, p | 0 <= q < p < |w'.rotations| && w'.rotations[q].Created? && w'.rotations[p].Created?
      ensures w'.rotations[q].incoming != w'.rotations[p].incoming
    {
      assert RotationWf(w, q) && RotationWf(w, p);
    }
  }

  /** A change of the table within its frame leaves the rotations well-formed. */
  lemma RotationsCarryOver(w: World, w': World)
    requires RotationsWf(w) && Frame(w.db, w'.db) && w'.rotations == w.rotations
    ensures RotationsWf(w')
  {
    forall r | 0 <= r < |w.rotations| ensures RotationWf(w', r) {
      assert RotationWf(w, r);
    }
  }

  lemma WholeKeepsWf(c: Config, w: World, event: Event)
    requires WorldWf(c, w)
    ensures WorldWf(c, Act(c, w, Whole(event)))
  {
    StepKeepsWf(c, w.db, event);
    StepFrame(c, w.db, event);
    RotationsCarryOver(w, Act(c, w, Whole(event)));
  }

  lemma EvictKeepsWf(c: Config, w: World, l: nat)
    requires WorldWf(c, w) && l < |w.logins| && w.logins[l].Evicting?
    ensures WorldWf(c, Act(c, w, EvictListed(l)))
  {
    RevokeWhereKeepsWf(c, w.db, w.logins[l].chosen);
    RevokeFrame(w.db, w.logins[l].chosen);
    RotationsCarryOver(w, Act(c, w, EvictListed(l)));
  }

  lemma CreateListedKeepsWf(c: Config, w: World, l: nat)
    requires WorldWf(c, w) && l < |w.logins| && w.logins[l].Creating?
    ensures WorldWf(c, Act(c, w, CreateListed(l)))
  {
    CreateKeepsWf(c, w.db, w.logins[l].user, Some(w.logins[l].device));
    CreateFrame(c, w.db, w.logins[l].user, Some(w.logins[l].device));
    RotationsCarryOver(w, w.(db := Create(c, w.db, w.logins[l].user, Some(w.logins[l].device))));
    RotationsCarryOver(w, Act(c, w, CreateListed(l)));
  }

  lemma RevokeOneKeepsWf(c: Config, w: World, i: nat)
    requires WorldWf(c, w)
    ensures WorldWf(c, Act(c, w, RevokeOne(i)))
  {
    RevokeWhereKeepsWf(c, w.db, {i});
    RevokeFrame(w.db, {i});
    RotationsCarryOver(w, Act(c, w, RevokeOne(i)));
  }

  lemma ChooseKeepsRotations(c: Config, w: World, token: nat)
    requires RotationsWf(w)
    ensures RotationsWf(Act(c, w, Choose(token))) && Act(c, w, Choose(token)).db == w.db
  {
    var w' := Act(c, w, Choose(token));
    forall r | 0 <= r < |w'.rotations| ensures RotationWf(w', r) {
      if r < |w.rotations| { assert RotationWf(w, r); }
    }
  }

  lemma ActKeepsWf(c: Config, w: World, a: Action)
    requires WorldWf(c, w)
    ensures WorldWf(c, Act(c, w, a))
  {
    match a
    case Whole(event) => WholeKeepsWf(c, w, event);
    case ListActive(_, _) => RotationsCarryOver(w, Act(c, w, a));
    case EvictListed(l) =>
      if l < |w.logins| && w.logins[l].Evicting? { EvictKeepsWf(c, w, l); }
    case CreateListed(l) =>
      if l < |w.logins| && w.logins[l].Creating? { CreateListedKeepsWf(c, w, l); }
    case RevokeOne(i) => RevokeOneKeepsWf(c, w, i);
    case Choose(token) => ChooseKeepsRotations(c, w, token);
    case CreateFresh(r) =>
      if r < |w.rotations| && w.rotations[r].Chosen? { CreateKeepsWorldWf(c, w, r); }
    case Link(r) =>
      if r < |w.rotations| && w.rotations[r].Created? { LinkKeepsWorldWf(c, w, r); }
  }

  lemma ActKeepsRevoked(c: Config, w: World, a: Action, i: nat)
    requires WorldWf(c, w) && i < |w.db.sessions| && w.db.sessions[i].revokedAt.Some?
    ensures i < |Act(c, w, a).db.sessions| && Act(c, w, a).db.sessions[i].revokedAt.Some?
  {
    if a.Whole? { StepFrame(c, w.db, a.event); }
  }

  /** Under any interleaving the links stay acyclic, within one user, with at most
      one predecessor each, and a revoked session is never unrevoked. */
  lemma {:induction false} LinksSurviveInterleaving(c: Config, w: World, actions: seq<Action>, i: nat)
    requires WorldWf(c, w)
    ensures WorldWf(c, Exec(c, w, actions))
    ensures i < |w.db.sessions| && w.db.sessions[i].revokedAt.Some? ==>
              i < |Exec(c, w, actions).db.sessions| && Exec(c, w, actions).db.sessions[i].revokedAt.Some?
    decreases |actions|
  {
    if actions != [] {
      ActKeepsWf(c, w, actions[0]);
      if i < |w.db.sessions| && w.db.sessions[i].revokedAt.Some? { ActKeepsRevoked(c, w, actions[0], i); }
      LinksSurviveInterleaving(c, Act(c, w, actions[0]), actions[1..], i);
    }
  }

  // ── What the cap is worth under interleaving ──────────────────────────

  /** The two calls of one rotation on their own. */
  lemma FinishedRotation(c: Config, w: World, r: nat)
    requires r < |w.rotations| && w.rotations[r].Chosen?
    requires w.rotations[r].outgoing < |w.db.sessions|
    requires w.db.sessions[w.rotations[r].outgoing].device == w.rotations[r].device
    ensures Act(c, Act(c, w, CreateFresh(r)), Link(r)).db == Rotate(c, w.db, w.rotations[r].outgoing)
  {
  }

  /** One rotation keeps its user's number of active sessions exactly when the session it
      rotates is still live by then; otherwise there is one more. */
  lemma RotationKeepsCountIff(c: Config, w: World, r: nat)
    requires c.Valid() && WorldWf(c, w) && r < |w.rotations| && w.rotations[r].Chosen?
    requires w.rotations[r].outgoing < |w.db.sessions|
    requires w.db.sessions[w.rotations[r].outgoing].device == w.rotations[r].device
    ensures var i := w.rotations[r].outgoing;
      var user, after := w.db.sessions[i].user, Act(c, Act(c, w, CreateFresh(r)), Link(r)).db;
      && (|Active(after, user)| == |Active(w.db, user)| <==> Live(w.db.sessions[i], w.db.now))
      && |Active(after, user)| <= |Active(w.db, user)| + 1
  {
    var i := w.rotations[r].outgoing;
    FinishedRotation(c, w, r);
    if Live(w.db.sessions[i], w.db.now) {
      RotatedActive(c, w.db, i, w.db.sessions[i].user);
    } else {
      RotatedTooLate(c, w.db, i);
    }
  }

  lemma RotatedTooLate(c: Config, s: State, i: nat)
    requires c.Valid() && i < |s.sessions| && !Live(s.sessions[i], s.now)
    ensures var user := s.sessions[i].user;
      && Active(Rotate(c, s, i), user) == Active(s, user) + {|s.sessions|}
      && |Active(Rotate(c, s, i), user)| == |Active(s, user)| + 1
  {
    var user := s.sessions[i].user;
    RotatedSet(c, s, i, user);
    assert i !in Active(s, user);
    assert Active(s, user) - {i} == Active(s, user);
  }

  function CreatedFor(user: nat): Rotation -> int {
    (rotation: Rotation) => if rotation.Created? && rotation.user == user then 1 else 0
  }

  /** Rotations of a user that have created a session and not linked it yet. */
  function HalfDone(w: World, user: nat): int { Sum(w.rotations, CreatedFor(user)) }

  /** Does this action link a rotation of the user whose session is no longer live? */
  predicate LinksLate(w: World, a: Action, user: nat) {
    && a.Link? && a.rotation < |w.rotations| && w.rotations[a.rotation].Created?
    && w.rotations[a.rotation].user == user
    && w.rotations[a.rotation].outgoing < |w.db.sessions|
    && !Live(w.db.sessions[w.rotations[a.rotation].outgoing], w.db.now)
  }

  /** Does this action create a login of the user whose freed place has been taken? */
  predicate CreatesLate(c: Config, w: World, a: Action, user: nat) {
    && a.CreateListed? && a.login < |w.logins| && w.logins[a.login].Creating?
    && w.logins[a.login].user == user && w.logins[a.login].device !in w.removed
    && |Active(w.db, user)| >= c.maxSessions
  }

  function Late(c: Config, w: World, a: Action, user: nat): nat {
    if LinksLate(w, a, user) || CreatesLate(c, w, a, user) then 1 else 0
  }

  function LateWrites(c: Config, w: World, actions: seq<Action>, user: nat): nat
    decreases |actions|
  {
    if actions == [] then 0 else Late(c, w, actions[0], user) + LateWrites(c, Act(c, w, actions[0]), actions[1..], user)
  }

  lemma LinkCounts(c: Config, w: World, r: nat, user: nat)
    requires WorldWf(c, w) && r < |w.rotations| && w.rotations[r].Created?
    ensures var w' := Act(c, w, Link(r));
      |Active(w'.db, user)| - HalfDone(w', user) ==
        |Active(w.db, user)| - HalfDone(w, user) + if LinksLate(w, Link(r), user) then 1 else 0
  {
    assert RotationWf(w, r);
    var i, w' := w.rotations[r].outgoing, Act(c, w, Link(r));
    SumUpdate(w.rotations, r, Done, CreatedFor(user));
    forall k | 0 <= k < |w.db.sessions| ensures ActiveFor(w'.db, user, k) <==> ActiveFor(w.db, user, k) && k != i {
    }
    assert Active(w'.db, user) == Active(w.db, user) - {i};
    if !ActiveFor(w.db, user, i) { assert Active(w.db, user) - {i} == Active(w.db, user); }
  }

  lemma CreateCounts(c: Config, w: World, r: nat, user: nat)
    requires c.Valid() && WorldWf(c, w) && r < |w.rotations| && w.rotations[r].Chosen?
    ensures var w' := Act(c, w, CreateFresh(r));
      |Active(w'.db, user)| - HalfDone(w', user) == |Active(w.db, user)| - HalfDone(w, user)
  {
    assert RotationWf(w, r);
    var i, w' := w.rotations[r].outgoing, Act(c, w, CreateFresh(r));
    SumUpdate(w.rotations, r, w'.rotations[r], CreatedFor(user));
    CreatedIsActive(c, w.db, w.db.sessions[i].user, w.db.sessions[i].device, user);
  }

  lemma ChooseCounts(c: Config, w: World, token: nat, user: nat)
    ensures HalfDone(Act(c, w, Choose(token)), user) == HalfDone(w, user)
  {
    var w' := Act(c, w, Choose(token));
    if w'.rotations != w.rotations { SumAppend(w.rotations, w'.rotations[|w.rotations|], CreatedFor(user)); }
  }

  lemma {:induction false} HalfDoneIsCount(rotations: seq<Rotation>, user: nat)
    ensures Sum(rotations, CreatedFor(user)) >= 0
  {
    if rotations != [] { HalfDoneIsCount(rotations[..|rotations| - 1], user); }
  }

  lemma CreateListedCounts(c: Config, w: World, l: nat, user: nat)
    requires c.Valid() && l < |w.logins| && w.logins[l].Creating?
    ensures var w' := Act(c, w, CreateListed(l));
      |Active(w'.db, user)| <=
        (if |Active(w.db, user)| < c.maxSessions then c.maxSessions else |Active(w.db, user)|)
        + Late(c, w, CreateListed(l), user)
  {
    CreatedIsActive(c, w.db, w.logins[l].user, Some(w.logins[l].device), user);
  }

  lemma RevokingShrinks(s: State, chosen: set<nat>, user: nat)
    ensures |Active(RevokeWhere(s, chosen), user)| <= |Active(s, user)|
  {
    RevokedAreInactive(s, chosen, user);
    SubsetSize(Active(s, user) - chosen, Active(s, user));
  }

  /** The user's sessions beyond the rotations half done stay within the cap, or where they
      were, but for one more by a late write. */
  lemma ActCounts(c: Config, w: World, a: Action, user: nat)
    requires c.Valid() && WorldWf(c, w)
    ensures var w' := Act(c, w, a);
      |Active(w'.db, user)| - HalfDone(w', user) <=
        (if |Active(w.db, user)| - HalfDone(w, user) <= c.maxSessions then c.maxSessions
         else |Active(w.db, user)| - HalfDone(w, user))
        + Late(c, w, a, user)
  {
    match a
    case Whole(event) =>
      HalfDoneIsCount(w.rotations, user);
      StepStaysWithin(c, w.db, event, user);
    case ListActive(_, _) =>
    case EvictListed(l) =>
      if l < |w.logins| && w.logins[l].Evicting? { RevokingShrinks(w.db, w.logins[l].chosen, user); }
    case CreateListed(l) =>
      HalfDoneIsCount(w.rotations, user);
      if l < |w.logins| && w.logins[l].Creating? { CreateListedCounts(c, w, l, user); }
    case RevokeOne(i) => RevokingShrinks(w.db, {i}, user);
    case Choose(token) => ChooseCounts(c, w, token, user);
    case CreateFresh(r) =>
      if r < |w.rotations| && w.rotations[r].Chosen? { CreateCounts(c, w, r, user); }
    case Link(r) =>
      if r < |w.rotations| && w.rotations[r].Created? { LinkCounts(c, w, r, user); }
  }

  /** Over any interleaving of single calls a user's active sessions exceed the cap by at
      most the rotations half done at the end plus the late writes: rotations linked when
      their session was no longer live, and logins created when their place was taken.
      So the cap holds whenever every rotation and every login found what it had read. */
  lemma {:induction false} CapUpToLateWrites(c: Config, w: World, actions: seq<Action>, user: nat, late: nat)
    requires c.Valid() && WorldWf(c, w)
    requires |Active(w.db, user)| <= c.maxSessions + HalfDone(w, user) + late
    ensures var t := Exec(c, w, actions);
      && WorldWf(c, t)
      && |Active(t.db, user)| <= c.maxSessions + HalfDone(t, user) + late + LateWrites(c, w, actions, user)
    decreases |actions|
  {
    if actions != [] {
      ActKeepsWf(c, w, actions[0]);
      ActCounts(c, w, actions[0], user);
      CapUpToLateWrites(c, Act(c, w, actions[0]), actions[1..], user, late + Late(c, w, actions[0], user));
    }
  }

  // ── Inputs on which the cap fails ─────────────────────────────────────

  lemma {:induction false} ExecAppend(c: Config, w: World, first: seq<Action>, second: seq<Action>)
    ensures Exec(c, w, first + second) == Exec(c, Exec(c, w, first), second)
    decreases |first|
  {
    if first == [] {
      assert first + second == second;
    } else {
      assert (first + second)[1..] == first[1..] + second;
      ExecAppend(c, Act(c, w, first[0]), first[1..], second);
    }
  }

  /** A refresh with one other handler between its read and its two writes. */
  function Straddling(token: nat, event: Event): seq<Action> {
    [Choose(token), Whole(event), CreateFresh(0), Link(0)]
  }

  /** The token can be refreshed right now, and nothing else is under way. */
  ghost predicate Refreshable(c: Config, w: World, token: nat) {
    && WorldWf(c, w) && w.rotations == []
    && token < |w.db.sessions| && Live(w.db.sessions[token], w.db.now) && w.db.sessions[token].user in w.db.enabled
  }

  lemma Straddle(c: Config, w: World, token: nat, event: Event)
    requires Refreshable(c, w, token)
    requires token < |Step(c, w.db, event).sessions|
    requires Step(c, w.db, event).sessions[token].device == w.db.sessions[token].device
    ensures Exec(c, w, Straddling(token, event)).db == Rotate(c, Step(c, w.db, event), token)
  {
    var actions := Straddling(token, event);
    var w1 := Act(c, w, actions[0]);
    assert w1 == w.(rotations := [Chosen(token, w.db.sessions[token].device)]);
    var w2 := Act(c, w1, actions[1]);
    assert w2.db == Step(c, w.db, event) && w2.rotations == w1.rotations;
    FinishedRotation(c, w2, 0);
    Unroll(c, w, actions);
    Unroll(c, w1, actions[1..]);
    Unroll(c, w2, actions[2..]);
    Unroll(c, Act(c, w2, actions[2]), actions[3..]);
  }

  /** A user at the cap whose oldest session is being refreshed while a login evicts it
      ends with one active session over the cap, whatever the cap. */
  lemma LoginDuringRotation(c: Config, w: World, token: nat, device: nat)
    requires c.Valid() && Refreshable(c, w, token)
    requires |Active(w.db, w.db.sessions[token].user)| == c.maxSessions
    requires forall k :: k in Active(w.db, w.db.sessions[token].user) ==> token <= k
    ensures var user := w.db.sessions[token].user;
      |Active(Exec(c, w, Straddling(token, Login(user, device))).db, user)| == c.maxSessions + 1
  {
    var s, user := w.db, w.db.sessions[token].user;
    var room := EnforceLimit(c, s, user);
    var s' := IssueTokenPair(c, s, user, device);
    EnforceLimitEvictsTheOldest(c, s, user);
    CreatedIsActive(c, room, user, Some(device), user);
    Straddle(c, w, token, Login(user, device));
    OldestIsEvicted(Active(s, user), Active(room, user), token);
    assert |s.sessions| !in Active(room, user);
    assert token !in Active(s', user);
    assert ActiveFor(s', user, token) ==> token in Active(s', user);
    RotatedTooLate(c, s', token);
  }

  lemma OldestIsEvicted(before: set<nat>, after: set<nat>, oldest: nat)
    requires after <= before && after != before && oldest in before && forall k :: k in before ==> oldest <= k
    requires forall gone, kept :: gone in before - after && kept in after ==> gone < kept
    ensures oldest !in after
  {
    var gone :| gone in before && gone !in after;
    assert gone in before - after;
  }

  /** A user who signs out everywhere while a refresh is under way is left signed in. */
  lemma SignOutDuringRotation(c: Config, w: World, token: nat)
    requires c.Valid() && Refreshable(c, w, token)
    ensures var user := w.db.sessions[token].user;
      && Active(RevokeAllForUser(w.db, user), user) == {}
      && Active(Exec(c, w, Straddling(token, RevokeUser(user))).db, user) == {|w.db.sessions|}
  {
    var user := w.db.sessions[token].user;
    var s' := RevokeAllForUser(w.db, user);
    RevokedAreInactive(w.db, Unrevoked(w.db, user), user);
    assert forall i :: 0 <= i < |w.db.sessions| && ActiveFor(w.db, user, i) ==> i in Unrevoked(w.db, user);
    Straddle(c, w, token, RevokeUser(user));
    RotatedTooLate(c, s', token);
  }

  /** `n` sessions, all of one user and live. */
  ghost predicate Filled(s: State, user: nat, n: nat) {
    |s.sessions| == n && forall i :: 0 <= i < n ==> ActiveFor(s, user, i)
  }

  function FirstNumbers(n: nat): (numbers: set<nat>)
    ensures |numbers| == n && forall i: nat :: i in numbers <==> i < n
  {
    if n == 0 then {} else FirstNumbers(n - 1) + {n - 1}
  }

  lemma FilledActive(s: State, user: nat, n: nat)
    requires Filled(s, user, n)
    ensures Active(s, user) == FirstNumbers(n)
  {
  }

  lemma LoginFills(c: Config, s: State, user: nat, device: nat, n: nat)
    requires c.Valid() && Filled(s, user, n) && n < c.maxSessions
    ensures Filled(IssueTokenPair(c, s, user, device), user, n + 1)
    ensures IssueTokenPair(c, s, user, device).enabled == s.enabled
  {
    FilledActive(s, user, n);
    OldestFirstLists(s, user, n);
    OldestFirstIncreases(s, user, n);
    IncreasingSize(OldestFirst(s, user, n));
    assert Evicted(c, s, user) == [];
    assert EnforceLimit(c, s, user).sessions == s.sessions;
    var s' := IssueTokenPair(c, s, user, device);
    forall i | 0 <= i < n + 1 ensures ActiveFor(s', user, i) {
      assert i < n ==> ActiveFor(s, user, i);
    }
  }

  lemma {:induction false} FillUp(c: Config, w: World, user: nat, device: nat, n: nat, target: nat)
    returns (actions: seq<Action>)
    requires c.Valid() && n <= target <= c.maxSessions && Filled(w.db, user, n)
    ensures var t := Exec(c, w, actions);
      && Filled(t.db, user, target) && t.db.enabled == w.db.enabled
      && t.rotations == w.rotations && t.logins == w.logins && t.removed == w.removed
    decreases target - n
  {
    if n == target {
      actions := [];
    } else {
      var login := Whole(Login(user, device));
      LoginFills(c, w.db, user, device, n);
      var rest := FillUp(c, Act(c, w, login), user, device, n + 1, target);
      actions := [login] + rest;
      assert actions[1..] == rest;
    }
  }

  /** A new installation with one enabled user. */
  function Installed(now: int, user: nat): World { World(State(now, [], {user}), [], [], {}) }

  /** A new installation reaches a user one session over the cap, whatever the cap: logins
      up to it, and one refresh that straddles one more login. */
  lemma CapIsExceededFromTheStart(c: Config, now: int, user: nat, device: nat) returns (actions: seq<Action>)
    requires c.Valid()
    ensures |Active(Exec(c, Installed(now, user), actions).db, user)| == c.maxSessions + 1
  {
    var w := Installed(now, user);
    EmptyStateIsWf(c, now, {user});
    var logins := FillUp(c, w, user, device, 0, c.maxSessions);
    var full := Exec(c, w, logins);
    LinksSurviveInterleaving(c, w, logins, 0);
    FilledActive(full.db, user, c.maxSessions);
    assert ActiveFor(full.db, user, 0);
    LoginDuringRotation(c, full, 0, device);
    ExecAppend(c, w, logins, Straddling(0, Login(user, device)));
    actions := logins + Straddling(0, Login(user, device));
  }

  /** Two logins whose calls alternate. */
  function TwoLogins(user: nat, device: nat): seq<Action> {
    [ListActive(user, device), ListActive(user, device), EvictListed(0), EvictListed(1), CreateListed(0),
        CreateListed(1)]
  }

  lemma NothingToEvict(c: Config, s: State, user: nat)
    requires c.Valid() && |Active(s, user)| < c.maxSessions
    ensures Evicted(c, s, user) == [] && RevokeWhere(s, {}) == s
  {
    OldestFirstLists(s, user, |s.sessions|);
    OldestFirstIncreases(s, user, |s.sessions|);
    IncreasingSize(OldestFirst(s, user, |s.sessions|));
    assert RevokeWhere(s, {}).sessions == s.sessions;
  }

  lemma BothEvictNothing(c: Config, w: World, user: nat, device: nat)
    requires c.Valid() && w.logins == [] && |Active(w.db, user)| < c.maxSessions
    ensures Exec(c, w, TwoLogins(user, device)[..4]) == w.(logins := [Creating(user, device), Creating(user, device)])
  {
    var actions := TwoLogins(user, device)[..4];
    NothingToEvict(c, w.db, user);
    assert Listed([]) == {};
    var w1 := w.(logins := [Evicting(user, device, {})]);
    var w2 := w.(logins := [Evicting(user, device, {}), Evicting(user, device, {})]);
    var w3 := w.(logins := [Creating(user, device), Evicting(user, device, {})]);
    assert Act(c, w, actions[0]) == w1;
    assert Act(c, w1, actions[1]) == w2;
    assert Act(c, w2, actions[2]) == w3;
    Unroll(c, w, actions);
    Unroll(c, w1, actions[1..]);
    Unroll(c, w2, actions[2..]);
    Unroll(c, w3, actions[3..]);
  }

  lemma BothCreate(c: Config, w: World, user: nat, device: nat)
    requires c.Valid() && w.logins == [Creating(user, device), Creating(user, device)] && device !in w.removed
    ensures |Active(Exec(c, w, TwoLogins(user, device)[4..]).db, user)| == |Active(w.db, user)| + 2
  {
    var actions := TwoLogins(user, device)[4..];
    var first := Create(c, w.db, user, Some(device));
    var w1 := Act(c, w, actions[0]);
    assert w1.db == first && w1.logins == [Complete, Creating(user, device)];
    Unroll(c, w, actions);
    Unroll(c, w1, actions[1..]);
    CreatedIsActive(c, w.db, user, Some(device), user);
    CreatedIsActive(c, first, user, Some(device), user);
    assert |w.db.sessions| !in Active(w.db, user) && |first.sessions| !in Active(first, user);
  }

  /** Two logins that both find the last place free leave their user one session over the
      cap, with no refresh anywhere. */
  lemma TwoLoginsExceedTheCap(c: Config, w: World, user: nat, device: nat)
    requires c.Valid() && w.logins == [] && device !in w.removed && |Active(w.db, user)| == c.maxSessions - 1
    ensures |Active(Exec(c, w, TwoLogins(user, device)).db, user)| == c.maxSessions + 1
  {
    var actions := TwoLogins(user, device);
    BothEvictNothing(c, w, user, device);
    BothCreate(c, Exec(c, w, actions[..4]), user, device);
    ExecAppend(c, w, actions[..4], actions[4..]);
    assert actions[..4] + actions[4..] == actions;
  }

  /** That too is reached from a new installation, whatever the cap. */
  lemma LoginsExceedTheCapFromTheStart(c: Config, now: int, user: nat, device: nat) returns (actions: seq<Action>)
    requires c.Valid()
    ensures |Active(Exec(c, Installed(now, user), actions).db, user)| == c.maxSessions + 1
  {
    var w := Installed(now, user);
    var logins := FillUp(c, w, user, device, 0, c.maxSessions - 1);
    FilledActive(Exec(c, w, logins).db, user, c.maxSessions - 1);
    TwoLoginsExceedTheCap(c, Exec(c, w, logins), user, device);
    ExecAppend(c, w, logins, TwoLogins(user, device));
    actions := logins + TwoLogins(user, device);
  }

  /** The table after two refreshes of session `i` that both chose it first. */
  function RotatedTwice(c: Config, s: State, i: nat): State
    requires i < |s.sessions|
  {
    var added := Session(s.sessions[i].user, s.sessions[i].device, s.now, s.now + c.lifetime, None, None);
    s.(sessions := s.sessions[i := s.sessions[i].(revokedAt := Some(s.now), replacedBy := Some(|s.sessions| + 1))]
                   + [added, added])
  }

  lemma RotatedTwiceActive(c: Config, s: State, i: nat)
    requires c.Valid() && i < |s.sessions| && Live(s.sessions[i], s.now)
    ensures var user := s.sessions[i].user; |Active(RotatedTwice(c, s, i), user)| == |Active(s, user)| + 1
  {
    var n, user, s' := |s.sessions|, s.sessions[i].user, RotatedTwice(c, s, i);
    forall k | 0 <= k < |s'.sessions|
      ensures ActiveFor(s', user, k) <==> k == n || k == n + 1 || (k < n && k != i && ActiveFor(s, user, k))
    {
    }
    assert Active(s', user) == (Active(s, user) - {i}) + {n, n + 1};
    assert i in Active(s, user);
  }

  lemma BothRotate(c: Config, w: World, token: nat) returns (actions: seq<Action>)
    requires Refreshable(c, w, token)
    ensures Exec(c, w, actions).db == RotatedTwice(c, w.db, token)
  {
    var user, device := w.db.sessions[token].user, w.db.sessions[token].device;
    var choices := [Choose(token), Choose(token)];
    var w1 := w.(rotations := [Chosen(token, device)]);
    var w2 := w.(rotations := [Chosen(token, device), Chosen(token, device)]);
    assert Act(c, w, Choose(token)) == w1 && Act(c, w1, Choose(token)) == w2;
    Unroll(c, w, choices);
    Unroll(c, w1, choices[1..]);
    var writes := BothWrite(c, w2, token);
    ExecAppend(c, w, choices, writes);
    actions := choices + writes;
  }

  lemma BothWrite(c: Config, w: World, token: nat) returns (actions: seq<Action>)
    requires token < |w.db.sessions|
    requires var device := w.db.sessions[token].device;
      w.rotations == [Chosen(token, device), Chosen(token, device)]
    ensures Exec(c, w, actions).db == RotatedTwice(c, w.db, token)
  {
    actions := [CreateFresh(0), CreateFresh(1), Link(0), Link(1)];
    var n, user, device := |w.db.sessions|, w.db.sessions[token].user, w.db.sessions[token].device;
    var w3 := Act(c, w, CreateFresh(0));
    assert w3.rotations == [Created(token, n, user), Chosen(token, device)];
    var w4 := Act(c, w3, CreateFresh(1));
    assert w4.rotations == [Created(token, n, user), Created(token, n + 1, user)];
    var w5 := Act(c, w4, Link(0));
    Unroll(c, w, actions);
    Unroll(c, w3, actions[1..]);
    Unroll(c, w4, actions[2..]);
    Unroll(c, w5, actions[3..]);
    assert Act(c, w5, Link(1)).db.sessions == RotatedTwice(c, w.db, token).sessions;
  }

  /** Two refreshes of the same live token that both read it before either writes
      leave its user with one active session more than before, whatever the cap. */
  lemma InterleavedRefreshesGainASession(c: Config, w: World, token: nat) returns (actions: seq<Action>)
    requires c.Valid() && Refreshable(c, w, token)
    ensures var user := w.db.sessions[token].user;
      |Active(Exec(c, w, actions).db, user)| == |Active(w.db, user)| + 1
  {
    actions := BothRotate(c, w, token);
    RotatedTwiceActive(c, w.db, token);
  }

  lemma Unroll(c: Config, w: World, actions: seq<Action>)
    requires actions != []
    ensures Exec(c, w, actions) == Exec(c, Act(c, w, actions[0]), actions[1..])
    ensures |actions| == 1 ==> Exec(c, w, actions) == Act(c, w, actions[0])
  {
  }
}
