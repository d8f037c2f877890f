/** The calls of one refresh, login or logout with nobody in between are the handler taken
    as one step; and a refresh caught by the removal of its device issues nothing
    (src/auth/auth.service.ts:395-493, src/sessions/sessions.service.ts:51-152). */
module RotationAlone {
  import opened Prelude
  import opened Sessions
  import opened InterleavedRotation

  lemma ExecThree(c: Config, w: World, a: Action, b: Action, d: Action)
    ensures Exec(c, w, [a, b, d]) == Act(c, Act(c, Act(c, w, a), b), d)
  {
    Unroll(c, w, [a, b, d]);
    Unroll(c, Act(c, w, a), [a, b, d][1..]);
    Unroll(c, Act(c, Act(c, w, a), b), [a, b, d][1..][1..]);
    assert [a, b, d][1..][1..] == [d];
  }

  /** A refresh alone issues a pair exactly when the whole handler does, and then leaves
      its table. What a refused one revokes are separate calls. */
  lemma AloneRefreshIsRefresh(c: Config, w: World, token: nat)
    requires Wf(c, w.db)
    ensures var r := |w.rotations|;
      var alone := Exec(c, w, [Choose(token), CreateFresh(r), Link(r)]);
      alone.db == if RefreshStep(c, w.db, token).1.Pair? then RefreshStep(c, w.db, token).0 else w.db
  {
    var r := |w.rotations|;
    ExecThree(c, w, Choose(token), CreateFresh(r), Link(r));
    var chosen := Act(c, w, Choose(token));
    if RefreshStep(c, w.db, token).1.Pair? {
      assert chosen.rotations[r] == Chosen(Rotatable(w.db, token).value,
                                           w.db.sessions[Rotatable(w.db, token).value].device);
    } else {
      assert chosen == w;
    }
  }

  /** A login alone is the whole handler, whatever it has to sign out. */
  lemma AloneLoginIsLogin(c: Config, w: World, user: nat, device: nat)
    requires device !in w.removed
    ensures var l := |w.logins|;
      Exec(c, w, [ListActive(user, device), EvictListed(l), CreateListed(l)]).db
      == IssueTokenPair(c, w.db, user, device)
  {
    var l := |w.logins|;
    ExecThree(c, w, ListActive(user, device), EvictListed(l), CreateListed(l));
    var listed := Act(c, w, ListActive(user, device));
    assert listed.logins[l] == Evicting(user, device, Listed(Evicted(c, w.db, user)));
    var evicted := Act(c, listed, EvictListed(l));
    assert evicted.logins[l] == Creating(user, device) && evicted.removed == w.removed;
  }

  /** A logout alone: the write of a token that was live when it was read. */
  lemma AloneLogoutIsLogout(c: Config, w: World, token: nat)
    requires token < |w.db.sessions| && Live(w.db.sessions[token], w.db.now)
    ensures Act(c, w, RevokeOne(token)).db == LogoutStep(w.db, token)
    ensures forall i :: 0 <= i < |w.db.sessions| && i != token ==>
      Act(c, w, RevokeOne(token)).db.sessions[i] == w.db.sessions[i]
    ensures Act(c, w, RevokeOne(token)).db.sessions[token].revokedAt == Some(w.db.now)
  {
  }

  // ── A device removed under a refresh ──────────────────────────────────

  /** Refresh `r` has nothing left to write: it is done, or the device of the session it
      read is gone from that session. */
  ghost predicate Spent(w: World, r: nat) {
    && r < |w.rotations|
    && match w.rotations[r]
       case Chosen(i, device) => device.Some? && i < |w.db.sessions| && w.db.sessions[i].device == None
       case Created(_, _, _) => false
       case Done => true
  }

  lemma SpentWritesNothing(c: Config, w: World, r: nat)
    requires Spent(w, r)
    ensures Act(c, w, CreateFresh(r)).db == w.db && Act(c, w, Link(r)).db == w.db
  {
  }

  lemma StepKeepsUnlinked(c: Config, s: State, e: Event, i: nat)
    requires i < |s.sessions| && s.sessions[i].device == None
    ensures i < |Step(c, s, e).sessions| && Step(c, s, e).sessions[i].device == None
  {
  }

  lemma ActKeepsSpent(c: Config, w: World, a: Action, r: nat)
    requires Spent(w, r)
    ensures Spent(Act(c, w, a), r)
  {
    if a.Whole? && w.rotations[r].Chosen? { StepKeepsUnlinked(c, w.db, a.event, w.rotations[r].outgoing); }
  }

  lemma {:induction false} ExecKeepsSpent(c: Config, w: World, actions: seq<Action>, r: nat)
    requires Spent(w, r)
    ensures Spent(Exec(c, w, actions), r)
    decreases |actions|
  {
    if actions != [] {
      ActKeepsSpent(c, w, actions[0], r);
      ExecKeepsSpent(c, Act(c, w, actions[0]), actions[1..], r);
    }
  }

  /** A refresh that has read its session when the session's device is removed creates and
      links nothing, at whatever later moment its writes come. */
  lemma RemovalStopsRefresh(c: Config, w: World, device: nat, r: nat, later: seq<Action>)
    requires r < |w.rotations| && w.rotations[r].Chosen? && w.rotations[r].device == Some(device)
    requires w.rotations[r].outgoing < |w.db.sessions|
    requires w.db.sessions[w.rotations[r].outgoing].device == Some(device)
    ensures var t := Exec(c, Act(c, w, Whole(Event.RemoveDevice(device))), later);
      Act(c, t, CreateFresh(r)).db == t.db && Act(c, t, Link(r)).db == t.db
  {
    var removed := Act(c, w, Whole(Event.RemoveDevice(device)));
    assert Spent(removed, r);
    ExecKeepsSpent(c, removed, later, r);
    SpentWritesNothing(c, Exec(c, removed, later), r);
  }

  lemma {:induction false} ExecKeepsRemoved(c: Config, w: World, actions: seq<Action>, device: nat)
    requires device in w.removed
    ensures device in Exec(c, w, actions).removed
    decreases |actions|
  {
    if actions != [] { ExecKeepsRemoved(c, Act(c, w, actions[0]), actions[1..], device); }
  }

  /** A login under way on a device that is removed signs nobody in, whenever its last call
      comes. */
  lemma RemovalStopsLogin(c: Config, w: World, device: nat, later: seq<Action>, l: nat)
    requires var t := Exec(c, Act(c, w, Whole(Event.RemoveDevice(device))), later);
      l < |t.logins| && t.logins[l].Creating? && t.logins[l].device == device
    ensures var t := Exec(c, Act(c, w, Whole(Event.RemoveDevice(device))), later);
      Act(c, t, CreateListed(l)).db == t.db
  {
    ExecKeepsRemoved(c, Act(c, w, Whole(Event.RemoveDevice(device))), later, device);
  }
}
