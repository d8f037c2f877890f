/** The session handlers in the source's own shape, each proved equal to its step
    in Sessions (src/sessions/sessions.service.ts:51-152, src/auth/auth.service.ts:395-493
    and 843-922, src/sessions/devices.service.ts:121-138). */
module Auth {
  import opened Prelude
  import opened Sessions

  class AuthService {
    const config: Config
    var now: int
    var sessions: seq<Session>
    var enabled: set<nat>
    /** The devices table: whose device it is. */
    var devices: map<nat, nat>

    constructor (config: Config, now: int, enabled: set<nat>)
      ensures this.config == config && Snapshot() == State(now, [], enabled) && devices == map[]
    {
      this.config := config;
      this.now := now;
      this.sessions := [];
      this.enabled := enabled;
      this.devices := map[];
    }

    function Snapshot(): State
      reads this
    {
      State(now, sessions, enabled)
    }

    /** `session.updateMany` with a list of ids. */
    method UpdateManyRevoked(chosen: set<nat>)
      modifies this`sessions
      ensures Snapshot() == RevokeWhere(old(Snapshot()), chosen)
    {
      var at := now;
      var rows := sessions;
      sessions := seq(|rows|, i requires 0 <= i < |rows| =>
        if i in chosen then rows[i].(revokedAt := Some(at)) else rows[i]);
    }

    /** `session.findMany` of the user's active sessions, `orderBy: { createdAt: 'asc' }`. */
    method FindManyActive(user: nat) returns (active: seq<nat>)
      ensures active == OldestFirst(Snapshot(), user, |sessions|)
    {
      active := [];
      for i := 0 to |sessions|
        invariant active == OldestFirst(Snapshot(), user, i)
      {
        if sessions[i].user == user && sessions[i].revokedAt.None? && sessions[i].expiresAt > now {
          active := active + [i];
        }
      }
    }

    method EnforceLimit(user: nat)
      modifies this`sessions
      ensures Snapshot() == Sessions.EnforceLimit(config, old(Snapshot()), user)
    {
      var active := FindManyActive(user);
      var overBy := |active| - config.maxSessions + 1;
      if overBy <= 0 {
        assert Listed([]) == {};
        assert Snapshot() == RevokeWhere(Snapshot(), {});
        return;
      }
      UpdateManyRevoked(Listed(if overBy <= |active| then active[..overBy] else active));
    }

    method Create(user: nat, device: Option<nat>) returns (rawToken: nat)
      modifies this`sessions
      ensures Snapshot() == Sessions.Create(config, old(Snapshot()), user, device)
      ensures rawToken == old(|sessions|)
    {
      rawToken := |sessions|;
      var expiresAt := now + config.lifetime;
      sessions := sessions + [Session(user, device, now, expiresAt, None, None)];
    }

    method FindActiveByRawToken(rawToken: nat) returns (found: Option<nat>)
      ensures found == if rawToken < |sessions| && Live(sessions[rawToken], now) then Some(rawToken) else None
    {
      if rawToken < |sessions| && sessions[rawToken].revokedAt.None? && sessions[rawToken].expiresAt > now {
        return Some(rawToken);
      }
      return None;
    }

    method FindAnyByRawToken(rawToken: nat) returns (found: Option<nat>)
      ensures found == if rawToken < |sessions| then Some(rawToken) else None
    {
      found := if rawToken < |sessions| then Some(rawToken) else None;
    }

    /** First the new session, then the update of the old one. */
    method Rotate(outgoing: nat) returns (rawToken: nat)
      requires outgoing < |sessions|
      modifies this`sessions
      ensures Snapshot() == Sessions.Rotate(config, old(Snapshot()), outgoing)
      ensures rawToken == old(|sessions|)
    {
      rawToken := Create(sessions[outgoing].user, sessions[outgoing].device);
      sessions := sessions[outgoing := sessions[outgoing].(revokedAt := Some(now), replacedBy := Some(rawToken))];
    }

    method Revoke(i: nat)
      requires i < |sessions|
      modifies this`sessions
      ensures Snapshot() == RevokeWhere(old(Snapshot()), {i})
    {
      sessions := sessions[i := sessions[i].(revokedAt := Some(now))];
      assert sessions == RevokeWhere(old(Snapshot()), {i}).sessions;
    }

    method RevokeAllForUser(user: nat)
      modifies this`sessions
      ensures Snapshot() == Sessions.RevokeAllForUser(old(Snapshot()), user)
    {
      UpdateManyRevoked(Unrevoked(Snapshot(), user));
    }

    method IssueTokenPair(user: nat, device: nat) returns (rawToken: nat)
      modifies this`sessions
      ensures Snapshot() == Step(config, old(Snapshot()), Login(user, device))
      ensures rawToken == old(|sessions|)
    {
      EnforceLimit(user);
      rawToken := Create(user, Some(device));
    }

    method RefreshTokens(rawToken: nat) returns (outcome: Outcome)
      modifies this`sessions
      ensures (Snapshot(), outcome) == RefreshStep(config, old(Snapshot()), rawToken)
    {
      var session := FindActiveByRawToken(rawToken);
      if session.None? {
        var any := FindAnyByRawToken(rawToken);
        if any.Some? && sessions[any.value].revokedAt.Some? && sessions[any.value].replacedBy.Some? {
          var revokedFor := now - sessions[any.value].revokedAt.value;
          if revokedFor <= GRACE {
            var successor := sessions[any.value].replacedBy.value;
            if successor < |sessions| && sessions[successor].revokedAt.None? && sessions[successor].expiresAt > now {
              session := Some(successor);
            }
          }
        }
        if session.None? {
          if any.Some? && sessions[any.value].revokedAt.Some? {
            RevokeAllForUser(sessions[any.value].user);
          }
          return Refused;
        }
      }
      if sessions[session.value].user !in enabled {
        Revoke(session.value);
        return Refused;
      }
      var issued := Rotate(session.value);
      return Pair(issued);
    }

    method LogoutSession(rawToken: nat)
      modifies this`sessions
      ensures Snapshot() == LogoutStep(old(Snapshot()), rawToken)
    {
      var session := FindActiveByRawToken(rawToken);
      if session.Some? {
        Revoke(session.value);
      }
    }

    /** A device that does not exist or is somebody else's is refused; otherwise one
        transaction revokes its sessions and deletes it, which unlinks them. */
    method RemoveDevice(user: nat, device: nat) returns (found: bool)
      modifies this`sessions, this`devices
      ensures found <==> device in old(devices) && old(devices)[device] == user
      ensures !found ==> Snapshot() == old(Snapshot()) && devices == old(devices)
      ensures found ==> Snapshot() == Step(config, old(Snapshot()), Event.RemoveDevice(device))
      ensures found ==> devices == old(devices) - {device}
    {
      if device !in devices || devices[device] != user { return false; }
      UpdateManyRevoked(OnDevice(Snapshot(), device));
      devices := devices - {device};
      var rows := sessions;
      sessions := seq(|rows|, i requires 0 <= i < |rows| =>
        if rows[i].device == Some(device) then rows[i].(device := None) else rows[i]);
      return true;
    }
  }
}
