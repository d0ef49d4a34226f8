/** The session manager, which updates its session records in place (app/auth/src/session.ts). */
module Session {
  import opened Wrappers
  import opened SessionSpec

  class SessionManager {
    const cfg: Config
    var last: nat
    var sessions: map<nat, Record>
    ghost var minted: map<Token, Slot>
    ghost var rotatedAt: map<Token, int>
    ghost var issued: seq<AccessJwt>

    ghost function View(): State
      reads this
    {
      State(last, sessions, minted, rotatedAt, issued)
    }

    constructor (cfg: Config)
      ensures this.cfg == cfg && View() == Empty
    {
      this.cfg := cfg;
      last, sessions, minted, rotatedAt, issued := 0, map[], map[], map[], [];
    }

    method NextId() returns (n: nat)
      modifies this`last
      ensures n == last == old(last) + 1
    {
      last := last + 1;
      n := last;
    }

    method EstablishSession(user: string, aal: Aal, now: int) returns (access: AccessJwt, refresh: RefreshToken)
      modifies this
      ensures (View(), access, refresh) == Establish(cfg, old(View()), user, aal, now)
    {
      var id := NextId();
      var n := NextId();
      var rec := NewRecord(user, aal, Minted(n), now);
      sessions := sessions[id := rec];
      access, refresh := MintAccess(cfg, id, rec, now), MintRefresh(id, rec);
      minted, issued := minted[Minted(n) := Slot(id, 1)], issued + [access];
    }

    method EnforceLifetimeBounds(id: nat, now: int) returns (exceeded: Option<Reason>)
      requires id in sessions
      modifies this`sessions
      ensures exceeded == LifetimeExceeded(cfg, old(sessions)[id], now)
      ensures sessions == if exceeded.Some? then old(sessions)[id := Revoke(old(sessions)[id], exceeded.value)] else old(sessions)
    {
      var rec := sessions[id];
      exceeded := None;
      if now - rec.lastActivity > cfg.inactivity {
        exceeded := Some(Inactivity);
      } else if now - rec.started > cfg.absolute {
        exceeded := Some(AbsoluteTimeout);
      }
      if exceeded.Some? { sessions := sessions[id := Revoke(rec, exceeded.value)]; }
    }

    method RefreshSession(presented: RefreshToken, now: int) returns (r: Outcome)
      modifies this
      ensures (View(), r) == Refresh(cfg, old(View()), presented, now)
    {
      var id := presented.session;
      if id !in sessions { return UnknownSession; }
      var rec := sessions[id];
      if rec.state == Revoked { return Refused(if rec.reason.Some? then rec.reason.value else ReuseDetected); }

      if presented.generation < rec.generation {
        var withinReuseInterval := now - rec.lastRotated <= REUSE_INTERVAL;
        var isGenuinePriorToken := Some(presented.token) == rec.previous;
        if !withinReuseInterval || !isGenuinePriorToken {
          sessions := sessions[id := Revoke(rec, ReuseDetected)];
          return Refused(ReuseDetected);
        }
        var bounded := EnforceLifetimeBounds(id, now);
        if bounded.Some? { return Refused(bounded.value); }
        issued := issued + [MintAccess(cfg, id, rec, now)];
        return Refreshed(MintAccess(cfg, id, rec, now), MintRefresh(id, rec));
      }
      if presented.generation > rec.generation || presented.token != rec.current {
        sessions := sessions[id := Revoke(rec, ReuseDetected)];
        return Refused(ReuseDetected);
      }

      var bounded := EnforceLifetimeBounds(id, now);
      if bounded.Some? { return Refused(bounded.value); }

      rec := rec.(previous := Some(rec.current));
      rec := rec.(generation := rec.generation + 1);
      var n := NextId();
      rotatedAt := rotatedAt[rec.current := now];
      rec := rec.(current := Minted(n), lastRotated := now, lastActivity := now);
      sessions := sessions[id := rec];
      minted, issued := minted[Minted(n) := Slot(id, rec.generation)], issued + [MintAccess(cfg, id, rec, now)];
      r := Refreshed(MintAccess(cfg, id, rec, now), MintRefresh(id, rec));
    }

    method ServerSideLogout(id: nat)
      modifies this
      ensures View() == Logout(old(View()), id)
    {
      if id in sessions {
        sessions := sessions[id := sessions[id].(loggedOut := true, state := Revoked, reason := Some(ServerLogout))];
      }
    }

    method CheckUser(access: AccessJwt, now: int) returns (v: Verdict)
      ensures v == GetUser(View(), access, now)
    {
      if now >= access.expiresAt { return ClaimsExpired; }
      if access.session !in sessions { return NoSession; }
      var rec := sessions[access.session];
      if rec.loggedOut { return LoggedOut; }
      if rec.state != Active { return NotActive(rec.reason); }
      v := Authenticated;
    }
  }
}
