/** Refresh-token rotation as a state machine (app/auth/src/session.ts). Session and token names carry the number of one
    shared counter; a presented token may also be any other text. Times are seconds. */
module SessionSpec {
  import opened Wrappers

  datatype Aal = Aal1 | Aal2

  datatype Token = Minted(n: nat) | Other(text: string)

  datatype AccessJwt = AccessJwt(sub: string, session: nat, issuedAt: int, expiresAt: int, aal: Aal)

  datatype RefreshToken = RefreshToken(token: Token, session: nat, generation: int)

  datatype Reason = ReuseDetected | ServerLogout | Inactivity | AbsoluteTimeout

  datatype SessionState = Active | Revoked | Expired

  datatype Record = Record(
    user: string, aal: Aal, state: SessionState, started: int, lastActivity: int, generation: int, current: Token,
    previous: Option<Token>, lastRotated: int, loggedOut: bool, reason: Option<Reason>)

  datatype Config = Config(ttl: int, inactivity: int, absolute: int)

  datatype Outcome = Refreshed(access: AccessJwt, refresh: RefreshToken) | Refused(reason: Reason) | UnknownSession

  /** The slot a token was minted for. */
  datatype Slot = Slot(session: nat, generation: int)

  /** `minted`, `rotatedAt` and `issued` are history: the slot of every refresh token ever handed out, the time each
      token was rotated away, and every access token ever issued. */
  datatype State = State(
    last: nat, sessions: map<nat, Record>, minted: map<Token, Slot>, rotatedAt: map<Token, int>, issued: seq<AccessJwt>)

  const REUSE_INTERVAL := 10

  function MintAccess(cfg: Config, id: nat, rec: Record, now: int): AccessJwt {
    AccessJwt(rec.user, id, now, now + cfg.ttl, rec.aal)
  }

  function MintRefresh(id: nat, rec: Record): RefreshToken {
    RefreshToken(rec.current, id, rec.generation)
  }

  function NewRecord(user: string, aal: Aal, token: Token, now: int): Record {
    Record(user, aal, Active, now, now, 1, token, None, now, false, None)
  }

  /** The session takes the first new number and its token the second. */
  function Establish(cfg: Config, s: State, user: string, aal: Aal, now: int): (State, AccessJwt, RefreshToken) {
    var id, token := s.last + 1, Minted(s.last + 2);
    var rec := NewRecord(user, aal, token, now);
    (State(s.last + 2, s.sessions[id := rec], s.minted[token := Slot(id, 1)], s.rotatedAt,
           s.issued + [MintAccess(cfg, id, rec, now)]),
     MintAccess(cfg, id, rec, now), MintRefresh(id, rec))
  }

  function Revoke(rec: Record, reason: Reason): Record {
    rec.(state := Revoked, reason := Some(reason))
  }

  function LifetimeExceeded(cfg: Config, rec: Record, now: int): Option<Reason> {
    if now - rec.lastActivity > cfg.inactivity then Some(Inactivity)
    else if now - rec.started > cfg.absolute then Some(AbsoluteTimeout)
    else None
  }

  /** Why the presented token is refused before the lifetime bounds, if it is. */
  predicate ReuseSuspected(rec: Record, presented: RefreshToken, now: int) {
    if presented.generation < rec.generation then
      !(now - rec.lastRotated <= REUSE_INTERVAL) || Some(presented.token) != rec.previous
    else presented.generation > rec.generation || presented.token != rec.current
  }

  function RevokeIn(s: State, id: nat, reason: Reason): State
    requires id in s.sessions
  {
    s.(sessions := s.sessions[id := Revoke(s.sessions[id], reason)])
  }

  function Rotated(rec: Record, token: Token, now: int): Record {
    rec.(previous := Some(rec.current), generation := rec.generation + 1, current := token, lastRotated := now,
         lastActivity := now)
  }

  function Refresh(cfg: Config, s: State, presented: RefreshToken, now: int): (State, Outcome) {
    var id := presented.session;
    if id !in s.sessions then (s, UnknownSession)
    else
      var rec := s.sessions[id];
      if rec.state == Revoked then (s, Refused(if rec.reason.Some? then rec.reason.value else ReuseDetected))
      else if ReuseSuspected(rec, presented, now) then (RevokeIn(s, id, ReuseDetected), Refused(ReuseDetected))
      else
        var exceeded := LifetimeExceeded(cfg, rec, now);
        if exceeded.Some? then (RevokeIn(s, id, exceeded.value), Refused(exceeded.value))
        else if presented.generation < rec.generation then
          (s.(issued := s.issued + [MintAccess(cfg, id, rec, now)]), Refreshed(MintAccess(cfg, id, rec, now), MintRefresh(id, rec)))
        else
          var token := Minted(s.last + 1);
          var next := Rotated(rec, token, now);
          (State(s.last + 1, s.sessions[id := next], s.minted[token := Slot(id, next.generation)],
                 s.rotatedAt[rec.current := now], s.issued + [MintAccess(cfg, id, next, now)]),
           Refreshed(MintAccess(cfg, id, next, now), MintRefresh(id, next)))
  }

  function Logout(s: State, id: nat): State {
    if id !in s.sessions then s
    else s.(sessions := s.sessions[id := s.sessions[id].(loggedOut := true, state := Revoked, reason := Some(ServerLogout))])
  }

  /** The local check: only the token's own expiry. */
  predicate ClaimsValid(access: AccessJwt, now: int) {
    now < access.expiresAt
  }

  datatype Verdict = Authenticated | ClaimsExpired | NoSession | LoggedOut | NotActive(reason: Option<Reason>)

  /** The server round trip, which also sees logout and revocation. */
  function GetUser(s: State, access: AccessJwt, now: int): Verdict {
    if !ClaimsValid(access, now) then ClaimsExpired
    else if access.session !in s.sessions then NoSession
    else if s.sessions[access.session].loggedOut then LoggedOut
    else if s.sessions[access.session].state != Active then NotActive(s.sessions[access.session].reason)
    else Authenticated
  }

  datatype Op =
    | OpEstablish(user: string, aal: Aal, now: int)
    | OpRefresh(presented: RefreshToken, now: int)
    | OpLogout(id: nat)

  const Empty: State := State(0, map[], map[], map[], [])

  function Step(cfg: Config, s: State, op: Op): State {
    match op
    case OpEstablish(user, aal, now) => Establish(cfg, s, user, aal, now).0
    case OpRefresh(presented, now) => Refresh(cfg, s, presented, now).0
    case OpLogout(id) => Logout(s, id)
  }

  function Run(cfg: Config, s: State, ops: seq<Op>): State
    decreases |ops|
  {
    if |ops| == 0 then s else Step(cfg, Run(cfg, s, ops[..|ops| - 1]), ops[|ops| - 1])
  }
}
