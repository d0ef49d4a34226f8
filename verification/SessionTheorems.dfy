/** What rotation guarantees over every run, in the sense of section 4.14.2 of RFC 9700. */
module SessionTheorems {
  import opened Wrappers
  import opened SessionSpec

  // ---------------------------------------------------------------- the invariant

  predicate RecordOk(s: State, id: nat, rec: Record) {
    && rec.state != Expired
    && rec.generation >= 1
    && rec.current in s.minted && s.minted[rec.current] == Slot(id, rec.generation)
    && (rec.previous.None? <==> rec.generation == 1)
    && (rec.previous.Some? ==>
          rec.previous.value in s.minted && s.minted[rec.previous.value] == Slot(id, rec.generation - 1)
          && rec.previous.value in s.rotatedAt && s.rotatedAt[rec.previous.value] == rec.lastRotated)
    && (rec.loggedOut ==> rec.state == Revoked)
  }

  /** A minted token belongs to one session, is its current one exactly in its current generation, its previous one
      exactly in the generation before, and has been rotated away exactly in the older generations. */
  predicate TokenOk(s: State, t: Token) {
    t in s.minted && t.Minted? && t.n <= s.last && s.minted[t].session in s.sessions
    && (var slot := s.minted[t]; var rec := s.sessions[slot.session];
        && 1 <= slot.generation <= rec.generation
        && (slot.generation == rec.generation <==> t == rec.current)
        && (slot.generation == rec.generation - 1 <==> Some(t) == rec.previous)
        && (slot.generation < rec.generation <==> t in s.rotatedAt))
  }

  function Max(a: int, b: int): int { if a >= b then a else b }

  predicate AccessOk(cfg: Config, s: State, a: AccessJwt) {
    a.session in s.sessions && a.sub == s.sessions[a.session].user
    && a.expiresAt == a.issuedAt + cfg.ttl
    && a.expiresAt <= s.sessions[a.session].started + Max(cfg.absolute, 0) + cfg.ttl
  }

  ghost predicate SessionsOk(s: State) {
    forall id :: id in s.sessions ==> 1 <= id <= s.last && RecordOk(s, id, s.sessions[id])
  }

  ghost predicate TokensOk(s: State) {
    (forall t :: t in s.minted ==> TokenOk(s, t)) && (forall t :: t in s.rotatedAt ==> t in s.minted)
  }

  ghost predicate Inv(cfg: Config, s: State) {
    SessionsOk(s) && TokensOk(s) && forall a :: a in s.issued ==> AccessOk(cfg, s, a)
  }

  /** From s to t sessions, minted tokens and rotations are only added; owner and start never change; generations
      never fall; a revoked session stays revoked. */
  ghost predicate Evolves(s: State, t: State) {
    && (forall id :: id in s.sessions ==> id in t.sessions)
    && (forall id :: id in s.sessions ==>
          var a, b := s.sessions[id], t.sessions[id];
          a.user == b.user && a.started == b.started && a.generation <= b.generation
          && (a.state == Revoked ==> b.state == Revoked) && (a.loggedOut ==> b.loggedOut))
    && (forall x :: x in s.minted ==> x in t.minted && t.minted[x] == s.minted[x])
    && (forall x :: x in s.rotatedAt ==> x in t.rotatedAt && t.rotatedAt[x] == s.rotatedAt[x])
    && s.issued <= t.issued
  }

  lemma EstablishKeepsTokens(cfg: Config, s: State, user: string, aal: Aal, now: int)
    requires SessionsOk(s) && TokensOk(s)
    ensures SessionsOk(Establish(cfg, s, user, aal, now).0) && TokensOk(Establish(cfg, s, user, aal, now).0)
  {
    var t, newest := Establish(cfg, s, user, aal, now).0, Minted(s.last + 2);
    assert newest !in s.minted by { assert newest in s.minted ==> TokenOk(s, newest); }
    forall x | x in t.minted ensures TokenOk(t, x) {
      if x in s.minted { assert TokenOk(s, x); }
    }
    forall id | id in t.sessions ensures 1 <= id <= t.last && RecordOk(t, id, t.sessions[id]) {
      if id in s.sessions { assert RecordOk(s, id, s.sessions[id]); }
    }
  }

  lemma EstablishIsNew(s: State)
    requires SessionsOk(s) && TokensOk(s)
    ensures s.last + 1 !in s.sessions && Minted(s.last + 2) !in s.minted
  {
    assert Minted(s.last + 2) in s.minted ==> TokenOk(s, Minted(s.last + 2));
    hide RecordOk;
  }

  lemma EstablishEvolves(cfg: Config, s: State, user: string, aal: Aal, now: int)
    requires s.last + 1 !in s.sessions && Minted(s.last + 2) !in s.minted
    ensures Evolves(s, Establish(cfg, s, user, aal, now).0)
  {
  }

  lemma EstablishKeeps(cfg: Config, s: State, user: string, aal: Aal, now: int)
    requires Inv(cfg, s)
    ensures Inv(cfg, Establish(cfg, s, user, aal, now).0) && Evolves(s, Establish(cfg, s, user, aal, now).0)
  {
    hide SessionsOk, TokensOk, AccessOk, Evolves, Establish;
    EstablishIsNew(s);
    EstablishKeepsTokens(cfg, s, user, aal, now);
    EstablishKeepsAccess(cfg, s, user, aal, now);
    EstablishEvolves(cfg, s, user, aal, now);
  }

  lemma EstablishKeepsAccess(cfg: Config, s: State, user: string, aal: Aal, now: int)
    requires s.last + 1 !in s.sessions && forall a :: a in s.issued ==> AccessOk(cfg, s, a)
    ensures var t := Establish(cfg, s, user, aal, now).0; forall a :: a in t.issued ==> AccessOk(cfg, t, a)
  {
    var t := Establish(cfg, s, user, aal, now).0;
    forall a | a in t.issued ensures AccessOk(cfg, t, a) {
      if a in s.issued { assert AccessOk(cfg, s, a); }
    }
  }

  /** The parts of a record on which tokens depend. */
  predicate SameTokens(a: Record, b: Record) {
    a.generation == b.generation && a.current == b.current && a.previous == b.previous && a.lastRotated == b.lastRotated
  }

  lemma TokensOkKept(s: State, t: State)
    requires TokensOk(s) && t.last == s.last && t.minted == s.minted && t.rotatedAt == s.rotatedAt
    requires t.sessions.Keys == s.sessions.Keys && forall k :: k in s.sessions ==> SameTokens(s.sessions[k], t.sessions[k])
    ensures TokensOk(t)
  {
    forall x | x in t.minted ensures TokenOk(t, x) {
      assert TokenOk(s, x);
      assert SameTokens(s.sessions[s.minted[x].session], t.sessions[s.minted[x].session]);
    }
  }

  lemma SessionsOkKept(s: State, t: State)
    requires SessionsOk(s) && t.last == s.last && t.minted == s.minted && t.rotatedAt == s.rotatedAt
    requires t.sessions.Keys == s.sessions.Keys
    requires forall k :: k in s.sessions ==>
      SameTokens(s.sessions[k], t.sessions[k]) && (t.sessions[k] == s.sessions[k] || t.sessions[k].state == Revoked)
    ensures SessionsOk(t)
  {
    forall k | k in t.sessions ensures 1 <= k <= t.last && RecordOk(t, k, t.sessions[k]) {
      assert RecordOk(s, k, s.sessions[k]);
      assert SameTokens(s.sessions[k], t.sessions[k]);
    }
  }

  lemma AccessKept(cfg: Config, s: State, id: nat, rec: Record)
    requires id in s.sessions && (forall a :: a in s.issued ==> AccessOk(cfg, s, a))
    requires rec.started == s.sessions[id].started && rec.user == s.sessions[id].user && rec.aal == s.sessions[id].aal
    ensures forall a :: a in s.issued ==> AccessOk(cfg, s.(sessions := s.sessions[id := rec]), a)
  {
    var t := s.(sessions := s.sessions[id := rec]);
    forall a | a in t.issued ensures AccessOk(cfg, t, a) { assert AccessOk(cfg, s, a); }
  }

  /** Changing only flags of one session's record keeps everything. */
  lemma FlagsKeep(cfg: Config, s: State, id: nat, rec: Record)
    requires Inv(cfg, s) && id in s.sessions && rec.state == Revoked
    requires rec == s.sessions[id].(state := rec.state, loggedOut := rec.loggedOut, reason := rec.reason)
    requires s.sessions[id].loggedOut ==> rec.loggedOut
    ensures var t := s.(sessions := s.sessions[id := rec]); Inv(cfg, t) && Evolves(s, t)
  {
    var t := s.(sessions := s.sessions[id := rec]);
    assert t.sessions.Keys == s.sessions.Keys;
    SessionsOkKept(s, t);
    TokensOkKept(s, t);
    hide SessionsOk, TokensOk;
    AccessKept(cfg, s, id, rec);
    hide AccessOk;
  }

  lemma IssueKeeps(cfg: Config, s: State, id: nat, now: int)
    requires Inv(cfg, s) && id in s.sessions && LifetimeExceeded(cfg, s.sessions[id], now).None?
    ensures var t := s.(issued := s.issued + [MintAccess(cfg, id, s.sessions[id], now)]); Inv(cfg, t) && Evolves(s, t)
  {
    var t := s.(issued := s.issued + [MintAccess(cfg, id, s.sessions[id], now)]);
    forall x | x in t.minted ensures TokenOk(t, x) { assert TokenOk(s, x); }
    forall k | k in t.sessions ensures RecordOk(t, k, t.sessions[k]) { assert RecordOk(s, k, s.sessions[k]); }
    forall a | a in t.issued ensures AccessOk(cfg, t, a) {
      if a in s.issued { assert AccessOk(cfg, s, a); }
    }
  }

  function AfterRotation(cfg: Config, s: State, id: nat, now: int): State
    requires id in s.sessions
  {
    var rec, token := s.sessions[id], Minted(s.last + 1);
    var next := Rotated(rec, token, now);
    State(s.last + 1, s.sessions[id := next], s.minted[token := Slot(id, next.generation)], s.rotatedAt[rec.current := now],
          s.issued + [MintAccess(cfg, id, next, now)])
  }

  lemma RotationKeepsTokens(cfg: Config, s: State, id: nat, now: int)
    requires SessionsOk(s) && TokensOk(s) && id in s.sessions
    ensures TokensOk(AfterRotation(cfg, s, id, now))
  {
    var t, rec := AfterRotation(cfg, s, id, now), s.sessions[id];
    assert RecordOk(s, id, rec) && TokenOk(s, rec.current);
    forall x | x in t.minted ensures TokenOk(t, x) {
      if x in s.minted {
        assert TokenOk(s, x);
        assert x != Minted(s.last + 1);
      }
    }
  }

  lemma RotationKeepsSessions(cfg: Config, s: State, id: nat, now: int)
    requires SessionsOk(s) && TokensOk(s) && id in s.sessions
    ensures SessionsOk(AfterRotation(cfg, s, id, now))
  {
    var t, rec := AfterRotation(cfg, s, id, now), s.sessions[id];
    assert RecordOk(s, id, rec) && TokenOk(s, rec.current);
    forall k | k in t.sessions ensures 1 <= k <= t.last && RecordOk(t, k, t.sessions[k]) {
      assert RecordOk(s, k, s.sessions[k]);
      assert TokenOk(s, s.sessions[k].current);
      assert s.sessions[k].previous.Some? ==> TokenOk(s, s.sessions[k].previous.value);
    }
  }

  lemma RotationKeeps(cfg: Config, s: State, id: nat, now: int)
    requires Inv(cfg, s) && id in s.sessions && LifetimeExceeded(cfg, s.sessions[id], now).None?
    ensures Inv(cfg, AfterRotation(cfg, s, id, now)) && Evolves(s, AfterRotation(cfg, s, id, now))
  {
    FreshToken(s);
    RotationEvolves(cfg, s, id, now) by { CurrentNotRotated(s, id); }
    RotationKeepsTokens(cfg, s, id, now);
    RotationKeepsSessions(cfg, s, id, now);
    RotationKeepsAccess(cfg, s, id, now);
    hide SessionsOk, TokensOk, AccessOk, AfterRotation, Evolves;
  }

  lemma CurrentNotRotated(s: State, id: nat)
    requires SessionsOk(s) && TokensOk(s) && id in s.sessions
    ensures s.sessions[id].current in s.minted && s.sessions[id].current !in s.rotatedAt
  {
    assert RecordOk(s, id, s.sessions[id]) && TokenOk(s, s.sessions[id].current);
  }

  lemma RotationEvolves(cfg: Config, s: State, id: nat, now: int)
    requires id in s.sessions && s.sessions[id].current !in s.rotatedAt && Minted(s.last + 1) !in s.minted
    ensures Evolves(s, AfterRotation(cfg, s, id, now))
  {
  }

  lemma RotationKeepsAccess(cfg: Config, s: State, id: nat, now: int)
    requires Inv(cfg, s) && id in s.sessions && LifetimeExceeded(cfg, s.sessions[id], now).None?
    ensures forall a :: a in AfterRotation(cfg, s, id, now).issued ==> AccessOk(cfg, AfterRotation(cfg, s, id, now), a)
  {
    var t := AfterRotation(cfg, s, id, now);
    hide SessionsOk, TokensOk;
    forall a | a in t.issued ensures AccessOk(cfg, t, a) {
      if a in s.issued { assert AccessOk(cfg, s, a); }
    }
  }

  lemma FreshToken(s: State)
    requires TokensOk(s)
    ensures Minted(s.last + 1) !in s.minted && Minted(s.last + 1) !in s.rotatedAt
  {
    assert Minted(s.last + 1) in s.minted ==> TokenOk(s, Minted(s.last + 1));
  }

  lemma EvolvesRefl(s: State)
    ensures Evolves(s, s)
  {
  }

  lemma RefreshKeeps(cfg: Config, s: State, presented: RefreshToken, now: int)
    requires Inv(cfg, s)
    ensures Inv(cfg, Refresh(cfg, s, presented, now).0) && Evolves(s, Refresh(cfg, s, presented, now).0)
  {
    hide Inv, Evolves;
    var id := presented.session;
    EvolvesRefl(s);
    if id in s.sessions {
      var rec := s.sessions[id];
      var exceeded := LifetimeExceeded(cfg, rec, now);
      FlagsKeep(cfg, s, id, Revoke(rec, ReuseDetected));
      if exceeded.Some? {
        FlagsKeep(cfg, s, id, Revoke(rec, exceeded.value));
      } else {
        IssueKeeps(cfg, s, id, now);
        RotationKeeps(cfg, s, id, now);
      }
    }
  }

  lemma StepKeeps(cfg: Config, s: State, op: Op)
    requires Inv(cfg, s)
    ensures Inv(cfg, Step(cfg, s, op)) && Evolves(s, Step(cfg, s, op))
  {
    hide Inv, Evolves;
    match op
    case OpEstablish(user, aal, now) => EstablishKeeps(cfg, s, user, aal, now);
    case OpRefresh(presented, now) => RefreshKeeps(cfg, s, presented, now);
    case OpLogout(id) =>
      EvolvesRefl(s);
      if id in s.sessions {
        FlagsKeep(cfg, s, id, s.sessions[id].(loggedOut := true, state := Revoked, reason := Some(ServerLogout)));
      }
  }

  lemma EvolvesTrans(s: State, t: State, u: State)
    requires Evolves(s, t) && Evolves(t, u)
    ensures Evolves(s, u)
  {
  }

  lemma {:induction false} RunKeeps(cfg: Config, s: State, ops: seq<Op>)
    requires Inv(cfg, s)
    ensures Inv(cfg, Run(cfg, s, ops)) && Evolves(s, Run(cfg, s, ops))
    decreases |ops|
  {
    hide Inv, Evolves, Step;
    EvolvesRefl(s);
    if |ops| > 0 {
      var before := ops[..|ops| - 1];
      RunKeeps(cfg, s, before);
      StepKeeps(cfg, Run(cfg, s, before), ops[|ops| - 1]);
      EvolvesTrans(s, Run(cfg, s, before), Run(cfg, s, ops));
    }
  }

  lemma EmptyOk(cfg: Config)
    ensures Inv(cfg, Empty)
  {
  }

  // ---------------------------------------------------------------- rotation

  /** The refresh rotates the presented token away. */
  predicate Rotates(cfg: Config, s: State, presented: RefreshToken, now: int) {
    presented.session in s.sessions && presented.generation == s.sessions[presented.session].generation
    && Refresh(cfg, s, presented, now).1.Refreshed?
  }

  /** A refresh succeeds exactly on a live session within its bounds, for the current token in the current generation,
      or for the immediately previous token within the reuse interval; only the first of these changes the session. */
  lemma RefreshSucceedsIff(cfg: Config, s: State, presented: RefreshToken, now: int)
    ensures Refresh(cfg, s, presented, now).1.Refreshed? <==>
      && presented.session in s.sessions
      && var rec := s.sessions[presented.session];
      && rec.state != Revoked && now - rec.lastActivity <= cfg.inactivity && now - rec.started <= cfg.absolute
      && (|| (presented.generation == rec.generation && presented.token == rec.current)
          || (presented.generation < rec.generation && Some(presented.token) == rec.previous && now - rec.lastRotated <= REUSE_INTERVAL))
    ensures Refresh(cfg, s, presented, now).1.Refreshed? && !Rotates(cfg, s, presented, now) ==>
              Refresh(cfg, s, presented, now).0.sessions == s.sessions
  {
  }

  /** A successful rotation raises the generation by one and hands out a token that was never handed out before. */
  lemma RotationIsLinear(cfg: Config, s: State, presented: RefreshToken, now: int)
    requires Inv(cfg, s) && Rotates(cfg, s, presented, now)
    ensures var (t, r) := Refresh(cfg, s, presented, now);
      && t.sessions[presented.session].generation == s.sessions[presented.session].generation + 1 == r.refresh.generation
      && r.refresh.token !in s.minted && t.minted[r.refresh.token] == Slot(presented.session, r.refresh.generation)
      && presented.token !in s.rotatedAt && presented.token in t.rotatedAt && t.rotatedAt[presented.token] == now
  {
    assert RecordOk(s, presented.session, s.sessions[presented.session]);
    assert TokenOk(s, s.sessions[presented.session].current);
    FreshToken(s);
  }

  /** EACH TOKEN ROTATES AT MOST ONCE: a token that was rotated away rotates nothing in any later state, in any
      session and under any claimed generation. */
  lemma RotatesAtMostOnce(cfg: Config, s: State, later: seq<Op>, presented: RefreshToken, now: int)
    requires Inv(cfg, s) && presented.token in s.rotatedAt
    ensures !Rotates(cfg, Run(cfg, s, later), presented, now)
  {
    var t := Run(cfg, s, later);
    RunKeeps(cfg, s, later);
    if Rotates(cfg, t, presented, now) {
      RotationIsLinear(cfg, t, presented, now);
      assert false;
    }
  }

  /** Every token handed out in a run is minted for the session and generation it names, so token values are distinct
      across sessions. */
  lemma HandedOutIsMinted(cfg: Config, s: State, presented: RefreshToken, now: int)
    requires Inv(cfg, s) && Refresh(cfg, s, presented, now).1.Refreshed?
    ensures var (t, r) := Refresh(cfg, s, presented, now);
            r.refresh.token in t.minted && t.minted[r.refresh.token] == Slot(r.refresh.session, r.refresh.generation)
            && r.refresh.session == presented.session == r.access.session
  {
    RefreshKeeps(cfg, s, presented, now);
    var (t, r) := Refresh(cfg, s, presented, now);
    assert RecordOk(t, presented.session, t.sessions[presented.session]);
    hide Inv, Evolves, RecordOk;
  }

  /** The token was minted for a generation before the immediate predecessor of its session's, or for the predecessor's when
      the reuse interval is over. */
  predicate Outdated(s: State, token: Token, now: int) {
    token in s.minted && s.minted[token].session in s.sessions
    && var slot := s.minted[token]; var rec := s.sessions[slot.session];
       slot.generation < rec.generation - 1 || (slot.generation == rec.generation - 1 && now - rec.lastRotated > REUSE_INTERVAL)
  }

  /** REUSE DETECTION over every continuation. Presenting an outdated token fails, under whatever generation and for whatever
      session it is presented, and leaves the session it is presented for revoked for good. */
  lemma OldTokenRevokesForGood(cfg: Config, s: State, presented: RefreshToken, now: int, later: seq<Op>)
    requires Inv(cfg, s) && Outdated(s, presented.token, now)
    ensures var t := Run(cfg, Refresh(cfg, s, presented, now).0, later);
            && !Refresh(cfg, s, presented, now).1.Refreshed?
            && (presented.session in s.sessions ==> presented.session in t.sessions && t.sessions[presented.session].state == Revoked)
  {
    var t := Refresh(cfg, s, presented, now).0;
    if presented.session in s.sessions {
      assert TokenOk(s, presented.token);
      assert RecordOk(s, presented.session, s.sessions[presented.session]);
      assert t.sessions[presented.session].state == Revoked;
    }
    RefreshKeeps(cfg, s, presented, now);
    RunKeeps(cfg, t, later);
  }

  /** A rotated token is accepted again only within the reuse interval after the moment it was rotated. */
  lemma ReuseWindow(cfg: Config, s: State, presented: RefreshToken, now: int)
    requires Inv(cfg, s) && presented.token in s.rotatedAt && Refresh(cfg, s, presented, now).1.Refreshed?
    ensures now <= s.rotatedAt[presented.token] + REUSE_INTERVAL
    ensures Refresh(cfg, s, presented, now).0.sessions == s.sessions
  {
    var rec := s.sessions[presented.session];
    assert RecordOk(s, presented.session, rec);
    assert TokenOk(s, rec.current);
    RefreshSucceedsIff(cfg, s, presented, now);
  }

  // ---------------------------------------------------------------- counting rotations

  function RotationsIn(cfg: Config, s: State, op: Op, id: nat): nat {
    if op.OpRefresh? && op.presented.session == id && Rotates(cfg, s, op.presented, op.now) then 1 else 0
  }

  /** The successful rotations of a session over a run. */
  function Rotations(cfg: Config, s: State, ops: seq<Op>, id: nat): nat
    decreases |ops|
  {
    if |ops| == 0 then 0
    else
      var before := ops[..|ops| - 1];
      Rotations(cfg, s, before, id) + RotationsIn(cfg, Run(cfg, s, before), ops[|ops| - 1], id)
  }

  lemma StepGeneration(cfg: Config, s: State, op: Op, id: nat)
    requires Inv(cfg, s) && id in s.sessions
    ensures id in Step(cfg, s, op).sessions
    ensures Step(cfg, s, op).sessions[id].generation == s.sessions[id].generation + RotationsIn(cfg, s, op, id)
  {
    hide Inv;
    if op.OpEstablish? {
      assert id != s.last + 1 by { assert Inv(cfg, s); NotFresh(cfg, s, id); }
    }
  }

  lemma NotFresh(cfg: Config, s: State, id: nat)
    requires Inv(cfg, s) && id in s.sessions
    ensures id <= s.last
  {
  }

  /** In every run a session's generation is its starting generation plus the number of its successful rotations. */
  lemma {:induction false} GenerationCountsRotations(cfg: Config, s: State, ops: seq<Op>, id: nat)
    requires Inv(cfg, s) && id in s.sessions
    ensures id in Run(cfg, s, ops).sessions
    ensures Run(cfg, s, ops).sessions[id].generation == s.sessions[id].generation + Rotations(cfg, s, ops, id)
    decreases |ops|
  {
    hide Inv, RotationsIn, Step;
    if |ops| > 0 {
      var before := ops[..|ops| - 1];
      GenerationCountsRotations(cfg, s, before, id);
      RunKeeps(cfg, s, before);
      StepGeneration(cfg, Run(cfg, s, before), ops[|ops| - 1], id);
    }
  }

  // ---------------------------------------------------------------- revocation and lifetime

  /** REVOKED FOREVER: once a session is revoked, in every later state no refresh of it succeeds and no access token of
      it authenticates. */
  lemma RevokedForever(cfg: Config, s: State, later: seq<Op>, id: nat, presented: RefreshToken, access: AccessJwt, now: int)
    requires Inv(cfg, s) && id in s.sessions && s.sessions[id].state == Revoked
    requires presented.session == id && access.session == id
    ensures var t := Run(cfg, s, later);
            !Refresh(cfg, t, presented, now).1.Refreshed? && GetUser(t, access, now) != Authenticated
  {
    RunKeeps(cfg, s, later);
  }

  /** LIFETIME: every access token issued in any run, through rotation or through the reuse window, belongs to its
      session's user and expires no later than the session's start plus the absolute bound plus one token lifetime. */
  lemma AccessLifetimeBound(cfg: Config, ops: seq<Op>, a: AccessJwt)
    requires a in Run(cfg, Empty, ops).issued
    ensures var s := Run(cfg, Empty, ops);
            a.session in s.sessions && a.sub == s.sessions[a.session].user
            && a.expiresAt <= s.sessions[a.session].started + Max(cfg.absolute, 0) + cfg.ttl
  {
    EmptyOk(cfg);
    RunKeeps(cfg, Empty, ops);
    assert AccessOk(cfg, Run(cfg, Empty, ops), a);
  }

  /** Server-side state overrules a valid token: a logged-out session never authenticates, although the local check
      still accepts the token until it expires. */
  lemma LogoutBeatsClaims(cfg: Config, s: State, later: seq<Op>, access: AccessJwt, now: int)
    requires Inv(cfg, s) && access.session in s.sessions && ClaimsValid(access, now)
    ensures GetUser(Run(cfg, Logout(s, access.session), later), access, now) == LoggedOut
  {
    StepKeeps(cfg, s, OpLogout(access.session));
    RunKeeps(cfg, Logout(s, access.session), later);
  }
}
