/** No hit is masked, and no flag or escalation goes unannounced. */
module ApprovalNotices {
  import opened Wrappers
  import opened Tiers
  import opened Numbered
  import opened ApprovalSpec

  /** The row shows the hit. */
  predicate ShowsHit(row: Row, h: Hit, now: int) {
    row.kind == h.kind && row.taskId == h.action.actionType && |row.description| > 0 && row.description[0] == Fired(h.text)
    && row.createdAt == now && row.actionBlocked
  }

  lemma BatchShowsHits(hits: seq<Hit>, now: int, i: nat)
    requires i < |hits|
    ensures ShowsHit(HitRows(hits, now)[i], hits[i], now) && HitRows(hits, now)[i].status == Pending
    ensures ShowsHit(KilledRows(hits, now)[i], hits[i], now)
  {
  }

  /** The batch's routing reached every row of it. */
  predicate Routed(t: State, id: nat, routing: RoutingOutcome) {
    id in t.meta && t.meta[id].routing == Some(routing) && t.meta[id].tier == Hard && t.meta[id].softDeadline.None?
  }

  lemma BatchRowAt(s: State, hits: seq<Hit>, now: int, i: nat)
    requires i < |hits|
    ensures var id, t := s.last + 1 + i, Append(s.rows, s.last, HitRows(hits, now));
            id in t && ShowsHit(t[id], hits[i], now) && t[id].status == Pending
    ensures var id, t := s.last + 1 + i, Append(s.rows, s.last, KilledRows(hits, now));
            id in t && ShowsHit(t[id], hits[i], now)
  {
    BatchShowsHits(hits, now, i);
    hide HitRows, KilledRows, ShowsHit, Append;
    AppendedAt(s.rows, s.last, HitRows(hits, now), i);
    AppendedAt(s.rows, s.last, KilledRows(hits, now), i);
  }

  /** NO HIT IS MASKED. Raising a flag writes one row per hit, in order, each showing its hit; without a hard limit and with
      a known task all of them are pending and routed by the first hit. */
  lemma NoHitMasked(s: State, hits: seq<Hit>, candidates: seq<Reviewer>, rules: RoutingRules, now: int, delivers: nat -> bool, i: nat)
    requires i < |hits|
    ensures var (t, r) := RaiseFlag(s, hits, candidates, rules, now, delivers);
      var id := s.last + 1 + i;
      && id in t.rows && ShowsHit(t.rows[id], hits[i], now)
      && (r.Ok? && r.value.FlaggedForReview? ==>
            t.rows[id].status == Pending && Routed(t, id, RouteApproval(hits[0].action, candidates, rules)))
  {
    hide RaiseFlag, ShowsHit, HitRows, KilledRows, HitMetas, Append, RouteApproval, HasHardLimit;
    FlagWrites(s, hits, candidates, rules, now, delivers);
    BatchRowAt(s, hits, now, i);
    MetaRouted(hits, RouteApproval(hits[0].action, candidates, rules), i);
    AppendedAt(s.meta, s.last, HitMetas(hits, Some(RouteApproval(hits[0].action, candidates, rules))), i);
  }

  lemma AppendedAt<T>(m: map<nat, T>, last: nat, xs: seq<T>, i: nat)
    requires i < |xs|
    ensures last + 1 + i in Append(m, last, xs) && Append(m, last, xs)[last + 1 + i] == xs[i]
  {
    AppendLookup(m, last, xs, last + 1 + i);
  }

  lemma FlagWrites(s: State, hits: seq<Hit>, candidates: seq<Reviewer>, rules: RoutingRules, now: int, delivers: nat -> bool)
    requires |hits| > 0
    ensures var (t, r) := RaiseFlag(s, hits, candidates, rules, now, delivers);
      && t.rows == Append(s.rows, s.last, if HasHardLimit(hits) then KilledRows(hits, now) else HitRows(hits, now))
      && (r.Ok? && r.value.FlaggedForReview? ==>
            !HasHardLimit(hits) && t.meta == Append(s.meta, s.last, HitMetas(hits, Some(RouteApproval(hits[0].action, candidates, rules)))))
  {
    hide HitRows, KilledRows, HitMetas, Append, RouteApproval, HasHardLimit;
  }

  /** EVERY FLAG IS ANNOUNCED. A batch held for review flags its task and no other, and adds exactly one notice, addressed by
      the routing of its first hit: sent, or surfaced as dropped. */
  lemma FlagIsAnnounced(s: State, hits: seq<Hit>, candidates: seq<Reviewer>, rules: RoutingRules, now: int, delivers: nat -> bool)
    ensures var (t, r) := RaiseFlag(s, hits, candidates, rules, now, delivers);
      r.Ok? && r.value.FlaggedForReview? ==>
        && |hits| > 0 && !HasHardLimit(hits) && r.value.notified == delivers(s.last + 1)
        && var task, routing := hits[|hits| - 1].action.actionType, RouteApproval(hits[0].action, candidates, rules);
           var n := FlagRaised(s.last + 1, task, routing.reviewer, routing.role, now);
        && r.value.routing == routing
        && (task != "" ==> task in t.tasks && t.tasks[task].status == Flagged)
        && t.tasks.Keys == s.tasks.Keys && (forall other :: other in s.tasks && other != task ==> t.tasks[other] == s.tasks[other])
        && (if r.value.notified then t.sent == s.sent + [n] && t.dropped == s.dropped else t.sent == s.sent && t.dropped == s.dropped + [n])
  {
    hide HitRows, KilledRows, HitMetas, Append, RouteApproval, HasHardLimit;
  }

  lemma MetaRouted(hits: seq<Hit>, routing: RoutingOutcome, i: nat)
    requires i < |hits|
    ensures var m := HitMetas(hits, Some(routing))[i]; m.routing == Some(routing) && m.tier == Hard && m.softDeadline.None?
  {
  }

  /** The notice for escalating a row: to Super-Admin from the widening count on, else to whom the row was routed. */
  predicate Addressed(cfg: Config, s: State, id: nat, now: int, n: Notification) {
    && id in s.rows && id in s.meta && n.StaleWait? && n.rowId == id && n.taskId == s.rows[id].taskId && n.at == now
    && n.escalation == s.meta[id].escalations + 1
    && (n.widened <==> n.escalation >= cfg.widenAfter)
    && (n.widened ==> n.role == SUPER_ADMIN && n.reviewer.None?)
    && (!n.widened && s.meta[id].routing.Some? ==> n.role == s.meta[id].routing.value.role && n.reviewer == s.meta[id].routing.value.reviewer)
    && (!n.widened && s.meta[id].routing.None? ==> n.role == "reviewer" && n.reviewer.None?)
  }

  lemma EscalateRowNotifies(cfg: Config, s: State, id: nat, now: int, delivers: nat -> bool)
    ensures var t := EscalateRow(cfg, s, id, now, delivers);
      if Stale(cfg, s, id, now) then
        exists n :: Addressed(cfg, s, id, now, n)
          && (if delivers(id) then t.sent == s.sent + [n] && t.dropped == s.dropped else t.sent == s.sent && t.dropped == s.dropped + [n])
      else t.sent == s.sent && t.dropped == s.dropped
    ensures forall k :: k != id ==> Stale(cfg, EscalateRow(cfg, s, id, now, delivers), k, now) == Stale(cfg, s, k, now)
    ensures forall k, n :: k != id ==> Addressed(cfg, EscalateRow(cfg, s, id, now, delivers), k, now, n) == Addressed(cfg, s, k, now, n)
  {
    if Stale(cfg, s, id, now) {
      assert Addressed(cfg, s, id, now, StaleNotice(cfg, id, s.rows[id], s.meta[id], now));
    }
  }

  /** NO SILENT ESCALATION. A sweep adds exactly one notice per escalated row, sent or surfaced as dropped, and keeps all
      earlier ones; each is addressed by the row's routing and count. */
  lemma {:induction false} EscalationsNotify(cfg: Config, s: State, id: nat, now: int, delivers: nat -> bool)
    ensures var (t, escalated) := EscalateFrom(cfg, s, id, now, delivers);
      && s.sent <= t.sent && s.dropped <= t.dropped
      && |t.sent| + |t.dropped| == |s.sent| + |s.dropped| + |escalated|
      && forall k :: id <= k <= s.last && Stale(cfg, s, k, now) ==>
           exists n :: Addressed(cfg, s, k, now, n) && n in if delivers(k) then t.sent else t.dropped
    decreases s.last + 1 - id
  {
    hide Stale, Addressed, EscalateRow;
    if id <= s.last {
      var mid := EscalateRow(cfg, s, id, now, delivers);
      EscalateRowNotifies(cfg, s, id, now, delivers);
      EscalationsNotify(cfg, mid, id + 1, now, delivers);
      var (t, escalated) := EscalateFrom(cfg, s, id, now, delivers);
      forall k | id <= k <= s.last && Stale(cfg, s, k, now)
        ensures exists n :: Addressed(cfg, s, k, now, n) && n in if delivers(k) then t.sent else t.dropped
      {
        if k == id {
          var n :| Addressed(cfg, s, id, now, n)
            && (if delivers(id) then mid.sent == s.sent + [n] && mid.dropped == s.dropped else mid.sent == s.sent && mid.dropped == s.dropped + [n]);
          assert n in if delivers(id) then mid.sent else mid.dropped;
        } else {
          var n :| Addressed(cfg, mid, k, now, n) && n in if delivers(k) then t.sent else t.dropped;
        }
      }
    }
  }
}
