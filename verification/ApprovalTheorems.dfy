/** Safety of the approval workflow over every run. */
module ApprovalTheorems {
  import opened Wrappers
  import opened Tiers
  import opened Numbered
  import opened ApprovalSpec

  // ---------------------------------------------------------------- the invariant

  /** What every row and its bookkeeping satisfy together. */
  predicate RowOk(cfg: Config, r: Row, m: Meta) {
    // a hard limit is pending forever, unresolvable and never escalated
    && (r.kind == HardLimit ==> r.status == Pending && m.floored && m.escalations == 0)
    && (m.waitKind == ApprovalWait ==> r.kind == ApprovalGate)
    // a running countdown belongs to a pending, unheld, soft gate and is anchored at its creation
    && (m.softDeadline.Some? ==> r.status == Pending && m.tier == Soft && !m.held && m.softDeadline.value == r.createdAt + cfg.softTimeout)
    && (m.tier == Soft ==> m.waitKind == ApprovalWait && !m.floored)
    && (m.tier == Soft && r.status == Pending ==> m.softDeadline.Some?)
    && (m.held ==> m.tier == Hard && m.waitKind == ApprovalWait)
    && m.tier != Auto && r.actionBlocked
    // resolution stamps
    && (r.status == Pending <==> r.reviewedAt.None?)
    && (r.status == Pending ==> r.reviewedBy.None?)
    && (r.status == Modified ==> r.reviewedBy.Some?)
    && (r.status == Approved && r.reviewedBy.None? ==> m.tier == Soft && !m.held && r.reviewedAt.value >= r.createdAt + cfg.softTimeout)
    // each escalation is a full window after the previous one
    && (m.escalations == 0 <==> r.escalatedAt.None?)
    && (r.escalatedAt.Some? ==> r.escalatedAt.value >= r.createdAt + m.escalations * cfg.escalationTimeout)
  }

  /** An escalation notice was sent after as many full windows as its number says, and widens from that number on. */
  predicate NoticeOk(cfg: Config, s: State, n: Notification) {
    n.rowId in s.rows && s.rows[n.rowId].kind != HardLimit &&
    (n.StaleWait? ==>
      && n.at >= s.rows[n.rowId].createdAt + n.escalation * cfg.escalationTimeout
      && (n.widened <==> n.escalation >= cfg.widenAfter)
      && (n.widened ==> n.role == SUPER_ADMIN && n.reviewer.None?))
  }

  predicate ReleasedOk(s: State, id: nat) {
    id in s.rows && s.rows[id].status == Approved && s.rows[id].taskId != ""
  }

  ghost predicate RowsOk(cfg: Config, s: State) {
    && s.rows.Keys == s.meta.Keys
    && (forall id :: id in s.rows <==> 1 <= id <= s.last)
    && (forall id :: id in s.rows ==> RowOk(cfg, s.rows[id], s.meta[id]))
  }

  ghost predicate NoticesOk(cfg: Config, s: State) {
    (forall n :: n in s.sent ==> NoticeOk(cfg, s, n)) && (forall n :: n in s.dropped ==> NoticeOk(cfg, s, n))
  }

  ghost predicate ResumedOk(s: State) {
    NoDup(s.resumed) && forall id :: id in s.resumed ==> ReleasedOk(s, id)
  }

  ghost predicate Inv(cfg: Config, s: State) {
    RowsOk(cfg, s) && NoticesOk(cfg, s) && ResumedOk(s)
  }

  /** From s to t no row disappears, changes its kind, task or creation time, and a resolved row does not change. */
  ghost predicate Evolves(s: State, t: State) {
    && s.last <= t.last
    && (forall id :: id in s.rows ==> id in t.rows && id in t.meta)
    && (forall id :: id in s.rows ==> t.rows[id].kind == s.rows[id].kind && t.rows[id].taskId == s.rows[id].taskId
                                      && t.rows[id].createdAt == s.rows[id].createdAt)
    && (forall id :: id in s.rows && id in s.meta && s.rows[id].status != Pending ==>
          t.rows[id] == s.rows[id] && t.meta[id] == s.meta[id])
    && s.resumed <= t.resumed
    && (forall k :: |s.resumed| <= k < |t.resumed| ==> t.resumed[k] !in s.rows || s.rows[t.resumed[k]].status == Pending)
  }

  lemma EvolvesRefl(cfg: Config, s: State)
    requires Inv(cfg, s)
    ensures Evolves(s, s)
  {
  }

  lemma EvolvesTrans(cfg: Config, s: State, t: State, u: State)
    requires Inv(cfg, s) && Inv(cfg, t)
    requires Evolves(s, t) && Evolves(t, u)
    ensures Evolves(s, u)
  {
    forall k | |s.resumed| <= k < |u.resumed|
      ensures u.resumed[k] !in s.rows || s.rows[u.resumed[k]].status == Pending
    {
      if k < |t.resumed| { assert u.resumed[k] == t.resumed[k]; }
    }
  }

  // ---------------------------------------------------------------- every operation keeps it

  /** The next state writes one row: a new one, or a change to a pending one that keeps its kind, task and time. */
  ghost predicate WritesRow(s: State, t: State, id: nat) {
    && id in t.rows && id in t.meta
    && t.rows == s.rows[id := t.rows[id]] && t.meta == s.meta[id := t.meta[id]]
    && (if id in s.rows then
          t.last == s.last && s.rows[id].status == Pending && t.rows[id].kind == s.rows[id].kind
          && t.rows[id].taskId == s.rows[id].taskId && t.rows[id].createdAt == s.rows[id].createdAt
        else id == t.last == s.last + 1)
  }

  lemma WriteKeepsRows(cfg: Config, s: State, t: State, id: nat)
    requires RowsOk(cfg, s) && WritesRow(s, t, id) && RowOk(cfg, t.rows[id], t.meta[id])
    ensures RowsOk(cfg, t)
  {
  }

  lemma NoticesKept(cfg: Config, s: State, t: State)
    requires NoticesOk(cfg, s)
    requires forall id :: id in s.rows ==> id in t.rows && t.rows[id].kind == s.rows[id].kind && t.rows[id].createdAt == s.rows[id].createdAt
    requires forall n :: n in t.sent || n in t.dropped ==> n in s.sent || n in s.dropped || NoticeOk(cfg, t, n)
    ensures NoticesOk(cfg, t)
  {
  }

  /** A resumed row was pending just before. */
  lemma ResumedKept(s: State, t: State, id: nat)
    requires ResumedOk(s)
    requires forall k :: k in s.rows && s.rows[k].status != Pending ==> k in t.rows && t.rows[k] == s.rows[k]
    requires t.resumed == s.resumed
             || (t.resumed == s.resumed + [id] && id in s.rows && s.rows[id].status == Pending && ReleasedOk(t, id))
    ensures ResumedOk(t)
    ensures s.resumed <= t.resumed
    ensures forall k :: |s.resumed| <= k < |t.resumed| ==> t.resumed[k] == id && id in s.rows && s.rows[id].status == Pending
  {
    if t.resumed != s.resumed {
      assert id !in s.resumed;
    }
    forall k | k in t.resumed ensures ReleasedOk(t, k) {
      if k in s.resumed { assert ReleasedOk(s, k); }
    }
  }

  /** Writing one good row, with at most one good notice and at most one release, keeps everything. */
  lemma WriteKeeps(cfg: Config, s: State, t: State, id: nat)
    requires Inv(cfg, s) && WritesRow(s, t, id) && RowOk(cfg, t.rows[id], t.meta[id])
    requires forall n :: n in t.sent || n in t.dropped ==> n in s.sent || n in s.dropped || NoticeOk(cfg, t, n)
    requires t.resumed == s.resumed
             || (t.resumed == s.resumed + [id] && id in s.rows && t.rows[id].status == Approved && t.rows[id].taskId != "")
    ensures Inv(cfg, t) && Evolves(s, t)
  {
    WriteKeepsRows(cfg, s, t, id);
    NoticesKept(cfg, s, t);
    ResumedKept(s, t, id);
  }

  lemma SameRowsKeeps(cfg: Config, s: State, t: State)
    requires Inv(cfg, s) && t.rows == s.rows && t.meta == s.meta && t.last == s.last
    requires t.sent == s.sent && t.dropped == s.dropped && t.resumed == s.resumed
    ensures Inv(cfg, t) && Evolves(s, t)
  {
    NoticesKept(cfg, s, t);
    ResumedKept(s, t, 0);
  }

  lemma GateKeeps(cfg: Config, s: State, action: GatedAction, matrix: AutonomyMatrix, now: int)
    requires Inv(cfg, s)
    ensures Inv(cfg, TierAndGate(cfg, s, action, matrix, now).0)
    ensures Evolves(s, TierAndGate(cfg, s, action, matrix, now).0)
  {
    var t := TierAndGate(cfg, s, action, matrix, now).0;
    var d := ClassifyTier(action, matrix);
    if d.tier == Auto {
      SameRowsKeeps(cfg, s, t);
    } else {
      assert RowOk(cfg, GateRow(action, d, now), GateMeta(cfg, d, now));
      WriteKeeps(cfg, s, t, s.last + 1);
    }
  }

  lemma AutoRunRowKeeps(cfg: Config, s: State, id: nat, now: int)
    requires Inv(cfg, s)
    ensures Inv(cfg, AutoRunRow(s, id, now).0)
    ensures Evolves(s, AutoRunRow(s, id, now).0)
    ensures AutoRunRow(s, id, now).0.last == s.last
  {
    var t := AutoRunRow(s, id, now).0;
    if Due(s, id, now) {
      assert RowOk(cfg, s.rows[id], s.meta[id]);
      assert RowOk(cfg, t.rows[id], t.meta[id]);
      WriteKeeps(cfg, s, t, id);
    } else {
      SameRowsKeeps(cfg, s, t);
    }
  }

  lemma {:induction false} AutoRunKeeps(cfg: Config, s: State, id: nat, now: int)
    requires Inv(cfg, s)
    ensures Inv(cfg, AutoRunFrom(s, id, now).0)
    ensures Evolves(s, AutoRunFrom(s, id, now).0)
    decreases s.last + 1 - id
  {
    hide Inv, Evolves, AutoRunRow;
    EvolvesRefl(cfg, s);
    if id <= s.last {
      AutoRunRowKeeps(cfg, s, id, now);
      var one := AutoRunRow(s, id, now);
      if one.1.None? {
        AutoRunKeeps(cfg, one.0, id + 1, now);
        EvolvesTrans(cfg, s, one.0, AutoRunFrom(one.0, id + 1, now).0);
      }
    }
  }

  lemma HoldKeeps(cfg: Config, s: State, id: nat, who: string)
    requires Inv(cfg, s)
    ensures Inv(cfg, Hold(s, id, who).0)
    ensures Evolves(s, Hold(s, id, who).0)
  {
    var t := Hold(s, id, who).0;
    if HoldError(s, id).None? {
      assert RowOk(cfg, s.rows[id], s.meta[id]);
      assert RowOk(cfg, t.rows[id], t.meta[id]);
      WriteKeeps(cfg, s, t, id);
    } else {
      SameRowsKeeps(cfg, s, t);
    }
  }

  lemma AddBatchRows(cfg: Config, s: State, rows: seq<Row>, meta: seq<Meta>)
    requires RowsOk(cfg, s) && |rows| == |meta|
    requires forall i :: 0 <= i < |rows| ==> RowOk(cfg, rows[i], meta[i])
    ensures RowsOk(cfg, AddBatch(s, rows, meta))
    ensures var t := AddBatch(s, rows, meta);
            forall id :: id in s.rows ==> id in t.rows && id in t.meta && t.rows[id] == s.rows[id] && t.meta[id] == s.meta[id]
  {
    var t := AddBatch(s, rows, meta);
    hide RowOk, Append;
    forall id: nat
      ensures id in t.rows <==> 1 <= id <= t.last
      ensures id in t.meta <==> id in t.rows
      ensures id in t.rows ==> RowOk(cfg, t.rows[id], t.meta[id])
      ensures id in s.rows ==> t.rows[id] == s.rows[id] && t.meta[id] == s.meta[id]
    {
      AppendLookup(s.rows, s.last, rows, id);
      AppendLookup(s.meta, s.last, meta, id);
    }
    assert t.rows.Keys == t.meta.Keys;
  }

  lemma OldRowsUntouched(cfg: Config, s: State, t: State)
    requires Inv(cfg, s) && RowsOk(cfg, t) && s.last <= t.last && t.resumed == s.resumed
    requires forall id :: id in s.rows ==> id in t.rows && t.rows[id] == s.rows[id] && t.meta[id] == s.meta[id]
    requires forall m :: m in t.sent || m in t.dropped ==> m in s.sent || m in s.dropped || NoticeOk(cfg, t, m)
    ensures Inv(cfg, t) && Evolves(s, t)
  {
    hide RowOk;
    NoticesKept(cfg, s, t);
    ResumedKept(s, t, 0);
  }

  lemma BatchKeeps(cfg: Config, s: State, rows: seq<Row>, meta: seq<Meta>, t: State)
    requires Inv(cfg, s) && |rows| == |meta|
    requires forall i :: 0 <= i < |rows| ==> RowOk(cfg, rows[i], meta[i])
    requires t.rows == AddBatch(s, rows, meta).rows && t.meta == AddBatch(s, rows, meta).meta && t.last == s.last + |rows|
    requires t.resumed == s.resumed
    requires forall m :: m in t.sent || m in t.dropped ==> m in s.sent || m in s.dropped || NoticeOk(cfg, t, m)
    ensures Inv(cfg, t) && Evolves(s, t)
  {
    AddBatchRows(cfg, s, rows, meta);
    hide RowOk, Append, NoticesOk, ResumedOk;
    assert RowsOk(cfg, t);
    OldRowsUntouched(cfg, s, t);
  }

  lemma HitRowsOk(cfg: Config, h: Hit, now: int, routing: Option<RoutingOutcome>)
    ensures RowOk(cfg, HitRow(h, now), HitMeta(h).(routing := routing))
    ensures h.kind != HardLimit ==> RowOk(cfg, Superseded(HitRow(h, now), now), HitMeta(h).(routing := routing))
  {
  }

  lemma HitBatchOk(cfg: Config, hits: seq<Hit>, now: int, routing: Option<RoutingOutcome>)
    ensures forall i :: 0 <= i < |hits| ==> RowOk(cfg, HitRows(hits, now)[i], HitMetas(hits, routing)[i])
    ensures forall i :: 0 <= i < |hits| ==> RowOk(cfg, KilledRows(hits, now)[i], HitMetas(hits, routing)[i])
  {
    forall i | 0 <= i < |hits|
      ensures RowOk(cfg, HitRows(hits, now)[i], HitMetas(hits, routing)[i])
      ensures RowOk(cfg, KilledRows(hits, now)[i], HitMetas(hits, routing)[i])
    {
      HitRowsOk(cfg, hits[i], now, routing);
    }
  }

  lemma FirstOfBatch(s: State, hits: seq<Hit>, now: int, meta: seq<Meta>)
    requires |hits| == |meta| > 0 && !HasHardLimit(hits)
    ensures s.last + 1 in AddBatch(s, HitRows(hits, now), meta).rows
    ensures AddBatch(s, HitRows(hits, now), meta).rows[s.last + 1].kind != HardLimit
  {
    AppendLookup(s.rows, s.last, HitRows(hits, now), s.last + 1);
    assert hits[0].kind != HardLimit;
  }

  lemma FlagKeeps(cfg: Config, s: State, hits: seq<Hit>, candidates: seq<Reviewer>, rules: RoutingRules, now: int, delivers: nat -> bool)
    requires Inv(cfg, s)
    ensures Inv(cfg, RaiseFlag(s, hits, candidates, rules, now, delivers).0)
    ensures Evolves(s, RaiseFlag(s, hits, candidates, rules, now, delivers).0)
  {
    hide Inv, Evolves, RowOk, Append, HitRows, KilledRows, HitMetas, RouteApproval, HasHardLimit;
    var flagged := RaiseFlag(s, hits, candidates, rules, now, delivers);
    if |hits| == 0 {
      EvolvesRefl(cfg, s);
    } else {
      HitBatchOk(cfg, hits, now, None);
      if HasHardLimit(hits) {
        BatchKeeps(cfg, s, KilledRows(hits, now), HitMetas(hits, None), flagged.0);
      } else if flagged.1.Err? {
        BatchKeeps(cfg, s, HitRows(hits, now), HitMetas(hits, None), flagged.0);
      } else {
        var routing := Some(RouteApproval(hits[0].action, candidates, rules));
        HitBatchOk(cfg, hits, now, routing);
        FirstOfBatch(s, hits, now, HitMetas(hits, routing));
        BatchKeeps(cfg, s, HitRows(hits, now), HitMetas(hits, routing), flagged.0);
      }
    }
  }

  lemma ResolveKeeps(cfg: Config, s: State, id: nat, r: Resolution, who: string, now: int, effects: seq<Effect>, accepts: nat)
    requires Inv(cfg, s)
    ensures Inv(cfg, Resolve(s, id, r, who, now, effects, accepts).0)
    ensures Evolves(s, Resolve(s, id, r, who, now, effects, accepts).0)
  {
    var t := Resolve(s, id, r, who, now, effects, accepts).0;
    if Resolve(s, id, r, who, now, effects, accepts).1.None? {
      assert RowOk(cfg, s.rows[id], s.meta[id]);
      assert RowOk(cfg, t.rows[id], t.meta[id]);
      WriteKeeps(cfg, s, t, id);
    } else {
      SameRowsKeeps(cfg, s, t);
    }
  }

  lemma EscalateRowKeeps(cfg: Config, s: State, id: nat, now: int, delivers: nat -> bool)
    requires Inv(cfg, s)
    ensures Inv(cfg, EscalateRow(cfg, s, id, now, delivers))
    ensures Evolves(s, EscalateRow(cfg, s, id, now, delivers))
    ensures EscalateRow(cfg, s, id, now, delivers).last == s.last
  {
    var t := EscalateRow(cfg, s, id, now, delivers);
    if Stale(cfg, s, id, now) {
      var k := s.meta[id].escalations;
      assert RowOk(cfg, s.rows[id], s.meta[id]);
      assert (k + 1) * cfg.escalationTimeout == k * cfg.escalationTimeout + cfg.escalationTimeout;
      assert now >= s.rows[id].createdAt + (k + 1) * cfg.escalationTimeout;
      assert RowOk(cfg, t.rows[id], t.meta[id]);
      assert NoticeOk(cfg, t, StaleNotice(cfg, id, s.rows[id], s.meta[id], now));
      WriteKeeps(cfg, s, t, id);
    } else {
      SameRowsKeeps(cfg, s, t);
    }
  }

  lemma {:induction false} EscalateKeeps(cfg: Config, s: State, id: nat, now: int, delivers: nat -> bool)
    requires Inv(cfg, s)
    ensures Inv(cfg, EscalateFrom(cfg, s, id, now, delivers).0)
    ensures Evolves(s, EscalateFrom(cfg, s, id, now, delivers).0)
    decreases s.last + 1 - id
  {
    hide Inv, Evolves, EscalateRow;
    EvolvesRefl(cfg, s);
    if id <= s.last {
      EscalateRowKeeps(cfg, s, id, now, delivers);
      var one := EscalateRow(cfg, s, id, now, delivers);
      EscalateKeeps(cfg, one, id + 1, now, delivers);
      EvolvesTrans(cfg, s, one, EscalateFrom(cfg, one, id + 1, now, delivers).0);
    }
  }

  lemma StepKeeps(cfg: Config, s: State, op: Op)
    requires Inv(cfg, s)
    ensures Inv(cfg, Step(cfg, s, op)) && Evolves(s, Step(cfg, s, op))
  {
    match op
    case OpSeed(task) => SameRowsKeeps(cfg, s, Step(cfg, s, op));
    case OpGate(action, matrix, now) => GateKeeps(cfg, s, action, matrix, now);
    case OpAutoRun(now) => AutoRunKeeps(cfg, s, 1, now);
    case OpHold(id, who) => HoldKeeps(cfg, s, id, who);
    case OpFlag(hits, candidates, rules, now, delivers) => FlagKeeps(cfg, s, hits, candidates, rules, now, delivers);
    case OpResolve(id, r, who, now, effects, accepts) => ResolveKeeps(cfg, s, id, r, who, now, effects, accepts);
    case OpEscalate(now, delivers) => EscalateKeeps(cfg, s, 1, now, delivers);
  }

  /** SAFETY OVER EVERY RUN. The invariant holds in every reachable state, and resolved rows stay as they are. */
  lemma {:induction false} RunKeeps(cfg: Config, s: State, ops: seq<Op>)
    requires Inv(cfg, s)
    ensures Inv(cfg, Run(cfg, s, ops)) && Evolves(s, Run(cfg, s, ops))
    decreases |ops|
  {
    hide Inv, Evolves, Step;
    EvolvesRefl(cfg, s);
    if |ops| > 0 {
      var before := ops[..|ops| - 1];
      RunKeeps(cfg, s, before);
      StepKeeps(cfg, Run(cfg, s, before), ops[|ops| - 1]);
      EvolvesTrans(cfg, s, Run(cfg, s, before), Run(cfg, s, ops));
    }
  }

  lemma EmptyOk(cfg: Config)
    ensures Inv(cfg, Empty)
  {
  }

  /** In every reachable state a hard limit is pending, unreviewed and never escalated. */
  lemma HardLimitsStayBlocked(cfg: Config, ops: seq<Op>, id: nat)
    requires id in Run(cfg, Empty, ops).rows && Run(cfg, Empty, ops).rows[id].kind == HardLimit
    ensures var row := Run(cfg, Empty, ops).rows[id];
            row.status == Pending && row.reviewedBy.None? && row.escalatedAt.None?
  {
    EmptyOk(cfg);
    RunKeeps(cfg, Empty, ops);
    var t := Run(cfg, Empty, ops);
    assert RowOk(cfg, t.rows[id], t.meta[id]);
  }

  /** A resolved row is frozen from then on. */
  lemma ResolvedRowsFrozen(cfg: Config, s: State, later: seq<Op>, id: nat)
    requires Inv(cfg, s) && id in s.rows && s.rows[id].status != Pending
    ensures var t := Run(cfg, s, later); id in t.rows && id in t.meta && t.rows[id] == s.rows[id] && t.meta[id] == s.meta[id]
  {
    RunKeeps(cfg, s, later);
  }

  /** Every escalated row has waited as many full windows as it was escalated, so widening needs that many windows. */
  lemma EscalationsAreSpaced(cfg: Config, ops: seq<Op>, n: Notification)
    requires n.StaleWait? && (n in Run(cfg, Empty, ops).sent || n in Run(cfg, Empty, ops).dropped)
    ensures var s := Run(cfg, Empty, ops);
            n.rowId in s.rows && s.rows[n.rowId].kind != HardLimit
            && n.at >= s.rows[n.rowId].createdAt + n.escalation * cfg.escalationTimeout
            && (n.widened <==> n.escalation >= cfg.widenAfter) && (n.widened ==> n.role == SUPER_ADMIN && n.reviewer.None?)
    ensures n.widened && cfg.escalationTimeout >= 0 ==>
              n.at >= Run(cfg, Empty, ops).rows[n.rowId].createdAt + cfg.widenAfter * cfg.escalationTimeout
  {
    EmptyOk(cfg);
    RunKeeps(cfg, Empty, ops);
    assert NoticeOk(cfg, Run(cfg, Empty, ops), n);
    if n.widened && cfg.escalationTimeout >= 0 {
      MulMonotone(cfg.widenAfter, n.escalation, cfg.escalationTimeout);
    }
  }

  lemma MulMonotone(a: int, b: int, c: int)
    requires a <= b && c >= 0
    ensures a * c <= b * c
  {
    assert b * c - a * c == (b - a) * c;
  }

  // ---------------------------------------------------------------- what a sweep does to each row

  predicate Stranded(s: State, id: nat, now: int) {
    Due(s, id, now) && s.rows[id].taskId != "" && s.rows[id].taskId !in s.tasks
  }

  lemma AutoRunRowExact(s: State, id: nat, now: int)
    ensures var t := AutoRunRow(s, id, now).0;
      && t.last == s.last && t.rows.Keys == s.rows.Keys && t.meta.Keys == s.meta.Keys && t.tasks.Keys == s.tasks.Keys
      && (forall k :: k in s.rows && k != id ==> t.rows[k] == s.rows[k])
      && (forall k :: k in s.meta && k != id ==> t.meta[k] == s.meta[k])
      && (forall k, at :: k != id ==> Due(t, k, at) == Due(s, k, at))
      && (id in s.rows ==> t.rows[id] == if Due(s, id, now) then AutoApproved(s.rows[id], now) else s.rows[id])
    ensures AutoRunRow(s, id, now).1.Some? <==> Stranded(s, id, now)
  {
  }

  /** Whether a row is approved by a sweep from id that stops at `stop`. */
  predicate SweptBy(s: State, id: nat, stop: nat, now: int, k: nat) {
    id <= k <= stop && Due(s, k, now)
  }

  /** The sweep throws exactly when a due row names an unknown task; it then approves the due rows up to and including
      the first such row, and otherwise all due rows. No other row changes. */
  lemma {:induction false} AutoRunExact(s: State, id: nat, now: int) returns (stop: nat)
    requires forall k :: k in s.rows ==> k <= s.last
    ensures AutoRunFrom(s, id, now).1.Err? <==> exists k :: id <= k && Stranded(s, k, now)
    ensures AutoRunFrom(s, id, now).1.Ok? ==> stop == s.last
    ensures AutoRunFrom(s, id, now).1.Err? ==>
              id <= stop && Stranded(s, stop, now) && forall k :: id <= k < stop ==> !Stranded(s, k, now)
    ensures AutoRunFrom(s, id, now).0.rows.Keys == s.rows.Keys
    ensures forall k :: k in s.rows ==>
              AutoRunFrom(s, id, now).0.rows[k] == if SweptBy(s, id, stop, now, k) then AutoApproved(s.rows[k], now) else s.rows[k]
    decreases s.last + 1 - id
  {
    if id > s.last {
      stop := s.last;
    } else {
      var one := AutoRunRow(s, id, now);
      AutoRunRowExact(s, id, now);
      if one.1.Some? {
        stop := id;
      } else {
        stop := AutoRunExact(one.0, id + 1, now);
        assert forall k :: id + 1 <= k ==> Stranded(one.0, k, now) == Stranded(s, k, now);
        assert forall k :: k in s.rows && k != id ==> SweptBy(one.0, id + 1, stop, now, k) == SweptBy(s, id, stop, now, k);
      }
    }
  }

  lemma EscalateRowExact(cfg: Config, s: State, id: nat, now: int, delivers: nat -> bool)
    ensures var t := EscalateRow(cfg, s, id, now, delivers);
      && t.last == s.last && t.rows.Keys == s.rows.Keys && t.meta.Keys == s.meta.Keys && t.tasks == s.tasks && t.resumed == s.resumed
      && (forall k :: k in s.rows && k != id ==> t.rows[k] == s.rows[k])
      && (forall k :: k in s.meta && k != id ==> t.meta[k] == s.meta[k])
      && (forall k :: k != id ==> Stale(cfg, t, k, now) == Stale(cfg, s, k, now))
      && (id in s.rows ==> t.rows[id] == if Stale(cfg, s, id, now) then s.rows[id].(escalatedAt := Some(now)) else s.rows[id])
  {
  }

  /** An escalation sweep stamps exactly the stale rows. It resolves nothing and touches no task. */
  lemma {:induction false} EscalateExact(cfg: Config, s: State, id: nat, now: int, delivers: nat -> bool)
    requires forall k :: k in s.rows ==> k <= s.last
    ensures var t := EscalateFrom(cfg, s, id, now, delivers).0;
      && t.rows.Keys == s.rows.Keys && t.tasks == s.tasks && t.resumed == s.resumed
      && forall k :: k in s.rows ==>
           t.rows[k] == if id <= k && Stale(cfg, s, k, now) then s.rows[k].(escalatedAt := Some(now)) else s.rows[k]
    ensures forall k :: k in EscalateFrom(cfg, s, id, now, delivers).1 <==> id <= k && Stale(cfg, s, k, now)
    decreases s.last + 1 - id
  {
    if id <= s.last {
      EscalateRowExact(cfg, s, id, now, delivers);
      EscalateExact(cfg, EscalateRow(cfg, s, id, now, delivers), id + 1, now, delivers);
    }
  }

  // ---------------------------------------------------------------- why a row is approved

  /** The step that approves a row: the soft timeout of an unheld soft gate, or a human other than the originator. */
  predicate Approves(cfg: Config, before: State, op: Op, id: nat, row: Row) {
    if row.reviewedBy.None? then
      op.OpAutoRun? && Due(before, id, op.now) && row.reviewedAt == Some(op.now)
      && before.rows[id].kind == ApprovalGate && op.now >= before.rows[id].createdAt + cfg.softTimeout
    else
      op.OpResolve? && op.id == id && op.r == Approve && row.reviewedBy == Some(op.who) && id in before.rows
      && (row.taskId in before.tasks && row.taskId != "" ==> before.tasks[row.taskId].originator != Some(op.who))
  }

  lemma AutoRunApprovesDue(cfg: Config, s: State, now: int, id: nat)
    requires Inv(cfg, s) && (id in s.rows ==> s.rows[id].status == Pending)
    ensures id in AutoRunFrom(s, 1, now).0.rows && AutoRunFrom(s, 1, now).0.rows[id].status == Approved ==>
              Approves(cfg, s, OpAutoRun(now), id, AutoRunFrom(s, 1, now).0.rows[id])
  {
    var stop := AutoRunExact(s, 1, now);
    assert id in s.rows ==> RowOk(cfg, s.rows[id], s.meta[id]);
  }

  lemma EscalateNeverApproves(cfg: Config, s: State, now: int, delivers: nat -> bool)
    requires Inv(cfg, s)
    ensures var t := EscalateFrom(cfg, s, 1, now, delivers).0;
            t.rows.Keys == s.rows.Keys && forall id :: id in s.rows ==> t.rows[id].status == s.rows[id].status
  {
    EscalateExact(cfg, s, 1, now, delivers);
  }

  lemma BatchNeverApproves(s: State, rows: seq<Row>, meta: seq<Meta>)
    requires forall i :: 0 <= i < |rows| ==> rows[i].status != Approved
    ensures forall id :: id in AddBatch(s, rows, meta).rows && AddBatch(s, rows, meta).rows[id].status == Approved ==>
              id in s.rows && AddBatch(s, rows, meta).rows[id] == s.rows[id]
  {
    forall id: nat | id in AddBatch(s, rows, meta).rows && AddBatch(s, rows, meta).rows[id].status == Approved
      ensures id in s.rows && AddBatch(s, rows, meta).rows[id] == s.rows[id]
    {
      AppendLookup(s.rows, s.last, rows, id);
    }
  }

  /** Raising a flag approves no row. */
  lemma FlagNeverApproves(cfg: Config, s: State, hits: seq<Hit>, candidates: seq<Reviewer>, rules: RoutingRules, now: int, delivers: nat -> bool)
    ensures var t := RaiseFlag(s, hits, candidates, rules, now, delivers).0;
            t.resumed == s.resumed
            && forall id :: id in t.rows && t.rows[id].status == Approved ==> id in s.rows && t.rows[id] == s.rows[id]
  {
    if |hits| > 0 {
      assert forall i :: 0 <= i < |hits| ==> HitRows(hits, now)[i].status == Pending;
      assert forall i :: 0 <= i < |hits| ==> KilledRows(hits, now)[i].status != Approved;
      hide AddBatch, RouteApproval, HasHardLimit, HitRows, KilledRows, HitMetas;
      if HasHardLimit(hits) {
        BatchNeverApproves(s, KilledRows(hits, now), HitMetas(hits, None));
      } else if RaiseFlag(s, hits, candidates, rules, now, delivers).1.Err? {
        BatchNeverApproves(s, HitRows(hits, now), HitMetas(hits, None));
      } else {
        BatchNeverApproves(s, HitRows(hits, now), HitMetas(hits, Some(RouteApproval(hits[0].action, candidates, rules))));
      }
    }
  }

  lemma ApprovalHasCauseInStep(cfg: Config, s: State, op: Op, id: nat)
    requires Inv(cfg, s) && (id in s.rows ==> s.rows[id].status == Pending)
    ensures id in Step(cfg, s, op).rows && Step(cfg, s, op).rows[id].status == Approved ==> Approves(cfg, s, op, id, Step(cfg, s, op).rows[id])
  {
    hide Inv;
    match op
    case OpAutoRun(now) =>
      AutoRunApprovesDue(cfg, s, now, id);
    case OpEscalate(now, delivers) =>
      EscalateNeverApproves(cfg, s, now, delivers);
    case OpFlag(hits, candidates, rules, now, delivers) =>
      FlagNeverApproves(cfg, s, hits, candidates, rules, now, delivers);
    case OpGate(action, matrix, now) =>
    case OpSeed(task) =>
    case OpHold(h, who) =>
    case OpResolve(h, r, who, now, effects, accepts) =>
  }

  /** PROVENANCE. Every approved row of every run was approved by one step: after its full soft timeout, while it was
      an unheld soft gate, or by a reviewer who was not the originator of its task. */
  lemma {:induction false} ApprovalHasCause(cfg: Config, s: State, ops: seq<Op>, id: nat)
    requires Inv(cfg, s) && id in Run(cfg, s, ops).rows && Run(cfg, s, ops).rows[id].status == Approved
    requires id in s.rows ==> s.rows[id].status != Approved
    ensures exists k :: 0 <= k < |ops| && Approves(cfg, Run(cfg, s, ops[..k]), ops[k], id, Run(cfg, s, ops).rows[id])
    decreases |ops|
  {
    if |ops| == 0 { assert false; }
    var before := ops[..|ops| - 1];
    var mid, last := Run(cfg, s, before), ops[|ops| - 1];
    RunKeeps(cfg, s, before);
    StepKeeps(cfg, mid, last);
    assert Run(cfg, s, ops) == Step(cfg, mid, last);
    hide *;
    if id in mid.rows && mid.rows[id].status != Pending {
      FrozenBy(cfg, mid, Step(cfg, mid, last), id);
      ApprovalHasCause(cfg, s, before, id);
      var k :| 0 <= k < |before| && Approves(cfg, Run(cfg, s, before[..k]), before[k], id, mid.rows[id]);
      assert before[..k] == ops[..k] && before[k] == ops[k];
      assert Approves(cfg, Run(cfg, s, ops[..k]), ops[k], id, Run(cfg, s, ops).rows[id]);
    } else {
      ApprovalHasCauseInStep(cfg, mid, last, id);
      assert Approves(cfg, Run(cfg, s, ops[..|ops| - 1]), ops[|ops| - 1], id, Run(cfg, s, ops).rows[id]);
    }
  }

  lemma FrozenBy(cfg: Config, s: State, t: State, id: nat)
    requires Inv(cfg, s) && Evolves(s, t) && id in s.rows && s.rows[id].status != Pending
    ensures id in t.rows && t.rows[id] == s.rows[id]
  {
    hide RowOk, NoticesOk, ResumedOk;
  }
}
