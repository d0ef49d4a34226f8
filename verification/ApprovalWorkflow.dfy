/** The in-memory approval workflow and its task queue, updated in place (app/approval-tiers/src/store.ts). Every
    method is proved against the transition function of the same name. */
module ApprovalWorkflow {
  import opened Wrappers
  import opened Tiers
  import opened Numbered
  import opened ApprovalSpec

  /** The in-memory task queue: only the transitions the workflow drives. */
  class TaskSeam {
    var rows: map<string, TaskRow>

    constructor ()
      ensures rows == map[]
    {
      rows := map[];
    }

    method Seed(row: TaskRow)
      modifies this
      ensures rows == old(rows)[row.id := row]
    {
      rows := rows[row.id := row];
    }

    method RequireApproval(id: string) returns (e: Option<Error>)
      modifies this
      ensures id !in old(rows) ==> e == Some(NoSuchTask(id)) && rows == old(rows)
      ensures id in old(rows) ==> e == None && rows == old(rows)[id := Held(old(rows)[id])]
    {
      if id !in rows { return Some(NoSuchTask(id)); }
      rows := rows[id := Held(rows[id])];
      e := None;
    }

    method SetFlagged(id: string) returns (e: Option<Error>)
      modifies this
      ensures id !in old(rows) ==> e == Some(NoSuchTask(id)) && rows == old(rows)
      ensures id in old(rows) ==> e == None && rows == old(rows)[id := old(rows)[id].(status := Flagged)]
    {
      if id !in rows { return Some(NoSuchTask(id)); }
      rows := rows[id := rows[id].(status := Flagged)];
      e := None;
    }

    method Resume(id: string, approver: string, now: int) returns (e: Option<Error>)
      modifies this
      ensures id !in old(rows) ==> e == Some(NoSuchTask(id)) && rows == old(rows)
      ensures id in old(rows) ==> e == None && rows == old(rows)[id := Released(old(rows)[id], approver, now)]
    {
      if id !in rows { return Some(NoSuchTask(id)); }
      rows := rows[id := Released(rows[id], approver, now)];
      e := None;
    }

    method Cancel(id: string, approver: string, now: int) returns (e: Option<Error>)
      modifies this
      ensures id !in old(rows) ==> e == Some(NoSuchTask(id)) && rows == old(rows)
      ensures id in old(rows) ==> e == None && rows == old(rows)[id := Cancelled(old(rows)[id], approver, now)]
    {
      if id !in rows { return Some(NoSuchTask(id)); }
      rows := rows[id := Cancelled(rows[id], approver, now)];
      e := None;
    }

    method RequeueModified(id: string, payload: Option<string>) returns (e: Option<Error>)
      modifies this
      ensures id !in old(rows) ==> e == Some(NoSuchTask(id)) && rows == old(rows)
      ensures id in old(rows) ==> e == None && rows == old(rows)[id := Requeued(old(rows)[id], payload)]
    {
      if id !in rows { return Some(NoSuchTask(id)); }
      rows := rows[id := Requeued(rows[id], payload)];
      e := None;
    }
  }

  /** One row of the sweep, then the rest of it. */
  lemma AutoRunUnfold(s: State, id: nat, now: int, ran: seq<nat>)
    requires id <= s.last && AutoRunRow(s, id, now).1.None?
    ensures var all, rest := AutoRunFrom(s, id, now), AutoRunFrom(AutoRunRow(s, id, now).0, id + 1, now);
      && all.0 == rest.0 && all.1.Ok? == rest.1.Ok? && (rest.1.Err? ==> all.1 == rest.1)
      && (rest.1.Ok? ==> ran + all.1.value == (if Due(s, id, now) then ran + [id] else ran) + rest.1.value)
  {
  }

  lemma EscalateUnfold(cfg: Config, s: State, id: nat, now: int, delivers: nat -> bool, listed: seq<nat>)
    requires id <= s.last
    ensures var all, rest := EscalateFrom(cfg, s, id, now, delivers), EscalateFrom(cfg, EscalateRow(cfg, s, id, now, delivers), id + 1, now, delivers);
      && all.0 == rest.0
      && listed + all.1 == (if Stale(cfg, s, id, now) then listed + [id] else listed) + rest.1
  {
  }

  /** The effects no clean-up task can undo. */
  function NonCompensable(effects: seq<Effect>): seq<string> {
    if |effects| == 0 then []
    else NonCompensable(effects[..|effects| - 1]) + if effects[|effects| - 1].reversible then [] else [effects[|effects| - 1].text]
  }

  /** The clean-up tasks of the first effects come first. */
  lemma {:induction false} OwedPrefix(task: string, effects: seq<Effect>, i: nat, now: int)
    requires i <= |effects|
    ensures Owed(task, effects[..i], now) <= Owed(task, effects, now)
    decreases |effects|
  {
    if i == |effects| {
      assert effects[..i] == effects;
    } else {
      OwedPrefix(task, effects[..|effects| - 1], i, now);
      assert effects[..|effects| - 1][..i] == effects[..i];
    }
  }

  /** A batch keeps the row numbers consecutive. */
  lemma BatchDomain(s: State, rows: seq<Row>, meta: seq<Meta>)
    requires |rows| == |meta| && s.rows.Keys == s.meta.Keys && forall id :: id in s.rows <==> 1 <= id <= s.last
    ensures var t := AddBatch(s, rows, meta); t.rows.Keys == t.meta.Keys && forall id :: id in t.rows <==> 1 <= id <= t.last
  {
    AppendKeys(s.rows, s.last, rows);
    AppendKeys(s.meta, s.last, meta);
    hide Append;
  }

  class Workflow {
    const cfg: Config
    const tasks: TaskSeam
    var last: nat
    var rows: map<nat, Row>
    var meta: map<nat, Meta>
    var classifications: seq<Classification>
    var sent: seq<Notification>
    var dropped: seq<Notification>
    var compensations: seq<Compensation>
    /** The rows whose resolution released a task, in order. */
    ghost var resumed: seq<nat>

    ghost function View(): State
      reads this, tasks
    {
      State(last, rows, meta, tasks.rows, classifications, sent, dropped, compensations, resumed)
    }

    ghost predicate Valid()
      reads this
    {
      rows.Keys == meta.Keys && forall id :: id in rows <==> 1 <= id <= last
    }

    constructor (cfg: Config, tasks: TaskSeam)
      ensures Valid() && this.cfg == cfg && this.tasks == tasks
      ensures View() == Empty.(tasks := tasks.rows)
    {
      this.cfg, this.tasks := cfg, tasks;
      last, rows, meta, classifications, sent, dropped, compensations, resumed := 0, map[], map[], [], [], [], [], [];
    }

    method Gate(action: GatedAction, matrix: AutonomyMatrix, now: int) returns (r: Result<Option<nat>, Error>)
      requires Valid()
      modifies this, tasks
      ensures Valid() && (View(), r) == TierAndGate(cfg, old(View()), action, matrix, now)
    {
      var d := ClassifyTier(action, matrix);
      classifications := classifications + [Classification(action.actionType, d.tier, d.floored, now)];
      if d.tier == Auto {
        return Ok(None);
      }
      last := last + 1;
      rows := rows[last := GateRow(action, d, now)];
      meta := meta[last := GateMeta(cfg, d, now)];
      var e := tasks.RequireApproval(action.actionType);
      r := if e.Some? then Err(e.value) else Ok(Some(last));
    }

    /** The body of the sweep for one row. */
    method AutoRunOne(id: nat, now: int) returns (ran: bool, e: Option<Error>)
      requires Valid() && id in rows
      modifies this, tasks
      ensures Valid() && (View(), e) == AutoRunRow(old(View()), id, now) && ran == Due(old(View()), id, now)
    {
      var row, m := rows[id], meta[id];
      ran, e := false, None;
      if row.status == Pending && m.tier == Soft && !m.floored && !m.held && m.softDeadline.Some? && now >= m.softDeadline.value {
        rows := rows[id := row.(status := Approved, reviewedBy := None, reviewedAt := Some(now))];
        meta := meta[id := m.(softDeadline := None)];
        ran := true;
        if row.taskId != "" {
          e := tasks.Resume(row.taskId, SYSTEM, now);
          if e.None? { resumed := resumed + [id]; }
        }
      }
    }

    method AutoRunElapsedSoft(now: int) returns (r: Result<seq<nat>, Error>)
      requires Valid()
      modifies this, tasks
      ensures Valid() && (View(), r) == AutoRunFrom(old(View()), 1, now)
    {
      hide AutoRunRow, Due;
      var ran: seq<nat> := [];
      ghost var start := View();
      assert forall rest: seq<nat> :: ran + rest == rest;
      var id := 1;
      while id <= last
        invariant 1 <= id <= last + 1 && last == start.last && Valid()
        invariant var rest := AutoRunFrom(View(), id, now);
                  AutoRunFrom(start, 1, now) == (rest.0, if rest.1.Ok? then Ok(ran + rest.1.value) else rest.1)
      {
        ghost var before, ranBefore := View(), ran;
        var one, e := AutoRunOne(id, now);
        if e.Some? {
          return Err(e.value);
        }
        if one { ran := ran + [id]; }
        AutoRunUnfold(before, id, now, ranBefore);
        id := id + 1;
      }
      assert ran + [] == ran;
      r := Ok(ran);
    }

    method HoldForFullReview(id: nat, who: string) returns (e: Option<Error>)
      requires Valid()
      modifies this
      ensures Valid() && (View(), e) == Hold(old(View()), id, who)
    {
      if id !in rows { return Some(NoSuchRow(id)); }
      var row, m := rows[id], meta[id];
      if row.status != Pending { return Some(NotPending(row.status)); }
      if m.tier != Soft || m.floored { return Some(HoldOnlySoft); }
      meta := meta[id := m.(held := true, softDeadline := None, tier := Hard)];
      rows := rows[id := row.(description := row.description + [HeldForReview(who)])];
      e := None;
    }

    /** Write one pending row per hit. */
    method WriteHits(hits: seq<Hit>, now: int) returns (rowIds: seq<nat>)
      modifies this
      ensures View() == AddBatch(old(View()), HitRows(hits, now), HitMetas(hits, None))
      ensures rowIds == seq(|hits|, i => old(last) + 1 + i)
    {
      hide Append;
      ghost var start := View();
      ghost var noted: seq<Meta> := [];
      AppendNone(rows, last);
      AppendNone(meta, last);
      ghost var newRows: seq<Row> := [];
      rowIds := [];
      for k := 0 to |hits|
        invariant |newRows| == |noted| == k && rowIds == seq(k, i => start.last + 1 + i)
        invariant newRows == HitRows(hits, now)[..k] && noted == HitMetas(hits, None)[..k]
        invariant View() == AddBatch(start, newRows, noted)
      {
        var h := hits[k];
        AppendOne(start.rows, start.last, newRows, HitRow(h, now));
        AppendOne(start.meta, start.last, noted, HitMeta(h));
        last := last + 1;
        rows := rows[last := HitRow(h, now)];
        rowIds := rowIds + [last];
        meta := meta[last := HitMeta(h)];
        newRows, noted := newRows + [HitRow(h, now)], noted + [HitMeta(h)];
      }
      assert newRows == HitRows(hits, now) && noted == HitMetas(hits, None);
    }

    /** Close every row of the batch that is not a hard limit. */
    method CloseOthers(hits: seq<Hit>, rowIds: seq<nat>, now: int, ghost start: State)
      requires View() == AddBatch(start, HitRows(hits, now), HitMetas(hits, None))
      requires rowIds == seq(|hits|, i => start.last + 1 + i)
      modifies this
      ensures View() == AddBatch(start, KilledRows(hits, now), HitMetas(hits, None))
    {
      hide Append;
      ghost var newRows, metas := HitRows(hits, now), HitMetas(hits, None);
      for k := 0 to |hits|
        invariant |newRows| == |hits|
        invariant forall i :: 0 <= i < k ==> newRows[i] == KilledRows(hits, now)[i]
        invariant forall i :: k <= i < |hits| ==> newRows[i] == HitRows(hits, now)[i]
        invariant View() == AddBatch(start, newRows, metas)
      {
        if hits[k].kind != HardLimit {
          var id := rowIds[k];
          AppendUpdate(start.rows, start.last, newRows, k, Superseded(newRows[k], now));
          AppendUpdate(start.meta, start.last, metas, k, metas[k].(softDeadline := None));
          newRows := newRows[k := Superseded(newRows[k], now)];
          assert metas[k := metas[k].(softDeadline := None)] == metas;
          rows := rows[id := Superseded(rows[id], now)];
          meta := meta[id := meta[id].(softDeadline := None)];
        }
      }
      assert newRows == KilledRows(hits, now);
    }

    method AssignRouting(hits: seq<Hit>, rowIds: seq<nat>, now: int, routing: RoutingOutcome, ghost start: State)
      requires View() == AddBatch(start, HitRows(hits, now), HitMetas(hits, None)).(tasks := tasks.rows)
      requires rowIds == seq(|hits|, i => start.last + 1 + i)
      modifies this
      ensures View() == AddBatch(start, HitRows(hits, now), HitMetas(hits, Some(routing))).(tasks := tasks.rows)
    {
      hide Append;
      ghost var newRows, metas := HitRows(hits, now), HitMetas(hits, None);
      for k := 0 to |hits|
        invariant |metas| == |hits|
        invariant forall i :: 0 <= i < k ==> metas[i] == HitMetas(hits, Some(routing))[i]
        invariant forall i :: k <= i < |hits| ==> metas[i] == HitMetas(hits, None)[i]
        invariant View() == AddBatch(start, newRows, metas).(tasks := tasks.rows)
      {
        var id := rowIds[k];
        AppendUpdate(start.meta, start.last, metas, k, metas[k].(routing := Some(routing)));
        metas := metas[k := metas[k].(routing := Some(routing))];
        meta := meta[id := meta[id].(routing := Some(routing))];
      }
      assert metas == HitMetas(hits, Some(routing));
    }

    /** A notice that is not delivered is kept among the dropped ones. */
    method NotifyFlag(n: Notification, delivered: bool)
      modifies this`sent, this`dropped
      ensures sent == (if delivered then old(sent) + [n] else old(sent)) && dropped == (if delivered then old(dropped) else old(dropped) + [n])
    {
      if delivered { sent := sent + [n]; } else { dropped := dropped + [n]; }
    }

    method Flag(hits: seq<Hit>, candidates: seq<Reviewer>, rules: RoutingRules, now: int, delivers: nat -> bool)
      returns (r: Result<FlagOutcome, Error>)
      requires Valid()
      modifies this, tasks
      ensures Valid() && (View(), r) == RaiseFlag(old(View()), hits, candidates, rules, now, delivers)
    {
      hide Append, HitRows, KilledRows, HitMetas, RouteApproval, HasHardLimit;
      if |hits| == 0 { return Err(NoHits); }
      ghost var start := View();
      var rowIds := WriteHits(hits, now);
      if HasHardLimit(hits) {
        CloseOthers(hits, rowIds, now, start);
        BatchDomain(start, KilledRows(hits, now), HitMetas(hits, None));
        return Ok(Killed);
      }
      var task := hits[|hits| - 1].action.actionType;
      if task != "" {
        var e := tasks.SetFlagged(task);
        if e.Some? {
          BatchDomain(start, HitRows(hits, now), HitMetas(hits, None));
          return Err(e.value);
        }
      }
      var routing := RouteApproval(hits[0].action, candidates, rules);
      AssignRouting(hits, rowIds, now, routing, start);
      BatchDomain(start, HitRows(hits, now), HitMetas(hits, Some(routing)));
      var first := rowIds[0];
      NotifyFlag(FlagRaised(first, task, routing.reviewer, routing.role, now), delivers(first));
      r := Ok(FlaggedForReview(routing, delivers(first)));
    }

    /** The body of the escalation sweep for one row. */
    method EscalateOne(id: nat, now: int, delivers: nat -> bool) returns (stale: bool)
      requires Valid() && id in rows
      modifies this
      ensures Valid() && View() == EscalateRow(cfg, old(View()), id, now, delivers) && stale == Stale(cfg, old(View()), id, now)
    {
      var row, m := rows[id], meta[id];
      stale := row.status == Pending && row.kind != HardLimit && now - row.createdAt >= cfg.escalationTimeout
               && (row.escalatedAt.Some? ==> now - row.escalatedAt.value >= cfg.escalationTimeout);
      if stale {
        var n := StaleNotice(cfg, id, row, m, now);
        meta := meta[id := m.(escalations := m.escalations + 1)];
        rows := rows[id := row.(escalatedAt := Some(now))];
        if delivers(id) { sent := sent + [n]; } else { dropped := dropped + [n]; }
      }
    }

    method EscalateStaleWaits(now: int, delivers: nat -> bool) returns (escalated: seq<nat>)
      requires Valid()
      modifies this
      ensures Valid() && (View(), escalated) == EscalateFrom(cfg, old(View()), 1, now, delivers)
    {
      hide EscalateRow, Stale;
      escalated := [];
      ghost var start := View();
      assert forall rest: seq<nat> :: escalated + rest == rest;
      var id := 1;
      while id <= last
        invariant 1 <= id <= last + 1 && last == start.last && Valid()
        invariant var rest := EscalateFrom(cfg, View(), id, now, delivers);
                  EscalateFrom(cfg, start, 1, now, delivers) == (rest.0, escalated + rest.1)
      {
        ghost var before, listed := View(), escalated;
        var stale := EscalateOne(id, now, delivers);
        if stale { escalated := escalated + [id]; }
        EscalateUnfold(cfg, before, id, now, delivers, listed);
        id := id + 1;
      }
      assert escalated + [] == escalated;
    }

    /** Queue a clean-up task per reversible effect and note the others; the sink takes `accepts` and then throws. */
    method QueueCompensations(task: string, effects: seq<Effect>, accepts: nat, now: int) returns (failed: bool, notes: seq<string>)
      modifies this`compensations
      ensures failed <==> accepts < |Owed(task, effects, now)|
      ensures View() == Compensate(old(View()), Owed(task, effects, now), accepts)
      ensures !failed ==> notes == NonCompensable(effects)
    {
      ghost var start := compensations;
      var queued := 0;
      notes, failed := [], false;
      assert effects[..0] == [];
      for i := 0 to |effects|
        invariant compensations == start + Owed(task, effects[..i], now)
        invariant queued == |Owed(task, effects[..i], now)| <= accepts && notes == NonCompensable(effects[..i])
      {
        assert effects[..i + 1][..i] == effects[..i];
        OwedPrefix(task, effects, i, now);
        if effects[i].reversible {
          if queued == accepts {
            OwedPrefix(task, effects, i + 1, now);
            return true, notes;
          }
          compensations := compensations + [Compensation(task, effects[i].text, now)];
          queued := queued + 1;
        } else {
          notes := notes + [effects[i].text];
        }
      }
      assert effects[..|effects|] == effects;
    }

    method ResolveRow(id: nat, resolution: Resolution, who: string, now: int, effects: seq<Effect>, accepts: nat)
      returns (e: Option<Error>, notes: seq<string>)
      requires Valid()
      modifies this, tasks
      ensures Valid() && (View(), e) == Resolve(old(View()), id, resolution, who, now, effects, accepts)
      ensures e.None? ==> notes == NonCompensable(effects)
    {
      notes := [];
      if id !in rows { return Some(NoSuchRow(id)), notes; }
      var row := rows[id];
      if row.status != Pending { return Some(NotPending(row.status)), notes; }
      if row.kind == HardLimit { return Some(HardLimitNoAffordance), notes; }
      if row.taskId != "" && row.taskId in tasks.rows && tasks.rows[row.taskId].originator == Some(who) {
        return Some(SelfApproval(who)), notes;
      }
      var failed: bool;
      failed, notes := QueueCompensations(row.taskId, effects, accepts, now);
      hide Owed, NonCompensable;
      if failed { return Some(CompensationSinkFailed), notes; }
      e := None;
      if row.taskId != "" {
        match resolution {
          case Approve =>
            e := tasks.Resume(row.taskId, who, now);
          case Reject =>
            e := tasks.Cancel(row.taskId, who, now);
          case Modify(edited) =>
            var payload := if edited.Some? || row.taskId !in tasks.rows then edited else tasks.rows[row.taskId].payload;
            e := tasks.RequeueModified(row.taskId, payload);
        }
        if e.Some? { return; }
        if resolution == Approve { resumed := resumed + [id]; }
      }
      rows := rows[id := row.(status := NextStatus(resolution), reviewedBy := Some(who), reviewedAt := Some(now))];
      meta := meta[id := meta[id].(softDeadline := None)];
    }

    method BuildQueueView(filter: QueueFilter, live: bool, now: int) returns (items: seq<Item>)
      requires Valid()
      ensures items == QueueView(cfg, View(), filter, live, now)
    {
      var all: seq<Item> := [];
      for id := 1 to last + 1
        invariant all == ItemsUpTo(cfg, View(), id - 1, live, now)
      {
        var row := rows[id];
        if row.kind != HardLimit && row.status == Pending {
          all := all + [MakeItem(cfg, id, row, meta[id], live, now)];
        }
      }
      items := Filter(all, item => Shows(filter, item));
    }
  }
}
