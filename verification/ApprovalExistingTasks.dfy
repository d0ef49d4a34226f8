/** Runs in which only known tasks are gated: every approval releases its task. */
module ApprovalExistingTasks {
  import opened Tiers
  import opened Numbered
  import opened ApprovalSpec
  import opened ApprovalTheorems
  import opened ApprovalAccounting
  import opened ApprovalGates
  import opened ApprovalNotices

  /** The step gates known tasks only: the action of a gate, and of every hit of the gate kind, is in the queue. */
  predicate GatesKnownTasks(s: State, op: Op) {
    match op
    case OpGate(action, _, _) => action.actionType in s.tasks
    case OpFlag(hits, _, _, _, _) => forall h :: h in hits && h.kind == ApprovalGate ==> h.action.actionType in s.tasks
    case _ => true
  }

  /** Every gate row names a known task. */
  ghost predicate GatesKnown(s: State) {
    forall id :: id in s.rows && s.rows[id].kind == ApprovalGate ==> s.rows[id].taskId in s.tasks
  }

  /** Tasks are only added, a row that is not new keeps its kind and task, and a new one is a known gate or no gate. */
  lemma GatesStayKnown(s: State, t: State)
    requires GatesKnown(s) && s.tasks.Keys <= t.tasks.Keys
    requires forall id :: id in s.rows ==> id in t.rows && t.rows[id].kind == s.rows[id].kind && t.rows[id].taskId == s.rows[id].taskId
    requires forall id :: id in t.rows && id !in s.rows && t.rows[id].kind == ApprovalGate ==> t.rows[id].taskId in s.tasks
    ensures GatesKnown(t)
  {
  }

  lemma FlagGatesKnown(s: State, hits: seq<Hit>, candidates: seq<Reviewer>, rules: RoutingRules, now: int, delivers: nat -> bool)
    requires GatesKnownTasks(s, OpFlag(hits, candidates, rules, now, delivers))
    ensures var t := RaiseFlag(s, hits, candidates, rules, now, delivers).0;
      && t.tasks.Keys == s.tasks.Keys
      && forall id :: id in t.rows && id !in s.rows && t.rows[id].kind == ApprovalGate ==> t.rows[id].taskId in s.tasks
  {
    FlagKeepsPeople(s, hits, candidates, rules, now, delivers);
    if |hits| > 0 {
      FlagWrites(s, hits, candidates, rules, now, delivers);
      var t := RaiseFlag(s, hits, candidates, rules, now, delivers).0;
      hide RaiseFlag, Append, HitRows, KilledRows, HasHardLimit, ShowsHit;
      var rows := if HasHardLimit(hits) then KilledRows(hits, now) else HitRows(hits, now);
      forall id | id in t.rows && id !in s.rows && t.rows[id].kind == ApprovalGate ensures t.rows[id].taskId in s.tasks {
        AppendLookup(s.rows, s.last, rows, id);
        var i := id - s.last - 1;
        BatchShowsHits(hits, now, i);
        ShownHit(rows[i], hits[i], now);
      }
    }
  }

  lemma ShownHit(row: Row, h: Hit, now: int)
    requires ShowsHit(row, h, now)
    ensures row.kind == h.kind && row.taskId == h.action.actionType
  {
  }

  lemma EvolvesNames(s: State, t: State)
    requires Evolves(s, t)
    ensures forall id :: id in s.rows ==> id in t.rows && t.rows[id].kind == s.rows[id].kind && t.rows[id].taskId == s.rows[id].taskId
  {
  }

  lemma GateAddsKnown(cfg: Config, s: State, action: GatedAction, matrix: AutonomyMatrix, now: int)
    requires action.actionType in s.tasks
    ensures var t := TierAndGate(cfg, s, action, matrix, now).0;
      && s.tasks.Keys <= t.tasks.Keys
      && forall id :: id in t.rows && id !in s.rows && t.rows[id].kind == ApprovalGate ==> t.rows[id].taskId in s.tasks
  {
    hide ClassifyTier;
  }

  lemma ResolveAddsNothing(s: State, id: nat, r: Resolution, who: string, now: int, effects: seq<Effect>, accepts: nat)
    ensures var t := Resolve(s, id, r, who, now, effects, accepts).0; t.rows.Keys == s.rows.Keys && s.tasks.Keys <= t.tasks.Keys
  {
    hide Owed;
  }

  lemma HoldAddsNothing(s: State, id: nat, who: string)
    ensures Hold(s, id, who).0.rows.Keys == s.rows.Keys && Hold(s, id, who).0.tasks == s.tasks
  {
  }

  lemma StepGatesKnown(cfg: Config, s: State, op: Op)
    requires Inv(cfg, s) && GatesKnown(s) && GatesKnownTasks(s, op)
    ensures GatesKnown(Step(cfg, s, op))
  {
    hide Inv, GatesKnown, Evolves, TierAndGate, RaiseFlag, AutoRunFrom, EscalateFrom, Resolve, Hold, SamePeople;
    StepKeeps(cfg, s, op);
    EvolvesNames(s, Step(cfg, s, op));
    match op
    case OpSeed(task) =>
      GatesStayKnown(s, Step(cfg, s, op));
    case OpFlag(hits, candidates, rules, now, delivers) =>
      FlagGatesKnown(s, hits, candidates, rules, now, delivers);
      GatesStayKnown(s, Step(cfg, s, op));
    case OpAutoRun(now) =>
      SweepKeepsTasks(s, now);
      NoNewRows(cfg, s, op);
      GatesStayKnown(s, Step(cfg, s, op));
    case OpEscalate(now, delivers) =>
      EscalationKeepsTasks(cfg, s, 1, now, delivers);
      NoNewRows(cfg, s, op);
      GatesStayKnown(s, Step(cfg, s, op));
    case OpGate(action, matrix, now) =>
      GateAddsKnown(cfg, s, action, matrix, now);
      GatesStayKnown(s, Step(cfg, s, op));
    case OpHold(id, who) =>
      HoldAddsNothing(s, id, who);
      GatesStayKnown(s, Step(cfg, s, op));
    case OpResolve(id, r, who, now, effects, accepts) =>
      ResolveAddsNothing(s, id, r, who, now, effects, accepts);
      GatesStayKnown(s, Step(cfg, s, op));
  }

  lemma SweepKeepsTasks(s: State, now: int)
    ensures AutoRunFrom(s, 1, now).0.tasks.Keys == s.tasks.Keys
  {
    SweepKeepsPeople(s, 1, now);
    hide AutoRunFrom;
  }

  lemma NoNewRows(cfg: Config, s: State, op: Op)
    requires Inv(cfg, s) && (op.OpAutoRun? || op.OpEscalate?)
    ensures Step(cfg, s, op).rows.Keys == s.rows.Keys
  {
    hide RowOk, NoticesOk, ResumedOk, AutoRunFrom, EscalateFrom;
    if op.OpAutoRun? {
      var _ := AutoRunExact(s, 1, op.now);
    } else {
      EscalateExact(cfg, s, 1, op.now, op.delivers);
    }
  }

  /** A due row is a gate, so a sweep meets only known tasks. */
  lemma KnownGatesSweepCleanly(cfg: Config, s: State, op: Op)
    requires Inv(cfg, s) && GatesKnown(s)
    ensures !MeetsUnknownTask(s, op)
  {
    forall id: nat, now: int ensures !Stranded(s, id, now) {
      if Due(s, id, now) { assert RowOk(cfg, s.rows[id], s.meta[id]); }
    }
  }

  lemma {:induction false} KnownTasksThroughout(cfg: Config, ops: seq<Op>)
    requires forall k :: 0 <= k < |ops| ==> GatesKnownTasks(Run(cfg, Empty, ops[..k]), ops[k])
    ensures Inv(cfg, Run(cfg, Empty, ops)) && GatesKnown(Run(cfg, Empty, ops))
    decreases |ops|
  {
    hide Inv, GatesKnown, GatesKnownTasks, Step;
    if |ops| == 0 {
      EmptyOk(cfg);
      NoGates();
    } else {
      var before := ops[..|ops| - 1];
      forall k | 0 <= k < |before| ensures GatesKnownTasks(Run(cfg, Empty, before[..k]), before[k]) {
        assert before[..k] == ops[..k] && before[k] == ops[k];
      }
      KnownTasksThroughout(cfg, before);
      StepKeeps(cfg, Run(cfg, Empty, before), ops[|ops| - 1]);
      StepGatesKnown(cfg, Run(cfg, Empty, before), ops[|ops| - 1]);
    }
  }

  lemma NoGates()
    ensures GatesKnown(Empty)
  {
  }

  /** RUNS ON EXISTING TASKS. If every action that is gated in a run names a task already in the queue at that step, then
      every approval of the run released its task, and the releases are as many as the approved rows that name one. */
  lemma ExistingTasksBalance(cfg: Config, ops: seq<Op>)
    requires forall k :: 0 <= k < |ops| ==> GatesKnownTasks(Run(cfg, Empty, ops[..k]), ops[k])
    ensures var s := Run(cfg, Empty, ops); AllReleased(s) && |ApprovedTasks(s)| == |s.resumed|
  {
    hide Run, AllReleased, MeetsUnknownTask, GatesKnownTasks, GatesKnown, Inv;
    forall k | 0 <= k < |ops| ensures !MeetsUnknownTaskAt(cfg, ops, k) {
      var before := ops[..k];
      forall j | 0 <= j < |before| ensures GatesKnownTasks(Run(cfg, Empty, before[..j]), before[j]) {
        assert before[..j] == ops[..j] && before[j] == ops[j];
      }
      KnownTasksThroughout(cfg, before);
      KnownGatesSweepCleanly(cfg, Run(cfg, Empty, before), ops[k]);
    }
    NoThrowIff(cfg, ops);
    AllReleasedIffNoThrow(cfg, ops);
    ReleasesBalanceApprovals(cfg, ops);
  }
}
