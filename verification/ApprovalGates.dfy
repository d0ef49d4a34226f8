/** What a gate does to a task, exactly when it lapses by itself, that a hold is one-way, and who may never pass a gate. */
module ApprovalGates {
  import opened Wrappers
  import opened Tiers
  import opened Numbered
  import opened ApprovalSpec
  import opened ApprovalTheorems

  /** What a gate does at once. An auto action writes no row and touches no task. Any other action gets a new pending row, its task
      waits for approval, and the row comes due by itself exactly if the tier is soft, from one full window on. */
  lemma GateTakesEffect(cfg: Config, s: State, action: GatedAction, matrix: AutonomyMatrix, now: int)
    requires Inv(cfg, s)
    ensures var (t, r) := TierAndGate(cfg, s, action, matrix, now);
      var tier := ClassifyTier(action, matrix).tier;
      && (r == Ok(None) <==> tier == Auto) && (tier == Auto ==> t.rows == s.rows && t.tasks == s.tasks)
      && (r.Ok? && r.value.Some? ==>
            var id, task := r.value.value, action.actionType;
            && id !in s.rows && id in t.rows && t.rows[id].taskId == task && t.rows[id].status == Pending && t.rows[id].actionBlocked
            && task in t.tasks && t.tasks[task].status == AwaitingApproval && t.tasks[task].requiresApproval
            && t.tasks[task].originator == s.tasks[task].originator && t.tasks[task].payload == s.tasks[task].payload
            && (forall other :: other in s.tasks && other != task ==> other in t.tasks && t.tasks[other] == s.tasks[other])
            && forall at :: Due(t, id, at) <==> tier == Soft && at >= now + cfg.softTimeout)
      && (r.Err? <==> tier != Auto && action.actionType !in s.tasks)
  {
    TierIsLeast(action, matrix);
    hide RowOk, NoticesOk, ResumedOk, MeetsPolicy;
  }

  /** What a resolution does at once. It fails exactly for an unknown, resolved or hard-limit row,
      for the originator, when the compensation sink throws, or on an unknown task; a failure resolves nothing. Otherwise only
      that row and its task change: approved work runs, rejected work fails, modified work goes back unapproved with the edited
      payload, and only an approval releases. */
  lemma ResolutionTakesEffect(cfg: Config, s: State, id: nat, r: Resolution, who: string, now: int, effects: seq<Effect>, accepts: nat)
    requires Inv(cfg, s)
    ensures var (t, e) := Resolve(s, id, r, who, now, effects, accepts);
      && (e.None? <==>
            && id in s.rows && s.rows[id].status == Pending && s.rows[id].kind != HardLimit
            && accepts >= |Owed(s.rows[id].taskId, effects, now)|
            && (s.rows[id].taskId == "" || (s.rows[id].taskId in s.tasks && s.tasks[s.rows[id].taskId].originator != Some(who))))
      && (e.Some? ==> t.rows == s.rows && t.meta == s.meta && t.tasks == s.tasks && t.resumed == s.resumed)
      && (e.None? ==>
            var row, task := t.rows[id], s.rows[id].taskId;
            && t.rows.Keys == s.rows.Keys && (forall k :: k in s.rows && k != id ==> t.rows[k] == s.rows[k])
            && row.reviewedBy == Some(who) && row.reviewedAt == Some(now) && row.description == s.rows[id].description
            && (row.status == Approved <==> r == Approve) && (row.status == Rejected <==> r == Reject) && (row.status == Modified <==> r.Modify?)
            && t.tasks.Keys == s.tasks.Keys && (forall k :: k in s.tasks && k != task ==> t.tasks[k] == s.tasks[k])
            && t.resumed == (if r == Approve && task != "" then s.resumed + [id] else s.resumed)
            && (task != "" ==>
                  var before, after := s.tasks[task], t.tasks[task];
                  && (r == Approve ==> after.status == Running && after.approvedBy == Some(who) && after.payload == before.payload)
                  && (r == Reject ==> after.status == Failed && after.approvedBy == Some(who) && after.payload == before.payload)
                  && (r.Modify? ==> after.status == TaskPending && !after.requiresApproval && after.approvedBy == before.approvedBy
                                    && after.payload == (if r.edited.Some? then r.edited else before.payload))))
  {
    hide RowOk, NoticesOk, ResumedOk, Owed;
  }

  /** The row needs an explicit approval; `held` says that it was promoted by a hold. */
  predicate Explicit(s: State, id: nat, held: bool) { id in s.meta && s.meta[id].tier == Hard && (held ==> s.meta[id].held) }

  lemma {:induction false} SweepKeepsExplicit(s: State, from: nat, now: int, id: nat, held: bool)
    requires Explicit(s, id, held)
    ensures Explicit(AutoRunFrom(s, from, now).0, id, held)
    decreases s.last + 1 - from
  {
    if from <= s.last && AutoRunRow(s, from, now).1.None? {
      SweepKeepsExplicit(AutoRunRow(s, from, now).0, from + 1, now, id, held);
    }
  }

  lemma {:induction false} EscalationKeepsExplicit(cfg: Config, s: State, from: nat, now: int, delivers: nat -> bool, id: nat, held: bool)
    requires Explicit(s, id, held)
    ensures Explicit(EscalateFrom(cfg, s, from, now, delivers).0, id, held)
    decreases s.last + 1 - from
  {
    if from <= s.last {
      EscalationKeepsExplicit(cfg, EscalateRow(cfg, s, from, now, delivers), from + 1, now, delivers, id, held);
    }
  }

  lemma FlagKeepsExplicit(s: State, hits: seq<Hit>, candidates: seq<Reviewer>, rules: RoutingRules, now: int,
                          delivers: nat -> bool, id: nat, held: bool)
    requires Explicit(s, id, held) && id <= s.last
    ensures Explicit(RaiseFlag(s, hits, candidates, rules, now, delivers).0, id, held)
  {
    hide Append, HitRows, KilledRows, HitMetas, RouteApproval, HasHardLimit;
    AppendLookup(s.meta, s.last, HitMetas(hits, None), id);
    AppendLookup(s.meta, s.last, HitMetas(hits, Some(RouteApproval(if |hits| > 0 then hits[0].action else NoAction, candidates, rules))), id);
  }

  const NoAction := GatedAction("", None, None, [], None, None)

  lemma StepKeepsExplicit(cfg: Config, s: State, op: Op, id: nat, held: bool)
    requires Inv(cfg, s) && Explicit(s, id, held)
    ensures Explicit(Step(cfg, s, op), id, held)
  {
    assert id in s.rows && id <= s.last;
    hide Inv, ClassifyTier, Owed;
    match op
    case OpAutoRun(now) => SweepKeepsExplicit(s, 1, now, id, held);
    case OpEscalate(now, delivers) => EscalationKeepsExplicit(cfg, s, 1, now, delivers, id, held);
    case OpFlag(hits, candidates, rules, now, delivers) => FlagKeepsExplicit(s, hits, candidates, rules, now, delivers, id, held);
    case OpSeed(task) =>
    case OpGate(action, matrix, now) =>
    case OpHold(h, who) =>
    case OpResolve(r, resolution, who, now, effects, accepts) =>
  }

  /** Over every later run such a row stays so, never comes due, and is approved by a reviewer or not at all. */
  lemma {:induction false} ExplicitForGood(cfg: Config, s: State, later: seq<Op>, id: nat, held: bool)
    requires Inv(cfg, s) && Explicit(s, id, held)
    ensures NeverLapses(Run(cfg, s, later), id) && Explicit(Run(cfg, s, later), id, held)
    decreases |later|
  {
    RunKeeps(cfg, s, later);
    if |later| > 0 {
      var before := later[..|later| - 1];
      ExplicitForGood(cfg, s, before, id, held);
      RunKeeps(cfg, s, before);
      StepKeepsExplicit(cfg, Run(cfg, s, before), later[|later| - 1], id, held);
    }
    hide Step, Evolves, NoticesOk, ResumedOk;
    var t := Run(cfg, s, later);
    assert id in t.rows && RowOk(cfg, t.rows[id], t.meta[id]);
  }

  /** The row is never due, and if it is approved a reviewer did it. */
  ghost predicate NeverLapses(t: State, id: nat) {
    id in t.rows && (t.rows[id].status == Approved ==> t.rows[id].reviewedBy.Some?) && forall now :: !Due(t, id, now)
  }

  /** A hold succeeds exactly on a soft row that is still pending, and then it is held. */
  lemma HoldSucceedsIff(cfg: Config, s: State, id: nat, who: string)
    requires Inv(cfg, s)
    ensures Hold(s, id, who).1.None? <==> id in s.rows && s.rows[id].status == Pending && s.meta[id].tier == Soft
    ensures Hold(s, id, who).1.None? ==> Explicit(Hold(s, id, who).0, id, true)
    ensures Hold(s, id, who).1.Some? ==> Hold(s, id, who).0 == s
  {
    if id in s.rows { assert RowOk(cfg, s.rows[id], s.meta[id]); }
    hide RowOk, NoticesOk, ResumedOk;
  }

  /** A HOLD IS ONE-WAY. On every pending soft row a hold succeeds, and over every later run the row stays held, never comes
      due and is never approved but by a reviewer. */
  lemma HoldIsOneWay(cfg: Config, s: State, id: nat, who: string, later: seq<Op>)
    requires Inv(cfg, s) && id in s.rows && s.rows[id].status == Pending && s.meta[id].tier == Soft
    ensures var (held, e) := Hold(s, id, who);
      e.None? && var t := Run(cfg, held, later); NeverLapses(t, id) && Explicit(t, id, true)
  {
    HoldSucceedsIff(cfg, s, id, who);
    HoldKeeps(cfg, s, id, who);
    ExplicitForGood(cfg, Hold(s, id, who).0, later, id, true);
    RunKeeps(cfg, Hold(s, id, who).0, later);
    hide Hold, Run, Inv, NeverLapses;
  }

  /** HARD GATES NEVER LAPSE. An action the policy makes hard gets a row that, over every later run, never comes due and is
      never approved but by a reviewer; its task waits for approval from the start. */
  lemma HardGatesNeverLapse(cfg: Config, s: State, action: GatedAction, matrix: AutonomyMatrix, now: int, later: seq<Op>)
    requires Inv(cfg, s) && action.actionType in s.tasks && ClassifyTier(action, matrix).tier == Hard
    ensures var (t, r) := TierAndGate(cfg, s, action, matrix, now);
      && r.Ok? && r.value.Some? && t.tasks[action.actionType].status == AwaitingApproval
      && NeverLapses(Run(cfg, t, later), r.value.value)
  {
    GateTakesEffect(cfg, s, action, matrix, now);
    GateKeeps(cfg, s, action, matrix, now);
    var (t, r) := TierAndGate(cfg, s, action, matrix, now);
    assert Explicit(t, r.value.value, false);
    ExplicitForGood(cfg, t, later, r.value.value, false);
    hide TierAndGate, Run, Inv, NeverLapses;
  }

  // ---------------------------------------------------------------- who may never approve

  /** The same tasks with the same originators. */
  predicate SamePeople(a: map<string, TaskRow>, b: map<string, TaskRow>) {
    a.Keys == b.Keys && forall id :: id in a ==> b[id].originator == a[id].originator
  }

  lemma {:induction false} SweepKeepsPeople(s: State, id: nat, now: int)
    ensures SamePeople(s.tasks, AutoRunFrom(s, id, now).0.tasks)
    decreases s.last + 1 - id
  {
    if id <= s.last && AutoRunRow(s, id, now).1.None? {
      SweepKeepsPeople(AutoRunRow(s, id, now).0, id + 1, now);
    }
  }

  lemma {:induction false} EscalationKeepsTasks(cfg: Config, s: State, id: nat, now: int, delivers: nat -> bool)
    ensures EscalateFrom(cfg, s, id, now, delivers).0.tasks == s.tasks
    decreases s.last + 1 - id
  {
    if id <= s.last {
      EscalationKeepsTasks(cfg, EscalateRow(cfg, s, id, now, delivers), id + 1, now, delivers);
    }
  }

  lemma StepKeepsPeople(cfg: Config, s: State, op: Op)
    requires !op.OpSeed?
    ensures SamePeople(s.tasks, Step(cfg, s, op).tasks)
  {
    hide ClassifyTier, RouteApproval, HasHardLimit, AddBatch;
    match op
    case OpAutoRun(now) => SweepKeepsPeople(s, 1, now);
    case OpEscalate(now, delivers) => EscalationKeepsTasks(cfg, s, 1, now, delivers);
    case OpFlag(hits, candidates, rules, now, delivers) => FlagKeepsPeople(s, hits, candidates, rules, now, delivers);
    case OpGate(action, matrix, now) =>
    case OpHold(id, who) =>
    case OpResolve(id, r, who, now, effects, accepts) =>
  }

  lemma FlagKeepsPeople(s: State, hits: seq<Hit>, candidates: seq<Reviewer>, rules: RoutingRules, now: int, delivers: nat -> bool)
    ensures SamePeople(s.tasks, RaiseFlag(s, hits, candidates, rules, now, delivers).0.tasks)
  {
    hide RouteApproval, HasHardLimit, HitRows, KilledRows, HitMetas, Append;
  }

  lemma {:induction false} RunKeepsPeople(cfg: Config, s: State, ops: seq<Op>)
    requires forall op :: op in ops ==> !op.OpSeed?
    ensures SamePeople(s.tasks, Run(cfg, s, ops).tasks)
    decreases |ops|
  {
    if |ops| > 0 {
      RunKeepsPeople(cfg, s, ops[..|ops| - 1]);
      StepKeepsPeople(cfg, Run(cfg, s, ops[..|ops| - 1]), ops[|ops| - 1]);
      hide Step;
    }
  }

  predicate ReviewedBy(s: State, id: nat, who: string) { id in s.rows && s.rows[id].reviewedBy == Some(who) }

  lemma FlagReviewsNothing(s: State, hits: seq<Hit>, candidates: seq<Reviewer>, rules: RoutingRules, now: int, delivers: nat -> bool, id: nat, who: string)
    requires ReviewedBy(RaiseFlag(s, hits, candidates, rules, now, delivers).0, id, who)
    ensures ReviewedBy(s, id, who)
  {
    hide HitMetas, RouteApproval, HasHardLimit, Append;
    AppendLookup(s.rows, s.last, HitRows(hits, now), id);
    AppendLookup(s.rows, s.last, KilledRows(hits, now), id);
  }

  lemma SweepsReviewNothing(cfg: Config, s: State, op: Op, id: nat, who: string)
    requires Inv(cfg, s) && (op.OpAutoRun? || op.OpEscalate?) && ReviewedBy(Step(cfg, s, op), id, who)
    ensures ReviewedBy(s, id, who)
  {
    hide RowOk, NoticesOk, ResumedOk, AutoRunFrom, EscalateFrom, Due, Stale;
    if op.OpAutoRun? {
      var _ := AutoRunExact(s, 1, op.now);
    } else {
      EscalateExact(cfg, s, 1, op.now, op.delivers);
    }
  }

  /** Only a resolution by that person puts a person's name on a row, and it refuses the originator. */
  lemma StepReviewer(cfg: Config, s: State, op: Op, id: nat, who: string)
    requires Inv(cfg, s) && ReviewedBy(Step(cfg, s, op), id, who) && !ReviewedBy(s, id, who)
    ensures id in s.rows && var task := s.rows[id].taskId; task != "" ==> task in s.tasks && s.tasks[task].originator != Some(who)
  {
    hide Inv, TierAndGate, RaiseFlag, AutoRunFrom, EscalateFrom, Resolve, Owed;
    match op
    case OpAutoRun(now) => SweepsReviewNothing(cfg, s, op, id, who);
    case OpEscalate(now, delivers) => SweepsReviewNothing(cfg, s, op, id, who);
    case OpFlag(hits, candidates, rules, now, delivers) => FlagReviewsNothing(s, hits, candidates, rules, now, delivers, id, who);
    case OpSeed(task) =>
    case OpHold(h, actor) =>
    case OpGate(action, matrix, now) => GateReviewsNothing(cfg, s, action, matrix, now, id, who);
    case OpResolve(k, r, actor, now, effects, accepts) => ResolutionTakesEffect(cfg, s, k, r, actor, now, effects, accepts);
  }

  lemma GateReviewsNothing(cfg: Config, s: State, action: GatedAction, matrix: AutonomyMatrix, now: int, id: nat, who: string)
    requires ReviewedBy(TierAndGate(cfg, s, action, matrix, now).0, id, who)
    ensures ReviewedBy(s, id, who)
  {
    hide ClassifyTier;
  }

  /** NOBODY RESOLVES THEIR OWN TASK. Over every run in which tasks change only through the workflow, whoever approved,
      rejected or modified a row is not the originator of its task. */
  lemma {:induction false} NoSelfResolution(cfg: Config, s: State, ops: seq<Op>, id: nat, who: string)
    requires Inv(cfg, s) && (forall op :: op in ops ==> !op.OpSeed?) && !ReviewedBy(s, id, who)
    requires ReviewedBy(Run(cfg, s, ops), id, who)
    ensures var task := Run(cfg, s, ops).rows[id].taskId;
            task != "" ==> task in s.tasks && s.tasks[task].originator != Some(who)
    decreases |ops|
  {
    hide ReviewedBy, Step;
    var before, op := ops[..|ops| - 1], ops[|ops| - 1];
    var mid, t := Run(cfg, s, before), Run(cfg, s, ops);
    RunKeeps(cfg, s, before);
    StepKeeps(cfg, mid, op);
    RunKeepsPeople(cfg, s, before);
    assert t == Step(cfg, mid, op);
    hide Run, Inv;
    if ReviewedBy(mid, id, who) {
      NoSelfResolution(cfg, s, before, id, who);
      ReviewedRow(mid, id, who);
    } else {
      StepReviewer(cfg, mid, op, id, who);
    }
  }

  lemma ReviewedRow(s: State, id: nat, who: string)
    requires ReviewedBy(s, id, who)
    ensures id in s.rows
  {
  }
}
