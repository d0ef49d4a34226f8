/** The approval workflow as a state machine (app/approval-tiers/src/store.ts): guardrail rows, their bookkeeping,
    their task queue, and one transition function per operation. Row ids are the numbers behind the row names;
    they are handed out in increasing order, so insertion order is numeric order. Times are whole seconds. */
module ApprovalSpec {
  import opened Wrappers
  import opened Tiers
  import opened Numbered

  datatype GuardrailKind = HardLimit | ApprovalGate | Anomaly | RateLimit | PromptInjection

  datatype Status = Pending | Approved | Rejected | Modified

  /** A row's description, kept as the list of the notes it is composed of. */
  datatype Note = Decided(why: Why) | Fired(text: string) | HeldForReview(who: string) | SupersededByHardLimit

  datatype Row = Row(
    taskId: string, kind: GuardrailKind, description: seq<Note>, actionBlocked: bool, status: Status,
    reviewedBy: Option<string>, reviewedAt: Option<int>, escalatedAt: Option<int>, createdAt: int)

  datatype WaitKind = FlaggedWait | ApprovalWait

  datatype Meta = Meta(
    tier: Tier, floored: bool, routing: Option<RoutingOutcome>, softDeadline: Option<int>, held: bool,
    waitKind: WaitKind, escalations: nat)

  datatype TaskStatus = TaskPending | Running | AwaitingApproval | Completed | Failed | Flagged

  datatype TaskRow = TaskRow(
    id: string, name: string, status: TaskStatus, requiresApproval: bool, approvedBy: Option<string>,
    approvedAt: Option<int>, originator: Option<string>, payload: Option<string>)

  datatype Notification =
    | FlagRaised(rowId: nat, taskId: string, reviewer: Option<string>, role: string, at: int)
    | StaleWait(rowId: nat, taskId: string, reviewer: Option<string>, role: string, escalation: nat, widened: bool, at: int)

  datatype Classification = Classification(taskId: string, tier: Tier, floored: bool, at: int)

  datatype Config = Config(softTimeout: int, escalationTimeout: int, widenAfter: int)

  datatype Error =
    | NoSuchTask(id: string) | NoSuchRow(rowId: nat) | NotPending(status: Status) | HardLimitNoAffordance
    | SelfApproval(who: string) | HoldOnlySoft | NoHits | CompensationSinkFailed

  datatype Hit = Hit(kind: GuardrailKind, action: GatedAction, text: string)

  datatype Resolution = Approve | Reject | Modify(edited: Option<string>)

  /** A side effect a step had before it was stopped. */
  datatype Effect = Effect(text: string, reversible: bool)

  datatype Compensation = Compensation(forTask: string, text: string, at: int)

  /** `compensations` is the compensation sink; `resumed` records, in order, the rows whose resolution released a task. */
  datatype State = State(
    last: nat, rows: map<nat, Row>, meta: map<nat, Meta>, tasks: map<string, TaskRow>, classifications: seq<Classification>,
    sent: seq<Notification>, dropped: seq<Notification>, compensations: seq<Compensation>, resumed: seq<nat>)

  const SYSTEM := "system:soft-auto-run"
  const SUPER_ADMIN := "Super-Admin"

  // ---------------------------------------------------------------- task queue seam

  function Held(t: TaskRow): TaskRow { t.(requiresApproval := true, status := AwaitingApproval) }

  function Released(t: TaskRow, approver: string, now: int): TaskRow {
    t.(approvedBy := Some(approver), approvedAt := Some(now), status := Running)
  }

  function Cancelled(t: TaskRow, approver: string, now: int): TaskRow {
    t.(approvedBy := Some(approver), approvedAt := Some(now), status := Failed)
  }

  function Requeued(t: TaskRow, payload: Option<string>): TaskRow {
    t.(payload := payload, requiresApproval := false, status := TaskPending)
  }

  // ---------------------------------------------------------------- tiering

  function GateRow(action: GatedAction, d: TierDecision, now: int): Row {
    Row(action.actionType, ApprovalGate, [Decided(d.reason)], true, Pending, None, None, None, now)
  }

  function GateMeta(cfg: Config, d: TierDecision, now: int): Meta {
    Meta(d.tier, d.floored, None, if d.tier == Soft && !d.floored then Some(now + cfg.softTimeout) else None, false,
         ApprovalWait, 0)
  }

  /** The new state and the row written for a soft or hard gate; an unknown task throws after the row is written. */
  function TierAndGate(cfg: Config, s: State, action: GatedAction, matrix: AutonomyMatrix, now: int)
    : (r: (State, Result<Option<nat>, Error>))
  {
    var d := ClassifyTier(action, matrix);
    var s1 := s.(classifications := s.classifications + [Classification(action.actionType, d.tier, d.floored, now)]);
    if d.tier == Auto then (s1, Ok(None))
    else
      var id := s.last + 1;
      var s2 := s1.(last := id, rows := s.rows[id := GateRow(action, d, now)], meta := s.meta[id := GateMeta(cfg, d, now)]);
      var task := action.actionType;
      if task !in s.tasks then (s2, Err(NoSuchTask(task)))
      else (s2.(tasks := s.tasks[task := Held(s.tasks[task])]), Ok(Some(id)))
  }

  // ---------------------------------------------------------------- soft timeout

  /** The row is an unheld soft gate whose window has elapsed. */
  predicate Due(s: State, id: nat, now: int) {
    id in s.rows && id in s.meta && s.rows[id].status == Pending && s.meta[id].tier == Soft && !s.meta[id].floored
    && !s.meta[id].held && s.meta[id].softDeadline.Some? && now >= s.meta[id].softDeadline.value
  }

  function AutoApproved(row: Row, now: int): Row {
    row.(status := Approved, reviewedBy := None, reviewedAt := Some(now))
  }

  /** One row of the sweep; an unknown task throws after the row has been approved. */
  function AutoRunRow(s: State, id: nat, now: int): (r: (State, Option<Error>))
    ensures r.0.last == s.last
  {
    if !Due(s, id, now) then (s, None)
    else
      var row := s.rows[id];
      var s1 := s.(rows := s.rows[id := AutoApproved(row, now)], meta := s.meta[id := s.meta[id].(softDeadline := None)]);
      if row.taskId == "" then (s1, None)
      else if row.taskId !in s.tasks then (s1, Some(NoSuchTask(row.taskId)))
      else (s1.(tasks := s.tasks[row.taskId := Released(s.tasks[row.taskId], SYSTEM, now)], resumed := s.resumed + [id]), None)
  }

  /** The sweep over the rows from id on. The first error ends it. */
  function AutoRunFrom(s: State, id: nat, now: int): (r: (State, Result<seq<nat>, Error>))
    decreases s.last + 1 - id
  {
    if id > s.last then (s, Ok([]))
    else
      var one := AutoRunRow(s, id, now);
      if one.1.Some? then (one.0, Err(one.1.value))
      else
        var rest := AutoRunFrom(one.0, id + 1, now);
        (rest.0, if rest.1.Ok? then Ok((if Due(s, id, now) then [id] else []) + rest.1.value) else rest.1)
  }

  // ---------------------------------------------------------------- hold for full review

  function HoldError(s: State, id: nat): Option<Error> {
    if id !in s.rows || id !in s.meta then Some(NoSuchRow(id))
    else if s.rows[id].status != Pending then Some(NotPending(s.rows[id].status))
    else if s.meta[id].tier != Soft || s.meta[id].floored then Some(HoldOnlySoft)
    else None
  }

  function Hold(s: State, id: nat, who: string): (r: (State, Option<Error>)) {
    var e := HoldError(s, id);
    if e.Some? then (s, e)
    else
      var row := s.rows[id];
      (s.(rows := s.rows[id := row.(description := row.description + [HeldForReview(who)])],
          meta := s.meta[id := s.meta[id].(held := true, softDeadline := None, tier := Hard)]), None)
  }

  // ---------------------------------------------------------------- raising a flag

  function HitRow(h: Hit, now: int): Row {
    Row(h.action.actionType, h.kind, [Fired(h.text)], true, Pending, None, None, None, now)
  }

  function HitMeta(h: Hit): Meta {
    Meta(Hard, h.kind == HardLimit, None, None, false, FlaggedWait, 0)
  }

  function Superseded(row: Row, now: int): Row {
    row.(status := Rejected, reviewedBy := None, reviewedAt := Some(now), description := row.description + [SupersededByHardLimit])
  }

  predicate HasHardLimit(hits: seq<Hit>) {
    exists i :: 0 <= i < |hits| && hits[i].kind == HardLimit
  }

  /** Append a batch of rows with their bookkeeping. */
  function AddBatch(s: State, rows: seq<Row>, meta: seq<Meta>): State {
    s.(last := s.last + |rows|, rows := Append(s.rows, s.last, rows), meta := Append(s.meta, s.last, meta))
  }

  /** One row per hit. */
  function HitRows(hits: seq<Hit>, now: int): (rows: seq<Row>)
    ensures |rows| == |hits|
  {
    seq(|hits|, i requires 0 <= i < |hits| => HitRow(hits[i], now))
  }

  /** When a hard limit co-fires, every other row of the batch is closed. */
  function KilledRows(hits: seq<Hit>, now: int): (rows: seq<Row>)
    ensures |rows| == |hits|
  {
    seq(|hits|, i requires 0 <= i < |hits| =>
      if hits[i].kind == HardLimit then HitRow(hits[i], now) else Superseded(HitRow(hits[i], now), now))
  }

  function HitMetas(hits: seq<Hit>, routing: Option<RoutingOutcome>): (meta: seq<Meta>)
    ensures |meta| == |hits|
  {
    seq(|hits|, i requires 0 <= i < |hits| => HitMeta(hits[i]).(routing := routing))
  }

  datatype FlagOutcome = Killed | FlaggedForReview(routing: RoutingOutcome, notified: bool)

  /** It flags the task named by the last hit; an unknown task throws after the rows are written. */
  function RaiseFlag(s: State, hits: seq<Hit>, candidates: seq<Reviewer>, rules: RoutingRules, now: int, delivers: nat -> bool)
    : (r: (State, Result<FlagOutcome, Error>))
  {
    if |hits| == 0 then (s, Err(NoHits))
    else if HasHardLimit(hits) then (AddBatch(s, KilledRows(hits, now), HitMetas(hits, None)), Ok(Killed))
    else
      var task := hits[|hits| - 1].action.actionType;
      if task != "" && task !in s.tasks then
        (AddBatch(s, HitRows(hits, now), HitMetas(hits, None)), Err(NoSuchTask(task)))
      else
        var routing := RouteApproval(hits[0].action, candidates, rules);
        var tasks := if task == "" then s.tasks else s.tasks[task := s.tasks[task].(status := Flagged)];
        var s1 := AddBatch(s, HitRows(hits, now), HitMetas(hits, Some(routing))).(tasks := tasks);
        var first := s.last + 1;
        var n := FlagRaised(first, task, routing.reviewer, routing.role, now);
        (if delivers(first) then s1.(sent := s1.sent + [n]) else s1.(dropped := s1.dropped + [n]),
         Ok(FlaggedForReview(routing, delivers(first))))
  }

  // ---------------------------------------------------------------- human resolution

  function ResolveError(s: State, id: nat, who: string, sinkFails: bool): Option<Error> {
    if id !in s.rows then Some(NoSuchRow(id))
    else
      var row := s.rows[id];
      if row.status != Pending then Some(NotPending(row.status))
      else if row.kind == HardLimit then Some(HardLimitNoAffordance)
      else if row.taskId != "" && row.taskId in s.tasks && s.tasks[row.taskId].originator == Some(who) then Some(SelfApproval(who))
      else if sinkFails then Some(CompensationSinkFailed)
      else if row.taskId != "" && row.taskId !in s.tasks then Some(NoSuchTask(row.taskId))
      else None
  }

  function NextStatus(r: Resolution): Status {
    match r case Approve => Approved case Reject => Rejected case Modify(_) => Modified
  }

  function ResolvedTask(t: TaskRow, r: Resolution, who: string, now: int): TaskRow {
    match r
    case Approve => Released(t, who, now)
    case Reject => Cancelled(t, who, now)
    case Modify(edited) => Requeued(t, if edited.Some? then edited else t.payload)
  }

  /** One clean-up task per reversible effect, in order. */
  function Owed(task: string, effects: seq<Effect>, now: int): seq<Compensation> {
    if |effects| == 0 then []
    else
      var last := effects[|effects| - 1];
      Owed(task, effects[..|effects| - 1], now) + if last.reversible then [Compensation(task, last.text, now)] else []
  }

  /** The sink took the first `accepts` clean-up tasks and throws on the next one, if there is one. */
  function Compensate(s: State, owed: seq<Compensation>, accepts: nat): State {
    s.(compensations := s.compensations + if accepts < |owed| then owed[..accepts] else owed)
  }

  /** Compensations are queued before a task is touched, and stay queued when that task turns out to be unknown. */
  function Resolve(s: State, id: nat, r: Resolution, who: string, now: int, effects: seq<Effect>, accepts: nat)
    : (out: (State, Option<Error>))
  {
    var owed := if id in s.rows then Owed(s.rows[id].taskId, effects, now) else [];
    var e := ResolveError(s, id, who, accepts < |owed|);
    if e.Some? then (if e.value.CompensationSinkFailed? || e.value.NoSuchTask? then Compensate(s, owed, accepts) else s, e)
    else
      var row := s.rows[id];
      var s1 := Compensate(s, owed, accepts)
                .(rows := s.rows[id := row.(status := NextStatus(r), reviewedBy := Some(who), reviewedAt := Some(now))],
                  meta := if id in s.meta then s.meta[id := s.meta[id].(softDeadline := None)] else s.meta);
      if row.taskId == "" then (s1, None)
      else (s1.(tasks := s.tasks[row.taskId := ResolvedTask(s.tasks[row.taskId], r, who, now)],
                resumed := if r == Approve then s.resumed + [id] else s.resumed), None)
  }

  // ---------------------------------------------------------------- escalation

  /** A full window has passed since creation and since the last escalation. */
  predicate Stale(cfg: Config, s: State, id: nat, now: int) {
    id in s.rows && id in s.meta && s.rows[id].status == Pending && s.rows[id].kind != HardLimit
    && now - s.rows[id].createdAt >= cfg.escalationTimeout
    && (s.rows[id].escalatedAt.Some? ==> now - s.rows[id].escalatedAt.value >= cfg.escalationTimeout)
  }

  function StaleNotice(cfg: Config, id: nat, row: Row, m: Meta, now: int): Notification {
    var widened := m.escalations + 1 >= cfg.widenAfter;
    StaleWait(id, row.taskId,
      if widened || m.routing.None? then None else m.routing.value.reviewer,
      if widened then SUPER_ADMIN else if m.routing.Some? then m.routing.value.role else "reviewer",
      m.escalations + 1, widened, now)
  }

  function EscalateRow(cfg: Config, s: State, id: nat, now: int, delivers: nat -> bool): (t: State)
    ensures t.last == s.last
  {
    if !Stale(cfg, s, id, now) then s
    else
      var row, m := s.rows[id], s.meta[id];
      var n := StaleNotice(cfg, id, row, m, now);
      s.(rows := s.rows[id := row.(escalatedAt := Some(now))],
         meta := s.meta[id := m.(escalations := m.escalations + 1)],
         sent := if delivers(id) then s.sent + [n] else s.sent,
         dropped := if delivers(id) then s.dropped else s.dropped + [n])
  }

  function EscalateFrom(cfg: Config, s: State, id: nat, now: int, delivers: nat -> bool): (r: (State, seq<nat>))
    decreases s.last + 1 - id
  {
    if id > s.last then (s, [])
    else
      var rest := EscalateFrom(cfg, EscalateRow(cfg, s, id, now, delivers), id + 1, now, delivers);
      (rest.0, (if Stale(cfg, s, id, now) then [id] else []) + rest.1)
  }

  // ---------------------------------------------------------------- the queue view

  datatype QueueFilter = AllItems | Approvals | SafetyHolds | Overdue

  datatype Action = DoApprove | DoReject | DoModify | DoHold | DoCleanup

  datatype Item = Item(
    rowId: nat, taskId: string, kind: GuardrailKind, tier: Tier, lockedBadge: bool, held: bool,
    countdown: Option<int>, role: string, reviewer: Option<string>, overdue: bool, actions: seq<Action>,
    resolveDisabled: bool)

  predicate InQueue(s: State, id: nat) {
    id in s.rows && id in s.meta && s.rows[id].kind != HardLimit && s.rows[id].status == Pending
  }

  function MakeItem(cfg: Config, id: nat, row: Row, m: Meta, live: bool, now: int): Item {
    var softAuto := m.tier == Soft && !m.floored && !m.held && m.softDeadline.Some?;
    Item(id, row.taskId, row.kind, m.tier, m.floored, m.held,
      if softAuto then Some(if m.softDeadline.value - now > 0 then m.softDeadline.value - now else 0) else None,
      if m.routing.Some? then m.routing.value.role else "reviewer",
      if m.routing.Some? then m.routing.value.reviewer else None,
      now - row.createdAt >= cfg.escalationTimeout,
      if softAuto then [DoApprove, DoReject, DoModify, DoHold, DoCleanup] else [DoApprove, DoReject, DoModify, DoCleanup],
      !live)
  }

  function ItemOf(cfg: Config, s: State, id: nat, live: bool, now: int): Item
    requires id in s.rows && id in s.meta
  {
    MakeItem(cfg, id, s.rows[id], s.meta[id], live, now)
  }

  predicate Shows(filter: QueueFilter, item: Item) {
    match filter
    case AllItems => true
    case Approvals => item.kind == ApprovalGate
    case SafetyHolds => item.kind != ApprovalGate
    case Overdue => item.overdue
  }

  /** The items of the rows up to id. */
  function ItemsUpTo(cfg: Config, s: State, id: nat, live: bool, now: int): seq<Item> {
    if id == 0 then []
    else ItemsUpTo(cfg, s, id - 1, live, now) + (if InQueue(s, id) then [ItemOf(cfg, s, id, live, now)] else [])
  }

  function QueueView(cfg: Config, s: State, filter: QueueFilter, live: bool, now: int): seq<Item> {
    Filter(ItemsUpTo(cfg, s, s.last, live, now), item => Shows(filter, item))
  }

  // ---------------------------------------------------------------- runs

  datatype Op =
    | OpSeed(task: TaskRow)
    | OpGate(action: GatedAction, matrix: AutonomyMatrix, now: int)
    | OpAutoRun(now: int)
    | OpHold(id: nat, who: string)
    | OpFlag(hits: seq<Hit>, candidates: seq<Reviewer>, rules: RoutingRules, now: int, delivers: nat -> bool)
    | OpResolve(id: nat, r: Resolution, who: string, now: int, effects: seq<Effect>, accepts: nat)
    | OpEscalate(now: int, delivers: nat -> bool)

  const Empty: State := State(0, map[], map[], map[], [], [], [], [], [])

  /** One operation. Seeding stands for any outside change to a task. */
  function Step(cfg: Config, s: State, op: Op): State {
    match op
    case OpSeed(task) => s.(tasks := s.tasks[task.id := task])
    case OpGate(action, matrix, now) => TierAndGate(cfg, s, action, matrix, now).0
    case OpAutoRun(now) => AutoRunFrom(s, 1, now).0
    case OpHold(id, who) => Hold(s, id, who).0
    case OpFlag(hits, candidates, rules, now, delivers) => RaiseFlag(s, hits, candidates, rules, now, delivers).0
    case OpResolve(id, r, who, now, effects, accepts) => Resolve(s, id, r, who, now, effects, accepts).0
    case OpEscalate(now, delivers) => EscalateFrom(cfg, s, 1, now, delivers).0
  }

  function Run(cfg: Config, s: State, ops: seq<Op>): State
    decreases |ops|
  {
    if |ops| == 0 then s else Step(cfg, Run(cfg, s, ops[..|ops| - 1]), ops[|ops| - 1])
  }
}
