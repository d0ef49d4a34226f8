/** Alert delivery and escalation (app/alerting/src/engine.ts, types.ts, config-validation.ts) as a state machine. Ids are
    the numbers the id generator hands out, times are milliseconds on the server clock, the role model is a parameter. */
module AlertSpec {
  import opened Wrappers

  datatype AlertKind =
    | TaskFailureSpike | QueueBackup | MemoryConfidenceDrop | ApprovalQueueStale | HardLimitHit
    | CostThresholdBreach | LoopMissed | Proactive | DeliveryMisconfigured | EngineStalled

  datatype EventKind =
    | SpikeEvent | BackupEvent | ConfidenceEvent | StaleEvent | CostEvent | LoopEvent | GuardrailEvent

  datatype Severity = Critical | Warning | Info

  datatype ReadState = Unread | Read | Actioned

  /** The escalation state of a row: the last step fired, or exhausted. */
  datatype Mark = AtStep(step: nat) | Exhausted

  datatype Delivery = Delivery(attempted: bool, ok: bool, failure: Option<string>)

  datatype Notification = Notification(
    kind: AlertKind, severity: Severity, title: string, recipient: Option<string>, role: Option<string>,
    readState: ReadState, escalation: Option<Mark>, escalatedAt: Option<int>, actionedAt: Option<int>,
    delivery: Option<Delivery>, createdAt: int)

  /** What an event-log row records, each about one notification. */
  datatype Entry =
    | RaisedEntry(subject: nat, severity: Severity, entity: Option<string>)
    | EscalatedEntry(subject: nat, primary: nat, step: nat)
    | MisconfiguredEntry(subject: nat, source: AlertKind)

  datatype Event = Event(id: nat, kind: EventKind, entry: Entry, createdAt: int)

  datatype Rule = Rule(role: string, slack: bool)

  datatype QuietHours = QuietHours(enabled: bool, start: int, end: int)

  /** The alert configuration and the role model: who holds a role, and which user ids are known. */
  datatype Config = Config(
    routing: map<AlertKind, Rule>, contacts: map<string, seq<string>>, quiet: QuietHours, webhook: bool,
    holders: string -> seq<string>, known: string -> bool)

  datatype State = State(last: nat, rows: map<nat, Notification>, events: seq<Event>, misconfigured: bool, sent: seq<string>)

  datatype Error = NotFound(id: nat)

  predicate IsCritical(kind: AlertKind) { kind in {HardLimitHit, DeliveryMisconfigured, EngineStalled} }

  function EventFor(kind: AlertKind): EventKind {
    match kind
    case TaskFailureSpike => SpikeEvent
    case QueueBackup => BackupEvent
    case MemoryConfidenceDrop => ConfidenceEvent
    case ApprovalQueueStale => StaleEvent
    case CostThresholdBreach => CostEvent
    case LoopMissed | Proactive => LoopEvent
    case HardLimitHit | DeliveryMisconfigured | EngineStalled => GuardrailEvent
  }

  // ---------------------------------------------------------------- who an alert goes to

  /** The first holder of the role, else the contact itself when it is a known user, else nobody. */
  function ResolveContact(cfg: Config, contact: string): Option<string> {
    if |contact| == 0 then None
    else if |cfg.holders(contact)| > 0 then Some(cfg.holders(contact)[0])
    else if cfg.known(contact) then Some(contact)
    else None
  }

  function ChainOf(cfg: Config, role: string): seq<string> { if role in cfg.contacts then cfg.contacts[role] else [] }

  /** An absent or empty role has no chain. */
  function ChainFor(cfg: Config, role: Option<string>): seq<string> {
    if role.None? || role.value == "" then [] else ChainOf(cfg, role.value)
  }

  /** The first index from i on whose contact resolves to somebody. */
  function FirstResolvable(cfg: Config, chain: seq<string>, i: nat): (f: nat)
    ensures f >= i && (f < |chain| ==> ResolveContact(cfg, chain[f]).Some?)
    ensures forall k :: i <= k < f && k < |chain| ==> ResolveContact(cfg, chain[k]).None?
    decreases |chain| - i
  {
    if i >= |chain| || ResolveContact(cfg, chain[i]).Some? then i else FirstResolvable(cfg, chain, i + 1)
  }

  /** The first index from i on that does not reach the primary recipient again. */
  function FirstAfterPrimary(cfg: Config, chain: seq<string>, primary: Option<string>, i: nat): (f: nat)
    ensures f >= i && (f < |chain| ==> ResolveContact(cfg, chain[f]) != primary)
    ensures forall k :: i <= k < f && k < |chain| ==> ResolveContact(cfg, chain[k]) == primary
    decreases |chain| - i
  {
    if i >= |chain| || ResolveContact(cfg, chain[i]) != primary then i else FirstAfterPrimary(cfg, chain, primary, i + 1)
  }

  datatype Alert = Alert(kind: AlertKind, severity: Severity, title: string, entity: Option<string>, reviewer: Option<string>)

  function Truthy(s: Option<string>): Option<string> { if s == Some("") then None else s }

  /** A stale approval goes to its reviewer; any other alert to the first holder of its routed role, else to the first
      contact of that role's chain that resolves. */
  function ResolveRecipient(cfg: Config, alert: Alert): Option<string> {
    if alert.kind == ApprovalQueueStale && Truthy(alert.reviewer).Some? then alert.reviewer
    else if alert.kind !in cfg.routing then None
    else
      var role := cfg.routing[alert.kind].role;
      if |cfg.holders(role)| > 0 then Some(cfg.holders(role)[0])
      else
        var chain := ChainOf(cfg, role);
        var f := FirstResolvable(cfg, chain, 0);
        if f < |chain| then ResolveContact(cfg, chain[f]) else None
  }

  predicate HasDestination(cfg: Config, kind: AlertKind) {
    kind in cfg.routing
    && var role := cfg.routing[kind].role;
       |cfg.holders(role)| > 0 || exists contact :: contact in ChainOf(cfg, role) && ResolveContact(cfg, contact).Some?
  }

  /** The write-time gate: every critical kind has a destination. */
  predicate Accepted(cfg: Config) {
    HasDestination(cfg, HardLimitHit) && HasDestination(cfg, DeliveryMisconfigured) && HasDestination(cfg, EngineStalled)
  }

  predicate InQuietWindow(q: QuietHours, minute: int) {
    q.enabled && q.start != q.end
    && if q.start < q.end then q.start <= minute < q.end else minute >= q.start || minute < q.end
  }

  predicate Suppressed(cfg: Config, kind: AlertKind, minute: Option<int>) {
    minute.Some? && !IsCritical(kind) && InQuietWindow(cfg.quiet, minute.value)
  }

  // ---------------------------------------------------------------- delivery

  datatype Outcome = Outcome(
    id: nat, recipient: Option<string>, attempted: bool, ok: bool, failure: Option<string>, critical: Option<nat>, suppressed: bool)

  function Fresh(kind: AlertKind, severity: Severity, title: string, recipient: Option<string>, role: Option<string>,
                 mark: Option<Mark>, now: int)
    : Notification
  {
    Notification(kind, severity, title, recipient, role, Unread, mark, if mark.Some? then Some(now) else None, None, None, now)
  }

  /** A new notification and the event that records it, under the next two ids. */
  function Record(s: State, row: Notification, kind: EventKind, entry: Entry, now: int): State {
    s.(last := s.last + 2, rows := s.rows[s.last + 1 := row], events := s.events + [Event(s.last + 2, kind, entry, now)])
  }

  function RaisedRow(cfg: Config, alert: Alert, now: int): Notification {
    Fresh(alert.kind, alert.severity, alert.title, ResolveRecipient(cfg, alert),
          if alert.kind in cfg.routing then Some(cfg.routing[alert.kind].role) else None, None, now)
  }

  function MisconfiguredRow(now: int): Notification {
    Fresh(DeliveryMisconfigured, Critical, "Alert delivery misconfigured", None, Some("super_admin"), None, now)
  }

  function SetDelivery(s: State, id: nat, d: Delivery): State {
    if id in s.rows then s.(rows := s.rows[id := s.rows[id].(delivery := Some(d))]) else s
  }

  /** The fan-out: what it does to the row and the channel. `fault` is the channel's failure, if it fails. */
  function FanOut(cfg: Config, s: State, id: nat, alert: Alert, fault: Option<string>): (State, Option<Delivery>) {
    if alert.kind !in cfg.routing || !cfg.routing[alert.kind].slack then (s, None)
    else if !cfg.webhook then
      var d := Delivery(true, false, Some("SLACK_WEBHOOK_URL missing"));
      (SetDelivery(s, id, d), Some(d))
    else if fault.Some? then
      var d := Delivery(true, false, fault);
      (SetDelivery(s, id, d), Some(d))
    else
      var d := Delivery(true, true, None);
      (SetDelivery(s.(sent := s.sent + [alert.title]), id, d), Some(d))
  }

  /** Dashboard row and event first; then the loud failure when nobody can be reached, the quiet hours, the fan-out. */
  function Deliver(cfg: Config, s: State, alert: Alert, minute: Option<int>, fault: Option<string>, now: int): (State, Outcome) {
    var recipient := ResolveRecipient(cfg, alert);
    var id := s.last + 1;
    var raised := Record(s, RaisedRow(cfg, alert, now), EventFor(alert.kind), RaisedEntry(id, alert.severity, Truthy(alert.entity)), now);
    if recipient.None? && !HasDestination(cfg, alert.kind) then
      (Record(raised, MisconfiguredRow(now), GuardrailEvent, MisconfiguredEntry(raised.last + 1, alert.kind), now).(misconfigured := true),
       Outcome(id, recipient, false, false, None, Some(raised.last + 1), false))
    else if Suppressed(cfg, alert.kind, minute) then (raised, Outcome(id, recipient, false, false, None, None, true))
    else
      var (t, d) := FanOut(cfg, raised, id, alert, fault);
      (t, Outcome(id, recipient, d.Some?, d.Some? && d.value.ok, if d.Some? then d.value.failure else None, None, false))
  }

  // ---------------------------------------------------------------- escalation

  function Anchor(row: Notification): int { if row.escalatedAt.Some? then row.escalatedAt.value else row.createdAt }

  /** The chain index to look from: after the primary on the first escalation, after the last step on a later one. An
      exhausted mark counts as step 0. */
  function NextStep(cfg: Config, row: Notification): nat {
    match row.escalation
    case None => FirstAfterPrimary(cfg, ChainFor(cfg, row.role), row.recipient, 0)
    case Some(AtStep(n)) => n + 1
    case Some(Exhausted) => 1
  }

  datatype Decision = NotDue | Exhaust | Fire(step: nat, to: string)

  function Decide(cfg: Config, row: Notification, window: int, now: int): Decision {
    if row.readState == Actioned || now - Anchor(row) < window then NotDue
    else
      var chain := ChainFor(cfg, row.role);
      var f := FirstResolvable(cfg, chain, NextStep(cfg, row));
      if f < |chain| then Fire(f, ResolveContact(cfg, chain[f]).value) else Exhaust
  }

  function Escalate(row: Notification, mark: Mark, now: int): Notification { row.(escalation := Some(mark), escalatedAt := Some(now)) }

  function Secondary(row: Notification, step: nat, to: string, now: int): Notification {
    Fresh(row.kind, row.severity, "Escalated: " + row.title, Some(to), row.role, Some(AtStep(step)), now)
  }

  /** The secondary's id when one fired. */
  function RunEscalation(cfg: Config, s: State, id: nat, window: int, now: int): (State, Result<Option<nat>, Error>) {
    if id !in s.rows then (s, Err(NotFound(id)))
    else
      var row := s.rows[id];
      match Decide(cfg, row, window, now)
      case NotDue => (s, Ok(None))
      case Exhaust => (s.(rows := s.rows[id := Escalate(row, Exhausted, now)]), Ok(None))
      case Fire(step, to) =>
        var t := Record(s, Secondary(row, step, to, now), EventFor(row.kind), EscalatedEntry(s.last + 1, id, step), now);
        (t.(rows := t.rows[id := Escalate(row, AtStep(step), now)]), Ok(Some(s.last + 1)))
  }

  /** A human closes the notification. */
  function Action(s: State, id: nat, now: int): (State, Option<Error>) {
    if id !in s.rows then (s, Some(NotFound(id)))
    else (s.(rows := s.rows[id := s.rows[id].(readState := Actioned, actionedAt := Some(now))]), None)
  }

  // ---------------------------------------------------------------- runs

  datatype Op =
    | OpDeliver(alert: Alert, minute: Option<int>, fault: Option<string>, now: int)
    | OpEscalate(id: nat, window: int, now: int)
    | OpAction(id: nat, now: int)

  const Empty: State := State(0, map[], [], false, [])

  function Step(cfg: Config, s: State, op: Op): State {
    match op
    case OpDeliver(alert, minute, fault, now) => Deliver(cfg, s, alert, minute, fault, now).0
    case OpEscalate(id, window, now) => RunEscalation(cfg, s, id, window, now).0
    case OpAction(id, now) => Action(s, id, now).0
  }

  function Run(cfg: Config, s: State, ops: seq<Op>): State
    decreases |ops|
  {
    if |ops| == 0 then s else Step(cfg, Run(cfg, s, ops[..|ops| - 1]), ops[|ops| - 1])
  }

  /** No id beyond the generator's last. */
  ghost predicate Bounded(s: State) { forall id :: id in s.rows ==> id <= s.last }
}
