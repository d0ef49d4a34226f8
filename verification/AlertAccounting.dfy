/** What every run of the alert engine keeps: one event per notification, loud misconfiguration, human closure. */
module AlertAccounting {
  import opened Wrappers
  import opened AlertSpec
  import opened AlertTheorems

  // ---------------------------------------------------------------- routing

  /** Routing and the destination check agree: without a direct reviewer, an alert has a recipient exactly when its kind
      has a destination. */
  lemma RoutabilityAgrees(cfg: Config, alert: Alert)
    requires alert.kind != ApprovalQueueStale || Truthy(alert.reviewer).None?
    ensures ResolveRecipient(cfg, alert).Some? <==> HasDestination(cfg, alert.kind)
  {
    if alert.kind in cfg.routing {
      var chain := ChainOf(cfg, cfg.routing[alert.kind].role);
      hide ResolveContact, ChainOf;
      var f := FirstResolvable(cfg, chain, 0);
      if f < |chain| {
        assert chain[f] in chain && ResolveContact(cfg, chain[f]).Some?;
      }
    }
  }

  /** What a delivery leaves, whatever is configured: its own row and event always; the loud critical exactly when nobody
      can be reached; no fan-out when suppressed, and a critical kind is never suppressed. */
  lemma DeliverExact(cfg: Config, s: State, alert: Alert, minute: Option<int>, fault: Option<string>, now: int)
    requires Bounded(s)
    ensures var (t, out) := Deliver(cfg, s, alert, minute, fault, now);
      && out.id !in s.rows && out.id in t.rows && out.recipient == ResolveRecipient(cfg, alert)
      && (var row := t.rows[out.id];
          && row.kind == alert.kind && row.severity == alert.severity && row.title == alert.title && row.recipient == out.recipient
          && row.role == (if alert.kind in cfg.routing then Some(cfg.routing[alert.kind].role) else None)
          && row.readState == Unread && row.escalation == None && row.createdAt == now)
      && (out.critical.Some? <==> ResolveRecipient(cfg, alert).None?)
      && (out.critical.Some? ==>
            && t.misconfigured && out.critical.value in t.rows && t.rows[out.critical.value].severity == Critical
            && t.rows[out.critical.value].role == Some("super_admin") && t.rows[out.critical.value].createdAt == now)
      && t.last == s.last + (if out.critical.Some? then 4 else 2) && |t.events| == |s.events| + (if out.critical.Some? then 2 else 1)
      && (out.suppressed ==> !IsCritical(alert.kind) && !out.attempted)
      && (t.rows[out.id].delivery == if out.attempted then Some(Delivery(true, out.ok, out.failure)) else None)
      && (t.sent == if out.ok then s.sent + [alert.title] else s.sent)
  {
    if alert.kind != ApprovalQueueStale || Truthy(alert.reviewer).None? { RoutabilityAgrees(cfg, alert); }
    var id := s.last + 1;
    var raised := Record(s, RaisedRow(cfg, alert, now), EventFor(alert.kind), RaisedEntry(id, alert.severity, Truthy(alert.entity)), now);
    FanOutExact(cfg, raised, id, alert, fault);
    hide ResolveRecipient, HasDestination, Suppressed, FanOut, EventFor;
    assert Suppressed(cfg, alert.kind, minute) ==> !IsCritical(alert.kind) by { SuppressedNotCritical(cfg, alert.kind, minute); }
  }

  lemma SuppressedNotCritical(cfg: Config, kind: AlertKind, minute: Option<int>)
    ensures Suppressed(cfg, kind, minute) ==> !IsCritical(kind)
  {
    hide InQuietWindow;
  }

  lemma FanOutExact(cfg: Config, s: State, id: nat, alert: Alert, fault: Option<string>)
    requires id in s.rows
    ensures var (t, d) := FanOut(cfg, s, id, alert, fault);
      && t.rows == (if d.Some? then s.rows[id := s.rows[id].(delivery := d)] else s.rows)
      && (d.Some? ==> d.value.attempted)
      && t.sent == (if d.Some? && d.value.ok then s.sent + [alert.title] else s.sent)
      && t.last == s.last && t.events == s.events && t.misconfigured == s.misconfigured
  {
  }

  /** An accepted configuration strands no critical alert: each is routed to a holder of its role or to a recipient a
      contact of its chain resolves to, and never raises the misconfiguration. */
  lemma AcceptedRoutesCriticals(cfg: Config, alert: Alert)
    requires Accepted(cfg) && IsCritical(alert.kind)
    ensures var who := ResolveRecipient(cfg, alert);
      && who.Some? && alert.kind in cfg.routing
      && var role := cfg.routing[alert.kind].role;
         (who.value in cfg.holders(role) || exists c :: c in ChainOf(cfg, role) && ResolveContact(cfg, c) == who)
  {
    RoutabilityAgrees(cfg, alert);
    var role := cfg.routing[alert.kind].role;
    var chain := ChainOf(cfg, role);
    if |cfg.holders(role)| == 0 {
      var f := FirstResolvable(cfg, chain, 0);
      hide ResolveContact, ChainOf, HasDestination;
      assert chain[f] in chain;
    }
  }

  // ---------------------------------------------------------------- one event per notification

  predicate IsSecondary(cfg: Config, a: Notification, primary: Notification, step: nat) {
    && a.kind == primary.kind && a.severity == primary.severity && a.role == primary.role && a.title == "Escalated: " + primary.title
    && step < |ChainFor(cfg, a.role)| && a.recipient.Some? && ResolveContact(cfg, ChainFor(cfg, a.role)[step]) == a.recipient
  }

  /** The event tells the truth about its notification. */
  predicate Truthful(cfg: Config, rows: map<nat, Notification>, e: Event) {
    && e.entry.subject in rows
    && var row := rows[e.entry.subject];
       e.kind == EventFor(row.kind) && e.createdAt == row.createdAt
       && match e.entry
          case RaisedEntry(_, severity, _) => row.severity == severity
          case EscalatedEntry(_, primary, step) => primary in rows && IsSecondary(cfg, row, rows[primary], step)
          case MisconfiguredEntry(_, _) => row.kind == DeliveryMisconfigured && row.severity == Critical && row.role == Some("super_admin")
  }

  function Subjects(events: seq<Event>): seq<nat> { seq(|events|, i requires 0 <= i < |events| => events[i].entry.subject) }

  ghost predicate Inv(cfg: Config, s: State) {
    && Bounded(s)
    && NoDup(Subjects(s.events)) && (forall id :: id in s.rows <==> id in Subjects(s.events))
    && (forall e :: e in s.events ==> Truthful(cfg, s.rows, e))
  }

  /** Rows are only added, and no row's alert, recipient or time changes. */
  ghost predicate Grows(a: map<nat, Notification>, b: map<nat, Notification>) {
    forall id :: id in a ==> id in b && SameAlert(a[id], b[id])
  }

  lemma RecordKeeps(cfg: Config, s: State, row: Notification, kind: EventKind, entry: Entry, now: int)
    requires Inv(cfg, s) && entry.subject == s.last + 1
    requires Truthful(cfg, s.rows[s.last + 1 := row], Event(s.last + 2, kind, entry, now))
    ensures Inv(cfg, Record(s, row, kind, entry, now)) && Grows(s.rows, Record(s, row, kind, entry, now).rows)
  {
    var t := Record(s, row, kind, entry, now);
    var e := t.events[|s.events|];
    assert Subjects(t.events) == Subjects(s.events) + [s.last + 1];
    assert s.last + 1 !in s.rows;
    TruthGrows(cfg, s.rows, t.rows, s.events);
    hide Truthful, Subjects;
    assert forall x :: x in t.events ==> x in s.events || x == e;
  }

  lemma TruthGrows(cfg: Config, a: map<nat, Notification>, b: map<nat, Notification>, events: seq<Event>)
    requires Grows(a, b) && forall e :: e in events ==> Truthful(cfg, a, e)
    ensures forall e :: e in events ==> Truthful(cfg, b, e)
  {
    hide ResolveContact, ChainFor, EventFor;
  }

  /** Rewriting a row without touching its alert. */
  lemma RewriteKeeps(cfg: Config, s: State, t: State, id: nat, row: Notification)
    requires Inv(cfg, s) && id in s.rows && SameAlert(s.rows[id], row)
    requires t.rows == s.rows[id := row] && t.last == s.last && t.events == s.events
    ensures Inv(cfg, t) && Grows(s.rows, t.rows)
  {
    hide Truthful, SameAlert, Subjects;
    assert forall r: Notification :: SameAlert(r, r) by { SameRefl(); }
    TruthGrows(cfg, s.rows, t.rows, s.events);
  }

  lemma SameRefl()
    ensures forall r: Notification :: SameAlert(r, r)
  {
  }

  lemma DeliverKeeps(cfg: Config, s: State, alert: Alert, minute: Option<int>, fault: Option<string>, now: int)
    requires Inv(cfg, s)
    ensures Inv(cfg, Deliver(cfg, s, alert, minute, fault, now).0)
  {
    var id := s.last + 1;
    var raised := Record(s, RaisedRow(cfg, alert, now), EventFor(alert.kind), RaisedEntry(id, alert.severity, Truthy(alert.entity)), now);
    hide ResolveRecipient, HasDestination, Suppressed;
    RecordKeeps(cfg, s, RaisedRow(cfg, alert, now), EventFor(alert.kind), RaisedEntry(id, alert.severity, Truthy(alert.entity)), now);
    var entry := MisconfiguredEntry(raised.last + 1, alert.kind);
    RecordKeeps(cfg, raised, MisconfiguredRow(now), GuardrailEvent, entry, now);
    var loud := Record(raised, MisconfiguredRow(now), GuardrailEvent, entry, now);
    FanOutKeeps(cfg, raised, id, alert, fault);
    hide Record, RaisedRow, MisconfiguredRow, FanOut;
    assert Inv(cfg, loud.(misconfigured := true));
  }

  lemma FanOutKeeps(cfg: Config, s: State, id: nat, alert: Alert, fault: Option<string>)
    requires Inv(cfg, s) && id in s.rows
    ensures Inv(cfg, FanOut(cfg, s, id, alert, fault).0)
  {
    var (t, d) := FanOut(cfg, s, id, alert, fault);
    if d.Some? {
      RewriteKeeps(cfg, s, t, id, s.rows[id].(delivery := d));
    }
  }

  lemma EscalateKeeps(cfg: Config, s: State, id: nat, window: int, now: int)
    requires Inv(cfg, s) && id in s.rows
    ensures Inv(cfg, RunEscalation(cfg, s, id, window, now).0)
  {
    var row := s.rows[id];
    var d := Decide(cfg, row, window, now);
    FiresAtContact(cfg, row, window, now);
    hide Decide, ResolveContact, Inv;
    match d
    case NotDue =>
    case Exhaust => RewriteKeeps(cfg, s, RunEscalation(cfg, s, id, window, now).0, id, Escalate(row, Exhausted, now));
    case Fire(step, to) =>
      var entry := EscalatedEntry(s.last + 1, id, step);
      var t := Record(s, Secondary(row, step, to, now), EventFor(row.kind), entry, now);
      assert s.last + 1 !in s.rows by { InvBounded(cfg, s); }
      RecordKeeps(cfg, s, Secondary(row, step, to, now), EventFor(row.kind), entry, now);
      RewriteKeeps(cfg, t, RunEscalation(cfg, s, id, window, now).0, id, Escalate(row, AtStep(step), now));
  }

  lemma InvBounded(cfg: Config, s: State)
    requires Inv(cfg, s)
    ensures Bounded(s)
  {
  }

  lemma FiresAtContact(cfg: Config, row: Notification, window: int, now: int)
    ensures var d := Decide(cfg, row, window, now);
      d.Fire? ==> d.step < |ChainFor(cfg, row.role)| && ResolveContact(cfg, ChainFor(cfg, row.role)[d.step]) == Some(d.to)
  {
    hide ChainFor, NextStep;
  }

  lemma StepKeeps(cfg: Config, s: State, op: Op)
    requires Inv(cfg, s)
    ensures Inv(cfg, Step(cfg, s, op))
  {
    hide Inv;
    match op
    case OpDeliver(alert, minute, fault, now) => DeliverKeeps(cfg, s, alert, minute, fault, now);
    case OpEscalate(id, window, now) => if id in s.rows { EscalateKeeps(cfg, s, id, window, now); }
    case OpAction(id, now) =>
      if id in s.rows { RewriteKeeps(cfg, s, Step(cfg, s, op), id, s.rows[id].(readState := Actioned, actionedAt := Some(now))); }
  }

  /** EVERY ALERT IS LOGGED. Over every run each notification has exactly one event, written about it and true of it:
      its kind and time, and for a secondary the primary and the chain step its recipient came from. */
  lemma {:induction false} EveryAlertIsLogged(cfg: Config, ops: seq<Op>)
    ensures Inv(cfg, Run(cfg, Empty, ops))
    decreases |ops|
  {
    hide Step;
    if |ops| > 0 {
      EveryAlertIsLogged(cfg, ops[..|ops| - 1]);
      StepKeeps(cfg, Run(cfg, Empty, ops[..|ops| - 1]), ops[|ops| - 1]);
      hide Inv;
    }
  }

  // ---------------------------------------------------------------- human closure

  /** ONLY A HUMAN CLOSES. Over every run from every state a notification is actioned exactly when it was, or when a human
      actioned it in the run; no escalation ever does. */
  lemma {:induction false} ActionedIffHuman(cfg: Config, s: State, ops: seq<Op>, id: nat)
    requires Bounded(s) && id in s.rows
    ensures Bounded(Run(cfg, s, ops)) && id in Run(cfg, s, ops).rows
    ensures Run(cfg, s, ops).rows[id].readState == Actioned <==>
              s.rows[id].readState == Actioned || exists op :: op in ops && op.OpAction? && op.id == id
    decreases |ops|
  {
    if |ops| > 0 {
      var init, op := ops[..|ops| - 1], ops[|ops| - 1];
      ActionedIffHuman(cfg, s, init, id);
      StepOtherRow(cfg, Run(cfg, s, init), op, id);
      hide Step, Decide;
      assert ops == init + [op];
    }
  }

  /** CLOSED IS CLOSED. Once actioned, a notification is never escalated again and its row never changes but for a
      further human action. */
  lemma {:induction false} ActionedIsFinal(cfg: Config, s: State, ops: seq<Op>, id: nat)
    requires Bounded(s) && id in s.rows && s.rows[id].readState == Actioned
    ensures Beats(cfg, s, ops, id) == [] && Bounded(Run(cfg, s, ops)) && id in Run(cfg, s, ops).rows
    ensures Run(cfg, s, ops).rows[id] == s.rows[id].(actionedAt := Run(cfg, s, ops).rows[id].actionedAt)
    decreases |ops|
  {
    if |ops| > 0 {
      var init, op := ops[..|ops| - 1], ops[|ops| - 1];
      ActionedIsFinal(cfg, s, init, id);
      StepOtherRow(cfg, Run(cfg, s, init), op, id);
      hide Step;
    }
  }

  // ---------------------------------------------------------------- loud misconfiguration

  /** THE BIT IS EXACT. Over every run the misconfiguration bit is latched exactly when some delivered alert could reach
      nobody. */
  lemma {:induction false} MisconfiguredIff(cfg: Config, ops: seq<Op>)
    ensures Run(cfg, Empty, ops).misconfigured <==> exists op :: op in ops && op.OpDeliver? && ResolveRecipient(cfg, op.alert).None?
    decreases |ops|
  {
    if |ops| > 0 {
      var init, op := ops[..|ops| - 1], ops[|ops| - 1];
      MisconfiguredIff(cfg, init);
      MisconfiguredStep(cfg, Run(cfg, Empty, init), op);
      hide Step, ResolveRecipient;
      assert ops == init + [op];
    }
  }

  lemma MisconfiguredStep(cfg: Config, s: State, op: Op)
    ensures Step(cfg, s, op).misconfigured <==> s.misconfigured || (op.OpDeliver? && ResolveRecipient(cfg, op.alert).None?)
  {
    if op.OpDeliver? {
      if op.alert.kind != ApprovalQueueStale || Truthy(op.alert.reviewer).None? { RoutabilityAgrees(cfg, op.alert); }
    }
    hide Decide, ResolveContact, HasDestination, Suppressed;
  }

  /** Under an accepted configuration a run that delivers only critical alerts never latches it. */
  lemma AcceptedStaysQuiet(cfg: Config, ops: seq<Op>)
    requires Accepted(cfg) && forall op :: op in ops && op.OpDeliver? ==> IsCritical(op.alert.kind)
    ensures !Run(cfg, Empty, ops).misconfigured
  {
    MisconfiguredIff(cfg, ops);
    forall op | op in ops && op.OpDeliver? ensures ResolveRecipient(cfg, op.alert).Some? {
      AcceptedRoutesCriticals(cfg, op.alert);
    }
    hide Run, ResolveRecipient, Accepted;
  }
}
