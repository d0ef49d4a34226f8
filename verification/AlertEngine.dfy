/** The alert engine over its two in-memory stores (app/alerting/src/engine.ts, store.ts). */
module AlertEngineModel {
  import opened Wrappers
  import opened AlertSpec

  class NotificationStore {
    var rows: map<nat, Notification>

    constructor ()
      ensures rows == map[]
    {
      rows := map[];
    }

    method Create(id: nat, row: Notification) returns (ok: bool)
      modifies this
      ensures ok == (id !in old(rows))
      ensures rows == if ok then old(rows)[id := row] else old(rows)
    {
      ok := id !in rows;
      if ok { rows := rows[id := row]; }
    }

    method SetDeliveryState(id: nat, d: Delivery) returns (ok: bool)
      modifies this
      ensures ok == (id in old(rows))
      ensures rows == if ok then old(rows)[id := old(rows)[id].(delivery := Some(d))] else old(rows)
    {
      ok := id in rows;
      if ok { rows := rows[id := rows[id].(delivery := Some(d))]; }
    }

    method MarkEscalated(id: nat, mark: Mark, now: int) returns (ok: bool)
      modifies this
      ensures ok == (id in old(rows))
      ensures rows == if ok then old(rows)[id := Escalate(old(rows)[id], mark, now)] else old(rows)
    {
      ok := id in rows;
      if ok { rows := rows[id := rows[id].(escalation := Some(mark), escalatedAt := Some(now))]; }
    }

    method MarkActioned(id: nat, now: int) returns (ok: bool)
      modifies this
      ensures ok == (id in old(rows))
      ensures rows == if ok then old(rows)[id := old(rows)[id].(readState := Actioned, actionedAt := Some(now))] else old(rows)
    {
      ok := id in rows;
      if ok { rows := rows[id := rows[id].(readState := Actioned, actionedAt := Some(now))]; }
    }
  }

  class EventLog {
    var rows: seq<Event>

    constructor ()
      ensures rows == []
    {
      rows := [];
    }

    method Append(e: Event) returns (ok: bool)
      modifies this
      ensures ok <==> forall r :: r in old(rows) ==> r.id != e.id
      ensures rows == if ok then old(rows) + [e] else old(rows)
    {
      for i := 0 to |rows|
        invariant forall k :: 0 <= k < i ==> rows[k].id != e.id
      {
        if rows[i].id == e.id { return false; }
      }
      rows := rows + [e];
      ok := true;
    }
  }

  class Engine {
    const cfg: Config
    const notifications: NotificationStore
    const events: EventLog
    var last: nat
    var misconfigured: bool
    var sent: seq<string>

    ghost function View(): State
      reads this, notifications, events
    {
      State(last, notifications.rows, events.rows, misconfigured, sent)
    }

    /** The generator is ahead of every stored id. */
    ghost predicate Valid()
      reads this, notifications, events
    {
      Bounded(View()) && forall e :: e in events.rows ==> e.id <= last
    }

    constructor (cfg: Config)
      ensures this.cfg == cfg && Valid() && View() == Empty && fresh(notifications) && fresh(events)
    {
      this.cfg := cfg;
      notifications := new NotificationStore();
      events := new EventLog();
      last, misconfigured, sent := 0, false, [];
    }

    /** The first index past the leading contacts that only reach the primary again. */
    method FirstChainStepAfterPrimary(chain: seq<string>, primary: Option<string>) returns (i: nat)
      ensures i == FirstAfterPrimary(cfg, chain, primary, 0)
    {
      i := 0;
      while i < |chain| && ResolveContact(cfg, chain[i]) == primary
        invariant FirstAfterPrimary(cfg, chain, primary, i) == FirstAfterPrimary(cfg, chain, primary, 0)
      {
        i := i + 1;
      }
    }

    method Recipient(alert: Alert) returns (who: Option<string>)
      ensures who == ResolveRecipient(cfg, alert)
    {
      if alert.kind == ApprovalQueueStale && Truthy(alert.reviewer).Some? { return alert.reviewer; }
      if alert.kind !in cfg.routing { return None; }
      var role := cfg.routing[alert.kind].role;
      if |cfg.holders(role)| > 0 { return Some(cfg.holders(role)[0]); }
      var chain := ChainOf(cfg, role);
      for i := 0 to |chain|
        invariant FirstResolvable(cfg, chain, i) == FirstResolvable(cfg, chain, 0)
      {
        var resolved := ResolveContact(cfg, chain[i]);
        if resolved.Some? { return resolved; }
      }
      who := None;
    }

    /** A row, then the event that records it. */
    method RecordRow(row: Notification, kind: EventKind, entry: Entry, now: int)
      requires Valid()
      modifies this`last, notifications, events
      ensures Valid() && View() == Record(old(View()), row, kind, entry, now)
    {
      var _ := notifications.Create(last + 1, row);
      var _ := events.Append(Event(last + 2, kind, entry, now));
      last := last + 2;
    }

    method SurfaceSlackFailure(id: nat, cause: string) returns (d: Delivery)
      requires id in notifications.rows
      modifies notifications
      ensures d == Delivery(true, false, Some(cause)) && View() == SetDelivery(old(View()), id, d)
    {
      d := Delivery(true, false, Some(cause));
      var _ := notifications.SetDeliveryState(id, d);
    }

    /** The best-effort fan-out; `fault` is what the channel throws, if it throws. */
    method FanOutSlack(id: nat, alert: Alert, fault: Option<string>) returns (d: Option<Delivery>)
      requires id in notifications.rows
      modifies this`sent, notifications
      ensures (View(), d) == FanOut(cfg, old(View()), id, alert, fault)
      ensures notifications.rows.Keys == old(notifications.rows.Keys)
    {
      if alert.kind !in cfg.routing || !cfg.routing[alert.kind].slack { return None; }
      if !cfg.webhook {
        var missing := SurfaceSlackFailure(id, "SLACK_WEBHOOK_URL missing");
        return Some(missing);
      }
      if fault.Some? {
        var failed := SurfaceSlackFailure(id, fault.value);
        return Some(failed);
      }
      sent := sent + [alert.title];
      d := Some(Delivery(true, true, None));
      var _ := notifications.SetDeliveryState(id, d.value);
    }

    method Deliver(alert: Alert, minute: Option<int>, fault: Option<string>, now: int) returns (out: Outcome)
      requires Valid()
      modifies this, notifications, events
      ensures Valid() && (View(), out) == AlertSpec.Deliver(cfg, old(View()), alert, minute, fault, now)
    {
      hide HasDestination, InQuietWindow, ResolveRecipient;
      var who := Recipient(alert);
      var id := last + 1;
      var role := if alert.kind in cfg.routing then Some(cfg.routing[alert.kind].role) else None;
      RecordRow(Fresh(alert.kind, alert.severity, alert.title, who, role, None, now), EventFor(alert.kind),
                RaisedEntry(id, alert.severity, Truthy(alert.entity)), now);
      if who.None? && !HasDestination(cfg, alert.kind) {
        var critical := last + 1;
        RecordRow(MisconfiguredRow(now), GuardrailEvent, MisconfiguredEntry(critical, alert.kind), now);
        misconfigured := true;
        return Outcome(id, who, false, false, None, Some(critical), false);
      }
      if minute.Some? && !IsCritical(alert.kind) && InQuietWindow(cfg.quiet, minute.value) {
        return Outcome(id, who, false, false, None, None, true);
      }
      var d := FanOutSlack(id, alert, fault);
      out := Outcome(id, who, d.Some?, d.Some? && d.value.ok, if d.Some? then d.value.failure else None, None, false);
    }

    /** The contact an unactioned, overdue row escalates to, if any is left. */
    method NextContact(row: Notification) returns (step: nat, to: Option<string>)
      ensures var chain, f := ChainFor(cfg, row.role), FirstResolvable(cfg, ChainFor(cfg, row.role), NextStep(cfg, row));
        && (to.Some? <==> f < |chain|)
        && (to.Some? ==> step == f && to == ResolveContact(cfg, chain[f]))
    {
      var chain := ChainFor(cfg, row.role);
      var next: nat;
      match row.escalation {
        case None => next := FirstChainStepAfterPrimary(chain, row.recipient);
        case Some(AtStep(n)) => next := n + 1;
        case Some(Exhausted) => next := 1;
      }
      if next >= |chain| { return next, None; }
      step, to := next, None;
      while step < |chain|
        invariant FirstResolvable(cfg, chain, step) == FirstResolvable(cfg, chain, next)
        invariant to.None?
      {
        var resolved := ResolveContact(cfg, chain[step]);
        if resolved.Some? {
          to := resolved;
          break;
        }
        step := step + 1;
      }
    }

    method RunEscalation(id: nat, window: int, now: int) returns (r: Result<Option<nat>, Error>)
      requires Valid()
      modifies this`last, notifications, events
      ensures Valid() && (View(), r) == AlertSpec.RunEscalation(cfg, old(View()), id, window, now)
    {
      hide ChainFor, NextStep, ResolveContact, FirstResolvable;
      if id !in notifications.rows { return Err(NotFound(id)); }
      var row := notifications.rows[id];
      if row.readState == Actioned { return Ok(None); }
      if now - Anchor(row) < window { return Ok(None); }
      var step, to := NextContact(row);
      if to.None? {
        var _ := notifications.MarkEscalated(id, Exhausted, now);
        return Ok(None);
      }
      var secondary := last + 1;
      RecordRow(Secondary(row, step, to.value, now), EventFor(row.kind), EscalatedEntry(secondary, id, step), now);
      var _ := notifications.MarkEscalated(id, AtStep(step), now);
      r := Ok(Some(secondary));
    }

    method ActionNotification(id: nat, now: int) returns (e: Option<Error>)
      requires Valid()
      modifies notifications
      ensures Valid() && (View(), e) == AlertSpec.Action(old(View()), id, now)
    {
      var found := notifications.MarkActioned(id, now);
      e := if found then None else Some(NotFound(id));
    }
  }
}
