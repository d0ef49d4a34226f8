/** Saving a section of the configuration surface (app/config-surfaces/src/store.ts, save.ts): the value table, its
    audit log, the atomic batch write and the gates in front of it. Key tables and cross-key rules are parameters. */
module SurfaceSpec {
  import opened Wrappers
  import opened CredentialRedaction
  import opened AuditSpec

  datatype ValueRow = ValueRow(value: Json, updatedAt: int, updatedBy: Option<string>)

  datatype Table = Table(values: map<string, ValueRow>, last: nat, log: seq<Row>, integrity: map<nat, nat>)

  /** `audit` supplies hash and payload classifier; the other two classify configuration keys. */
  datatype Rules = Rules(audit: Config, secretKey: string -> bool, hardLimitKey: string -> bool)

  datatype BatchRow = BatchRow(key: string, value: Json, oldValue: Json, newValue: Json)

  datatype WriteError = SecretRejected(key: string) | HardLimitRejected(key: string)

  function KeyError(rules: Rules, key: string): Option<WriteError> {
    if rules.secretKey(key) then Some(SecretRejected(key))
    else if rules.hardLimitKey(key) then Some(HardLimitRejected(key))
    else None
  }

  function AuditRow(rules: Rules, t: Table, r: BatchRow, actor: Option<string>, now: int): Row {
    Row(t.last + 1, r.key, if r.oldValue == JNull then JNull else Redact(rules.audit.classifier, r.oldValue),
        Redact(rules.audit.classifier, r.newValue), actor, None, now)
  }

  /** One value with its paired audit row. */
  function WriteOne(rules: Rules, t: Table, r: BatchRow, actor: Option<string>, now: int): Table {
    var row := AuditRow(rules, t, r, actor, now);
    Table(t.values[r.key := ValueRow(r.value, now, actor)], row.id, t.log + [row], t.integrity[row.id := HashOf(rules.audit, row)])
  }

  function WriteAll(rules: Rules, t: Table, rows: seq<BatchRow>, actor: Option<string>, now: int): Table {
    if |rows| == 0 then t else WriteOne(rules, WriteAll(rules, t, rows[..|rows| - 1], actor, now), rows[|rows| - 1], actor, now)
  }

  function FirstError(rules: Rules, rows: seq<BatchRow>): Option<WriteError> {
    if |rows| == 0 then None
    else if KeyError(rules, rows[0].key).Some? then KeyError(rules, rows[0].key)
    else FirstError(rules, rows[1..])
  }

  datatype Written = Written(keys: seq<string>, auditIds: seq<nat>)

  function KeysOf(rows: seq<BatchRow>): seq<string> { seq(|rows|, i requires 0 <= i < |rows| => rows[i].key) }

  /** All rows or none. */
  function WriteBatch(rules: Rules, t: Table, rows: seq<BatchRow>, actor: Option<string>, now: int): (Table, Result<Written, WriteError>) {
    var e := FirstError(rules, rows);
    if e.Some? then (t, Err(e.value))
    else (WriteAll(rules, t, rows, actor, now), Ok(Written(KeysOf(rows), seq(|rows|, i => t.last + 1 + i))))
  }

  // ---------------------------------------------------------------- saving a section

  datatype Confirm = Redeploy | Rebuild | Irreversible

  datatype EditClass = Boot | Live

  datatype KeySpec = KeySpec(editClass: EditClass, confirm: Option<Confirm>)

  datatype Dirtied = Dirtied(key: string, oldValue: Json, newValue: Json)

  /** The key table, the read-only keys, and the cross-key violations of a merged section. */
  datatype Surface = Surface(spec: string -> Option<KeySpec>, readOnlyKey: string -> bool, violations: map<string, Json> -> nat)

  datatype SaveInput = SaveInput(
    readOnly: bool, mayEdit: bool, dirtied: seq<Dirtied>, current: map<string, Json>, confirmations: set<Confirm>,
    actor: string, now: int)

  function ConfirmsOf(surface: Surface, d: Dirtied): set<Confirm> {
    var spec := surface.spec(d.key);
    if spec.None? then {}
    else
      (if spec.value.editClass == Boot then {Redeploy} else {})
      + (if spec.value.confirm == Some(Rebuild) then {Rebuild} else {})
      + (if spec.value.confirm == Some(Irreversible) && d.newValue == JBool(true) && d.oldValue != JBool(true) then {Irreversible} else {})
  }

  function RequiredConfirms(surface: Surface, dirtied: seq<Dirtied>): set<Confirm> {
    if |dirtied| == 0 then {} else RequiredConfirms(surface, dirtied[..|dirtied| - 1]) + ConfirmsOf(surface, dirtied[|dirtied| - 1])
  }

  function Merged(current: map<string, Json>, dirtied: seq<Dirtied>): map<string, Json> {
    if |dirtied| == 0 then current
    else Merged(current, dirtied[..|dirtied| - 1])[dirtied[|dirtied| - 1].key := dirtied[|dirtied| - 1].newValue]
  }

  predicate Locked(rules: Rules, surface: Surface, key: string) { rules.secretKey(key) || surface.readOnlyKey(key) }

  function LockedCount(rules: Rules, surface: Surface, dirtied: seq<Dirtied>): nat {
    if |dirtied| == 0 then 0
    else LockedCount(rules, surface, dirtied[..|dirtied| - 1]) + if Locked(rules, surface, dirtied[|dirtied| - 1].key) then 1 else 0
  }

  function BatchOf(dirtied: seq<Dirtied>): seq<BatchRow> {
    seq(|dirtied|, i requires 0 <= i < |dirtied| =>
      BatchRow(dirtied[i].key, dirtied[i].newValue, dirtied[i].oldValue, dirtied[i].newValue))
  }

  datatype SaveResult =
    | Saved(written: Written)
    | Forbidden
    | AwaitingConfirmation(missing: set<Confirm>)
    | Violations(count: nat)
    | WriteFailed(error: WriteError)

  /** Permission gate, confirmation gate, validation of everything, then one atomic write. */
  function SaveSection(rules: Rules, surface: Surface, t: Table, input: SaveInput): (Table, SaveResult) {
    if input.readOnly || !input.mayEdit then (t, Forbidden)
    else
      var missing := RequiredConfirms(surface, input.dirtied) - input.confirmations;
      if missing != {} then (t, AwaitingConfirmation(missing))
      else
        var count := LockedCount(rules, surface, input.dirtied) + surface.violations(Merged(input.current, input.dirtied));
        if count > 0 then (t, Violations(count))
        else
          var (u, out) := WriteBatch(rules, t, BatchOf(input.dirtied), Some(input.actor), input.now);
          (u, if out.Ok? then Saved(out.value) else WriteFailed(out.error))
  }

  datatype SurfaceOp = OpSave(input: SaveInput) | OpEraseActor(actor: string, now: int)

  const NoTable: Table := Table(map[], 0, [], map[])

  function SurfaceStep(rules: Rules, surface: Surface, t: Table, op: SurfaceOp): Table {
    match op
    case OpSave(input) => SaveSection(rules, surface, t, input).0
    case OpEraseActor(actor, now) => t.(log := EraseActors(t.log, actor, now))
  }

  function SurfaceRun(rules: Rules, surface: Surface, t: Table, ops: seq<SurfaceOp>): Table
    decreases |ops|
  {
    if |ops| == 0 then t else SurfaceStep(rules, surface, SurfaceRun(rules, surface, t, ops[..|ops| - 1]), ops[|ops| - 1])
  }
}
