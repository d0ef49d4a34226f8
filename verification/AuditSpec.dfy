/** The append-only configuration audit sink (app/config-store/src/store.ts) as a state machine. Row ids are the numbers
    behind the row names; times are seconds; the content hash, the classifiers and the key groups are parameters. */
module AuditSpec {
  import opened Wrappers
  import opened CredentialRedaction

  datatype Row = Row(
    id: nat, key: string, oldValue: Json, newValue: Json, actor: Option<string>, redactedAt: Option<int>, changedAt: int)

  datatype Config = Config(classifier: Classifier, hash: (string, Json, Json, int) -> nat, keyGroup: string -> string)

  datatype RetentionResult = RetentionResult(pruned: nat, protected: nat, years: int, ranAt: int)

  datatype Error = SecretKey(key: string) | DeleteForbidden | ExportDenied | ExportAborted(id: nat)

  datatype State = State(last: nat, log: seq<Row>, integrity: map<nat, nat>, pruning: bool, runs: seq<RetentionResult>)

  const DOWNLOAD_PERMISSION := "PERM-compliance.download_records"

  function HashOf(cfg: Config, r: Row): nat { cfg.hash(r.key, r.oldValue, r.newValue, r.changedAt) }

  predicate Verifies(cfg: Config, s: State, r: Row) {
    r.id in s.integrity && s.integrity[r.id] == HashOf(cfg, r)
  }

  function NewRow(cfg: Config, s: State, key: string, oldValue: Json, newValue: Json, actor: Option<string>, now: int): Row {
    Row(s.last + 1, key, if oldValue == JNull then JNull else Redact(cfg.classifier, oldValue), Redact(cfg.classifier, newValue),
        actor, None, now)
  }

  function Append(cfg: Config, s: State, key: string, oldValue: Json, newValue: Json, actor: Option<string>, now: int)
    : (State, Result<Row, Error>)
  {
    if cfg.classifier.secretKey(key) then (s, Err(SecretKey(key)))
    else
      var row := NewRow(cfg, s, key, oldValue, newValue, actor, now);
      (s.(last := row.id, log := s.log + [row], integrity := s.integrity[row.id := HashOf(cfg, row)]), Ok(row))
  }

  /** The rows in range whose key group the caller holds, in order. */
  function Select(cfg: Config, log: seq<Row>, from: int, to: int, groups: seq<string>): seq<Row> {
    if |log| == 0 then []
    else (if from <= log[0].changedAt <= to && cfg.keyGroup(log[0].key) in groups then [log[0]] else [])
         + Select(cfg, log[1..], from, to, groups)
  }

  /** The first selected row that fails its check. */
  function FirstTampered(cfg: Config, s: State, rows: seq<Row>): Option<Row> {
    if |rows| == 0 then None
    else if !Verifies(cfg, s, rows[0]) then Some(rows[0])
    else FirstTampered(cfg, s, rows[1..])
  }

  /** All or nothing: one failing row aborts the export. */
  function Export(cfg: Config, s: State, from: int, to: int, groups: seq<string>, permissions: seq<string>): Result<seq<Row>, Error> {
    if DOWNLOAD_PERMISSION !in permissions then Err(ExportDenied)
    else
      var rows := Select(cfg, s.log, from, to, groups);
      var bad := FirstTampered(cfg, s, rows);
      if bad.Some? then Err(ExportAborted(bad.value.id)) else Ok(rows)
  }

  function Cutoff(years: int, now: int): int { now - years * 365 * 24 * 3600 }

  /** The rows at or after the cutoff, in order. */
  function KeepFrom(log: seq<Row>, cutoff: int): seq<Row> {
    if |log| == 0 then [] else (if log[0].changedAt >= cutoff then [log[0]] else []) + KeepFrom(log[1..], cutoff)
  }

  function IdsBefore(log: seq<Row>, cutoff: int): (ids: set<nat>) {
    set r | r in log && r.changedAt < cutoff :: r.id
  }

  /** Retention prunes the rows older than the floor and records the run. */
  function Retain(s: State, years: int, now: int): State {
    var kept := KeepFrom(s.log, Cutoff(years, now));
    s.(log := kept, integrity := s.integrity - IdsBefore(s.log, Cutoff(years, now)),
       runs := s.runs + [RetentionResult(if |s.log| >= |kept| then |s.log| - |kept| else 0, |kept|, years, now)])
  }

  function EraseActor(r: Row, actor: string, now: int): Row {
    if r.actor == Some(actor) then r.(actor := None, redactedAt := Some(now)) else r
  }

  function EraseActors(log: seq<Row>, actor: string, now: int): (erased: seq<Row>)
    ensures |erased| == |log|
  {
    seq(|log|, i requires 0 <= i < |log| => EraseActor(log[i], actor, now))
  }

  function CountActor(log: seq<Row>, actor: string): nat {
    if |log| == 0 then 0 else CountActor(log[..|log| - 1], actor) + if log[|log| - 1].actor == Some(actor) then 1 else 0
  }

  datatype Op =
    | OpAppend(key: string, oldValue: Json, newValue: Json, actor: Option<string>, now: int)
    | OpErase(erased: string, now: int)
    | OpRetain(years: int, now: int)

  const Empty: State := State(0, [], map[], false, [])

  function Step(cfg: Config, s: State, op: Op): State {
    match op
    case OpAppend(key, oldValue, newValue, actor, now) => Append(cfg, s, key, oldValue, newValue, actor, now).0
    case OpErase(actor, now) => s.(log := EraseActors(s.log, actor, now))
    case OpRetain(years, now) => Retain(s, years, now)
  }

  function Run(cfg: Config, s: State, ops: seq<Op>): State
    decreases |ops|
  {
    if |ops| == 0 then s else Step(cfg, Run(cfg, s, ops[..|ops| - 1]), ops[|ops| - 1])
  }
}
