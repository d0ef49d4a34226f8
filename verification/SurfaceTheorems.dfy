/** What saving guarantees: all or nothing, exactly when it writes, and an audit log that replays to the live values. */
module SurfaceTheorems {
  import opened Wrappers
  import opened CredentialRedaction
  import opened AuditSpec
  import opened SurfaceSpec

  predicate Acceptable(rules: Rules, key: string) { !rules.secretKey(key) && !rules.hardLimitKey(key) }

  lemma {:induction false} FirstErrorExact(rules: Rules, rows: seq<BatchRow>)
    ensures FirstError(rules, rows).None? <==> forall r :: r in rows ==> Acceptable(rules, r.key)
  {
    if |rows| > 0 {
      FirstErrorExact(rules, rows[1..]);
      assert rows == [rows[0]] + rows[1..];
    }
  }

  /** The last of the rows for a key, if any. */
  function LastFor(rows: seq<BatchRow>, key: string): Option<BatchRow> {
    if |rows| == 0 then None
    else if rows[|rows| - 1].key == key then Some(rows[|rows| - 1])
    else LastFor(rows[..|rows| - 1], key)
  }

  /** The audit row that batch row i of a batch written onto t leaves in u: numbered in order, carrying the key, the
      redacted new value, the actor and the time, and covered by the ledger. */
  ghost predicate Logged(rules: Rules, t: Table, u: Table, r: BatchRow, i: nat, actor: Option<string>, now: int) {
    && |t.log| + i < |u.log|
    && var row := u.log[|t.log| + i];
       row.id == t.last + 1 + i && row.key == r.key
       && row.oldValue == (if r.oldValue == JNull then JNull else Redact(rules.audit.classifier, r.oldValue))
       && row.newValue == Redact(rules.audit.classifier, r.newValue)
       && row.actor == actor && row.changedAt == now && row.id in u.integrity && u.integrity[row.id] == HashOf(rules.audit, row)
  }

  /** What a whole batch leaves: each key holds its last written value, every other key is unchanged, and the log and
      ledger have grown by one matching row per batch row, in order. */
  lemma {:induction false} WriteAllExact(rules: Rules, t: Table, rows: seq<BatchRow>, actor: Option<string>, now: int)
    ensures var u := WriteAll(rules, t, rows, actor, now);
      && u.last == t.last + |rows| && |u.log| == |t.log| + |rows| && u.log[..|t.log|] == t.log
      && (forall key :: if LastFor(rows, key).Some? then key in u.values && u.values[key] == ValueRow(LastFor(rows, key).value.value, now, actor)
                        else (key in u.values <==> key in t.values) && (key in t.values ==> u.values[key] == t.values[key]))
      && (forall i :: 0 <= i < |rows| ==> Logged(rules, t, u, rows[i], i, actor, now))
  {
    hide Redact;
    if |rows| > 0 {
      var n := |rows| - 1;
      WriteAllExact(rules, t, rows[..n], actor, now);
      var mid, u := WriteAll(rules, t, rows[..n], actor, now), WriteAll(rules, t, rows, actor, now);
      assert u == WriteOne(rules, mid, rows[n], actor, now);
      hide WriteAll, LastFor;
      forall i | 0 <= i < |rows| ensures Logged(rules, t, u, rows[i], i, actor, now) {
        if i < n {
          assert rows[..n][i] == rows[i] && Logged(rules, t, mid, rows[i], i, actor, now);
        }
      }
    }
  }

  /** ATOMICITY. A batch succeeds exactly when every key is acceptable; otherwise values, log, counter and ledger are
      exactly as before. */
  lemma BatchIsAtomic(rules: Rules, t: Table, rows: seq<BatchRow>, actor: Option<string>, now: int)
    ensures WriteBatch(rules, t, rows, actor, now).1.Ok? <==> forall r :: r in rows ==> Acceptable(rules, r.key)
    ensures WriteBatch(rules, t, rows, actor, now).1.Err? ==> WriteBatch(rules, t, rows, actor, now).0 == t
    ensures var (u, out) := WriteBatch(rules, t, rows, actor, now);
      out.Ok? ==>
        && |u.log| == |t.log| + |rows| && |out.value.keys| == |out.value.auditIds| == |rows|
        && forall i :: 0 <= i < |rows| ==>
             Logged(rules, t, u, rows[i], i, actor, now) && out.value.keys[i] == rows[i].key && out.value.auditIds[i] == u.log[|t.log| + i].id
  {
    FirstErrorExact(rules, rows);
    WriteAllExact(rules, t, rows, actor, now);
  }

  lemma {:induction false} NoneLockedExact(rules: Rules, surface: Surface, dirtied: seq<Dirtied>)
    ensures LockedCount(rules, surface, dirtied) == 0 <==> forall d :: d in dirtied ==> !Locked(rules, surface, d.key)
  {
    if |dirtied| > 0 {
      NoneLockedExact(rules, surface, dirtied[..|dirtied| - 1]);
      assert dirtied == dirtied[..|dirtied| - 1] + [dirtied[|dirtied| - 1]];
    }
  }

  lemma {:induction false} RequiredExact(surface: Surface, dirtied: seq<Dirtied>)
    ensures forall c :: c in RequiredConfirms(surface, dirtied) <==> exists d :: d in dirtied && c in ConfirmsOf(surface, d)
  {
    if |dirtied| > 0 {
      RequiredExact(surface, dirtied[..|dirtied| - 1]);
      assert dirtied == dirtied[..|dirtied| - 1] + [dirtied[|dirtied| - 1]];
      hide ConfirmsOf;
    }
  }

  lemma NothingMissing(required: set<Confirm>, given: set<Confirm>)
    ensures required - given == {} <==> forall c :: c in required ==> c in given
  {
    assert forall c :: c in required && c !in given ==> c in required - given;
  }

  /** EXACTLY WHEN a save writes: the section is editable by the caller, every owed confirmation was given, nothing is
      locked or violates a rule, and every key is acceptable to the store. In every other case nothing changes. */
  lemma SaveWritesIff(rules: Rules, surface: Surface, t: Table, input: SaveInput)
    ensures SaveSection(rules, surface, t, input).1.Saved? <==>
      && !input.readOnly && input.mayEdit
      && (forall d, c :: d in input.dirtied && c in ConfirmsOf(surface, d) ==> c in input.confirmations)
      && (forall d :: d in input.dirtied ==> !Locked(rules, surface, d.key) && Acceptable(rules, d.key))
      && surface.violations(Merged(input.current, input.dirtied)) == 0
    ensures !SaveSection(rules, surface, t, input).1.Saved? ==> SaveSection(rules, surface, t, input).0 == t
  {
    var batch := BatchOf(input.dirtied);
    RequiredExact(surface, input.dirtied);
    NoneLockedExact(rules, surface, input.dirtied);
    BatchIsAtomic(rules, t, batch, Some(input.actor), input.now);
    BatchKeys(rules, input.dirtied);
    hide ConfirmsOf, RequiredConfirms, LockedCount, Merged, WriteBatch, BatchOf;
    var missing := RequiredConfirms(surface, input.dirtied) - input.confirmations;
    NothingMissing(RequiredConfirms(surface, input.dirtied), input.confirmations);
  }

  lemma BatchKeys(rules: Rules, dirtied: seq<Dirtied>)
    ensures (forall r :: r in BatchOf(dirtied) ==> Acceptable(rules, r.key)) <==> (forall d :: d in dirtied ==> Acceptable(rules, d.key))
  {
    if forall r :: r in BatchOf(dirtied) ==> Acceptable(rules, r.key) {
      forall d | d in dirtied ensures Acceptable(rules, d.key) {
        var i :| 0 <= i < |dirtied| && dirtied[i] == d;
        assert BatchOf(dirtied)[i] in BatchOf(dirtied);
      }
    }
  }

  // ---------------------------------------------------------------- the log replays to the values

  /** The values a reader of the log reconstructs, key by key. */
  function Replay(log: seq<Row>): map<string, Json> {
    if |log| == 0 then map[] else Replay(log[..|log| - 1])[log[|log| - 1].key := log[|log| - 1].newValue]
  }

  function RedactedValues(rules: Rules, values: map<string, ValueRow>): map<string, Json> {
    map key | key in values :: Redact(rules.audit.classifier, values[key].value)
  }

  ghost predicate Consistent(rules: Rules, t: Table) {
    && Replay(t.log) == RedactedValues(rules, t.values)
    && (forall key :: key in t.values ==> Acceptable(rules, key))
    && (forall r :: r in t.log ==>
          Acceptable(rules, r.key) && r.id in t.integrity && t.integrity[r.id] == HashOf(rules.audit, r) && r.id <= t.last)
  }

  lemma ReplayAppend(log: seq<Row>, r: Row)
    ensures Replay(log + [r]) == Replay(log)[r.key := r.newValue]
  {
    assert (log + [r])[..|log|] == log;
  }

  lemma {:induction false} WriteAllConsistent(rules: Rules, t: Table, rows: seq<BatchRow>, actor: Option<string>, now: int)
    requires Consistent(rules, t)
    requires forall r :: r in rows ==> r.value == r.newValue && Acceptable(rules, r.key)
    ensures Consistent(rules, WriteAll(rules, t, rows, actor, now))
  {
    if |rows| > 0 {
      var init, last := rows[..|rows| - 1], rows[|rows| - 1];
      WriteAllConsistent(rules, t, init, actor, now);
      WriteOneConsistent(rules, WriteAll(rules, t, init, actor, now), last, actor, now);
    }
  }

  lemma WriteOneConsistent(rules: Rules, t: Table, r: BatchRow, actor: Option<string>, now: int)
    requires Consistent(rules, t) && r.value == r.newValue && Acceptable(rules, r.key)
    ensures Consistent(rules, WriteOne(rules, t, r, actor, now))
  {
    hide Redact;
    var u := WriteOne(rules, t, r, actor, now);
    ReplayAppend(t.log, AuditRow(rules, t, r, actor, now));
    assert RedactedValues(rules, u.values) == RedactedValues(rules, t.values)[r.key := Redact(rules.audit.classifier, r.newValue)];
    hide Replay, RedactedValues;
  }

  lemma {:induction false} EraseKeepsReplay(log: seq<Row>, actor: string, now: int)
    ensures Replay(EraseActors(log, actor, now)) == Replay(log)
  {
    if |log| > 0 {
      EraseKeepsReplay(log[..|log| - 1], actor, now);
      assert EraseActors(log, actor, now)[..|log| - 1] == EraseActors(log[..|log| - 1], actor, now);
    }
  }

  lemma EraseConsistent(rules: Rules, t: Table, actor: string, now: int)
    requires Consistent(rules, t)
    ensures Consistent(rules, t.(log := EraseActors(t.log, actor, now)))
  {
    EraseKeepsReplay(t.log, actor, now);
    hide Replay, RedactedValues, Redact;
    var u := t.(log := EraseActors(t.log, actor, now));
    forall i | 0 <= i < |u.log|
      ensures u.log[i].id in u.integrity && u.integrity[u.log[i].id] == HashOf(rules.audit, u.log[i]) && u.log[i].id <= u.last
      ensures Acceptable(rules, u.log[i].key)
    {
      assert t.log[i] in t.log;
    }
  }

  lemma StepConsistent(rules: Rules, surface: Surface, t: Table, op: SurfaceOp)
    requires Consistent(rules, t)
    ensures Consistent(rules, SurfaceStep(rules, surface, t, op))
  {
    hide Consistent;
    match op
    case OpEraseActor(actor, now) => EraseConsistent(rules, t, actor, now);
    case OpSave(input) =>
      if SaveSection(rules, surface, t, input).1.Saved? {
        SaveWritesIff(rules, surface, t, input);
        BatchKeys(rules, input.dirtied);
        WriteAllConsistent(rules, t, BatchOf(input.dirtied), Some(input.actor), input.now);
      } else {
        SaveWritesIff(rules, surface, t, input);
      }
  }

  lemma EmptyConsistent(rules: Rules)
    ensures Consistent(rules, NoTable)
  {
  }

  /** THE LOG REPLAYS. Over any run of saves and actor redactions from an empty store, replaying the log's new values
      key by key gives the redacted current values; every logged row verifies; no secret or hard-limit key is stored. */
  lemma {:induction false} LogReplaysValues(rules: Rules, surface: Surface, ops: seq<SurfaceOp>)
    ensures Consistent(rules, SurfaceRun(rules, surface, NoTable, ops))
    decreases |ops|
  {
    hide Consistent;
    if |ops| == 0 {
      EmptyConsistent(rules);
    } else {
      LogReplaysValues(rules, surface, ops[..|ops| - 1]);
      StepConsistent(rules, surface, SurfaceRun(rules, surface, NoTable, ops[..|ops| - 1]), ops[|ops| - 1]);
    }
  }
}
