/** The in-memory configuration surface, updated in place (app/config-surfaces/src/store.ts, save.ts). */
module ConfigSurface {
  import opened Wrappers
  import opened CredentialRedaction
  import opened AuditSpec
  import opened SurfaceSpec
  import opened SurfaceTheorems

  /** The confirmations a batch of edits owes. */
  method RequiredConfirmsFor(surface: Surface, dirtied: seq<Dirtied>) returns (owed: set<Confirm>)
    ensures forall c :: c in owed <==> exists d :: d in dirtied && c in ConfirmsOf(surface, d)
  {
    owed := {};
    assert dirtied[..0] == [];
    for i := 0 to |dirtied|
      invariant owed == RequiredConfirms(surface, dirtied[..i])
    {
      assert dirtied[..i + 1][..i] == dirtied[..i];
      var spec := surface.spec(dirtied[i].key);
      if spec.Some? {
        if spec.value.editClass == Boot { owed := owed + {Redeploy}; }
        if spec.value.confirm == Some(Rebuild) { owed := owed + {Rebuild}; }
        if spec.value.confirm == Some(Irreversible) {
          if dirtied[i].newValue == JBool(true) && dirtied[i].oldValue != JBool(true) { owed := owed + {Irreversible}; }
        }
      }
    }
    assert dirtied[..|dirtied|] == dirtied;
    RequiredExact(surface, dirtied);
  }

  lemma RequiredUnique(surface: Surface, dirtied: seq<Dirtied>, owed: set<Confirm>)
    requires forall c :: c in owed <==> exists d :: d in dirtied && c in ConfirmsOf(surface, d)
    ensures owed == RequiredConfirms(surface, dirtied)
  {
    RequiredExact(surface, dirtied);
    hide ConfirmsOf;
  }

  /** A first refused row at position i is the batch's error. */
  lemma {:induction false} FirstErrorAt(rules: Rules, rows: seq<BatchRow>, i: nat)
    requires i <= |rows|
    requires forall k :: 0 <= k < i ==> KeyError(rules, rows[k].key).None?
    ensures FirstError(rules, rows) == FirstError(rules, rows[i..])
    ensures i < |rows| && KeyError(rules, rows[i].key).Some? ==> FirstError(rules, rows) == KeyError(rules, rows[i].key)
  {
    if i > 0 {
      FirstErrorAt(rules, rows[1..], i - 1);
      TailSlices(rows, i);
    } else {
      WholeSlice(rows);
    }
  }

  class SurfaceStore {
    const rules: Rules
    var values: map<string, ValueRow>
    var last: nat
    var log: seq<Row>
    var integrity: map<nat, nat>

    ghost function View(): Table
      reads this
    {
      Table(values, last, log, integrity)
    }

    constructor (rules: Rules)
      ensures this.rules == rules && View() == NoTable
    {
      this.rules := rules;
      values, last, log, integrity := map[], 0, [], map[];
    }

    method PutConfigValue(key: string, value: Json, updatedBy: Option<string>, now: int) returns (e: Option<WriteError>)
      modifies this`values
      ensures e == KeyError(rules, key)
      ensures values == if e.Some? then old(values) else old(values)[key := ValueRow(value, now, updatedBy)]
    {
      if rules.secretKey(key) { return Some(SecretRejected(key)); }
      if rules.hardLimitKey(key) { return Some(HardLimitRejected(key)); }
      values := values[key := ValueRow(value, now, updatedBy)];
      e := None;
    }

    method AppendAudit(key: string, oldValue: Json, newValue: Json, actor: Option<string>, now: int) returns (r: Result<Row, WriteError>)
      modifies this`last, this`log, this`integrity
      ensures KeyError(rules, key).Some? ==> r == Err(KeyError(rules, key).value) && View() == old(View())
      ensures KeyError(rules, key).None? ==>
                && r == Ok(AuditRow(rules, old(View()), BatchRow(key, newValue, oldValue, newValue), actor, now))
                && last == r.value.id && log == old(log) + [r.value] && integrity == old(integrity)[r.value.id := HashOf(rules.audit, r.value)]
    {
      if rules.secretKey(key) { return Err(SecretRejected(key)); }
      if rules.hardLimitKey(key) { return Err(HardLimitRejected(key)); }
      var before: Json := JNull;
      if oldValue != JNull { before := RedactCredentialMaterial(rules.audit.classifier, oldValue); }
      var after := RedactCredentialMaterial(rules.audit.classifier, newValue);
      last := last + 1;
      var row := Row(last, key, before, after, actor, None, now);
      log := log + [row];
      integrity := integrity[row.id := HashOf(rules.audit, row)];
      r := Ok(row);
    }

    /** The value, then its audit row: a key that may be stored may be logged. */
    method WriteRow(r: BatchRow, actor: Option<string>, now: int) returns (id: Result<nat, WriteError>)
      modifies this
      ensures id.Err? <==> KeyError(rules, r.key).Some?
      ensures id.Err? ==> id.error == KeyError(rules, r.key).value && log == old(log)
      ensures id.Ok? ==> View() == WriteOne(rules, old(View()), r, actor, now) && id.value == old(last) + 1
    {
      var refused := PutConfigValue(r.key, r.value, actor, now);
      if refused.Some? { return Err(refused.value); }
      var audit := AppendAudit(r.key, r.oldValue, r.newValue, actor, now);
      id := Ok(audit.value.id);
    }

    /** Every row, or on the first refused one the snapshots taken at the start. */
    method WriteRows(rows: seq<BatchRow>, actor: Option<string>, now: int) returns (r: Result<Written, WriteError>)
      modifies this
      ensures (View(), r) == WriteBatch(rules, old(View()), rows, actor, now)
    {
      hide WriteAll, WriteOne;
      var valuesBefore, lengthBefore, lastBefore, integrityBefore := values, |log|, last, integrity;
      ghost var start := View();
      var keys: seq<string>, ids: seq<nat> := [], [];
      WriteNone(rules, start, rows, actor, now);
      for i := 0 to |rows|
        invariant forall k :: 0 <= k < i ==> KeyError(rules, rows[k].key).None?
        invariant View() == WriteAll(rules, start, rows[..i], actor, now)
        invariant last == start.last + i && lengthBefore <= |log| && log[..lengthBefore] == start.log
        invariant keys == KeysOf(rows[..i]) && ids == IdsAfter(start.last, i)
      {
        var id := WriteRow(rows[i], actor, now);
        if id.Err? {
          values, log, last, integrity := valuesBefore, log[..lengthBefore], lastBefore, integrityBefore;
          FirstErrorAt(rules, rows, i);
          return Err(id.error);
        }
        WriteAllSnoc(rules, start, rows, i, actor, now);
        keys, ids := keys + [rows[i].key], ids + [id.value];
      }
      NoErrors(rules, rows);
      WholeSlice(rows);
      r := Ok(Written(keys, ids));
    }

    method SaveSection(surface: Surface, input: SaveInput) returns (r: SaveResult)
      modifies this
      ensures (View(), r) == SurfaceSpec.SaveSection(rules, surface, old(View()), input)
    {
      if input.readOnly || !input.mayEdit { return Forbidden; }
      var owed := RequiredConfirmsFor(surface, input.dirtied);
      RequiredUnique(surface, input.dirtied, owed);
      hide ConfirmsOf, RequiredConfirms, WriteBatch;
      if owed - input.confirmations != {} { return AwaitingConfirmation(owed - input.confirmations); }
      var merged, locked := input.current, 0;
      assert input.dirtied[..0] == [];
      for i := 0 to |input.dirtied|
        invariant merged == Merged(input.current, input.dirtied[..i])
        invariant locked == LockedCount(rules, surface, input.dirtied[..i])
      {
        assert input.dirtied[..i + 1][..i] == input.dirtied[..i];
        merged := merged[input.dirtied[i].key := input.dirtied[i].newValue];
        if Locked(rules, surface, input.dirtied[i].key) { locked := locked + 1; }
      }
      assert input.dirtied[..|input.dirtied|] == input.dirtied;
      hide Merged, LockedCount;
      var count := locked + surface.violations(merged);
      if count > 0 { return Violations(count); }
      var out := WriteRows(BatchOf(input.dirtied), Some(input.actor), input.now);
      r := if out.Ok? then Saved(out.value) else WriteFailed(out.error);
    }

    method RedactActor(actor: string, now: int) returns (count: nat)
      modifies this`log
      ensures log == EraseActors(old(log), actor, now) && count == CountActor(old(log), actor)
    {
      count := 0;
      ghost var start := log;
      for i := 0 to |log|
        invariant |log| == |start| && count == CountActor(start[..i], actor)
        invariant forall k :: 0 <= k < i ==> log[k] == EraseActor(start[k], actor, now)
        invariant forall k :: i <= k < |log| ==> log[k] == start[k]
      {
        assert start[..i + 1][..i] == start[..i];
        if log[i].actor == Some(actor) {
          log := log[i := log[i].(actor := None, redactedAt := Some(now))];
          count := count + 1;
        }
      }
      assert start[..|start|] == start;
      assert log == EraseActors(start, actor, now);
    }
  }

  function IdsAfter(last: nat, n: nat): seq<nat> { seq(n, i => last + 1 + i) }

  lemma WriteNone(rules: Rules, t: Table, rows: seq<BatchRow>, actor: Option<string>, now: int)
    ensures rows[..0] == [] && WriteAll(rules, t, rows[..0], actor, now) == t && KeysOf(rows[..0]) == [] && IdsAfter(t.last, 0) == []
  {
  }

  lemma WriteAllSnoc(rules: Rules, t: Table, rows: seq<BatchRow>, i: nat, actor: Option<string>, now: int)
    requires i < |rows|
    ensures var u, v := WriteAll(rules, t, rows[..i], actor, now), WriteAll(rules, t, rows[..i + 1], actor, now);
      && v == WriteOne(rules, u, rows[i], actor, now)
      && v.last == u.last + 1 && |v.log| == |u.log| + 1 && v.log[..|u.log|] == u.log
    ensures KeysOf(rows[..i + 1]) == KeysOf(rows[..i]) + [rows[i].key]
    ensures IdsAfter(t.last, i + 1) == IdsAfter(t.last, i) + [t.last + 1 + i]
  {
    assert rows[..i + 1][..i] == rows[..i] && rows[..i + 1][i] == rows[i];
    hide Redact;
  }

  lemma NoErrors(rules: Rules, rows: seq<BatchRow>)
    requires forall k :: 0 <= k < |rows| ==> KeyError(rules, rows[k].key).None?
    ensures FirstError(rules, rows) == None
  {
    FirstErrorAt(rules, rows, |rows|);
  }
}
