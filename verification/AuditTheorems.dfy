/** What the audit sink guarantees over every run of appends, actor redactions and retention. */
module AuditTheorems {
  import opened Wrappers
  import opened CredentialRedaction
  import opened AuditSpec

  /** Ids rise along the log, so they are unique and the order of rows is the order of their ids. */
  predicate Rising(log: seq<Row>) {
    forall i, j :: 0 <= i < j < |log| ==> log[i].id < log[j].id
  }

  predicate RowOk(cfg: Config, s: State, r: Row) {
    && 1 <= r.id <= s.last && Verifies(cfg, s, r) && !cfg.classifier.secretKey(r.key)
    && !Contains(cfg.classifier, r.oldValue) && !Contains(cfg.classifier, r.newValue)
    && (r.redactedAt.Some? ==> r.actor.None?)
  }

  predicate HasId(log: seq<Row>, id: nat) {
    exists i :: 0 <= i < |log| && log[i].id == id
  }

  ghost predicate Inv(cfg: Config, s: State) {
    && Rising(s.log) && !s.pruning
    && (forall r :: r in s.log ==> RowOk(cfg, s, r))
    && (forall id :: id in s.integrity <==> HasId(s.log, id))
  }

  // ---------------------------------------------------------------- selections

  lemma RisingTail(log: seq<Row>)
    requires |log| > 0 && Rising(log)
    ensures Rising(log[1..]) && forall r :: r in log[1..] ==> log[0].id < r.id
  {
  }

  lemma RisingCons(head: Row, rest: seq<Row>)
    requires Rising(rest) && forall r :: r in rest ==> head.id < r.id
    ensures Rising([head] + rest)
  {
    assert forall i :: 0 <= i < |rest| ==> rest[i] in rest;
  }

  lemma {:induction false} KeepExact(log: seq<Row>, cutoff: int)
    ensures forall r :: r in KeepFrom(log, cutoff) <==> r in log && r.changedAt >= cutoff
    ensures Rising(log) ==> Rising(KeepFrom(log, cutoff))
    ensures |KeepFrom(log, cutoff)| <= |log|
  {
    if |log| > 0 {
      KeepExact(log[1..], cutoff);
      assert log == [log[0]] + log[1..];
      if Rising(log) {
        RisingTail(log);
        RisingCons(log[0], KeepFrom(log[1..], cutoff));
      }
      hide Rising;
    }
  }

  lemma {:induction false} SelectExact(cfg: Config, log: seq<Row>, from: int, to: int, groups: seq<string>)
    ensures forall r :: r in Select(cfg, log, from, to, groups) <==>
              r in log && from <= r.changedAt <= to && cfg.keyGroup(r.key) in groups
    ensures Rising(log) ==> Rising(Select(cfg, log, from, to, groups))
  {
    if |log| > 0 {
      SelectExact(cfg, log[1..], from, to, groups);
      assert log == [log[0]] + log[1..];
      if Rising(log) {
        RisingTail(log);
        RisingCons(log[0], Select(cfg, log[1..], from, to, groups));
      }
      hide Rising;
    }
  }

  lemma {:induction false} TamperedExact(cfg: Config, s: State, rows: seq<Row>)
    ensures FirstTampered(cfg, s, rows).None? <==> forall r :: r in rows ==> Verifies(cfg, s, r)
    ensures FirstTampered(cfg, s, rows).Some? ==> FirstTampered(cfg, s, rows).value in rows && !Verifies(cfg, s, FirstTampered(cfg, s, rows).value)
  {
    if |rows| > 0 {
      TamperedExact(cfg, s, rows[1..]);
      assert rows == [rows[0]] + rows[1..];
    }
  }

  // ---------------------------------------------------------------- every operation keeps the invariant

  lemma AppendKeeps(cfg: Config, s: State, key: string, oldValue: Json, newValue: Json, actor: Option<string>, now: int)
    requires Inv(cfg, s) && Sane(cfg.classifier)
    ensures Inv(cfg, Append(cfg, s, key, oldValue, newValue, actor, now).0)
  {
    var t := Append(cfg, s, key, oldValue, newValue, actor, now).0;
    RedactionRemovesAll(cfg.classifier, oldValue);
    RedactionRemovesAll(cfg.classifier, newValue);
    if !cfg.classifier.secretKey(key) {
      hide Redact, Contains;
      var row := NewRow(cfg, s, key, oldValue, newValue, actor, now);
      assert forall r :: r in t.log <==> r in s.log || r == row;
      forall i | 0 <= i < |s.log| ensures s.log[i].id <= s.last { assert s.log[i] in s.log; }
      forall r | r in t.log ensures RowOk(cfg, t, r) {
        if r in s.log { assert RowOk(cfg, s, r); }
      }
      forall id ensures id in t.integrity <==> HasId(t.log, id) {
        if id == row.id { assert t.log[|s.log|].id == id; }
        if HasId(s.log, id) {
          var i :| 0 <= i < |s.log| && s.log[i].id == id;
          assert t.log[i].id == id;
        }
      }
    }
  }

  lemma EraseKeeps(cfg: Config, s: State, actor: string, now: int)
    requires Inv(cfg, s)
    ensures Inv(cfg, s.(log := EraseActors(s.log, actor, now)))
  {
    var t := s.(log := EraseActors(s.log, actor, now));
    forall i | 0 <= i < |t.log| ensures RowOk(cfg, t, t.log[i]) {
      assert RowOk(cfg, s, s.log[i]);
    }
    forall id ensures HasId(t.log, id) <==> HasId(s.log, id) {
      if HasId(s.log, id) {
        var i :| 0 <= i < |s.log| && s.log[i].id == id;
        assert t.log[i].id == id;
      }
    }
  }

  lemma UniqueIds(log: seq<Row>, a: Row, b: Row)
    requires Rising(log) && a in log && b in log && a.id == b.id
    ensures a == b
  {
  }

  lemma InIdsBefore(log: seq<Row>, cutoff: int, r: Row)
    requires Rising(log) && r in log
    ensures r.id in IdsBefore(log, cutoff) <==> r.changedAt < cutoff
  {
    if r.id in IdsBefore(log, cutoff) {
      var b :| b in log && b.changedAt < cutoff && b.id == r.id;
      UniqueIds(log, b, r);
    }
  }

  lemma HasRow(log: seq<Row>, id: nat)
    ensures HasId(log, id) <==> exists r :: r in log && r.id == id
  {
    if HasId(log, id) {
      var i :| 0 <= i < |log| && log[i].id == id;
      assert log[i] in log;
    }
  }

  lemma RetainKeeps(cfg: Config, s: State, years: int, now: int)
    requires Inv(cfg, s)
    ensures Inv(cfg, Retain(s, years, now))
  {
    var t, cutoff := Retain(s, years, now), Cutoff(years, now);
    KeepExact(s.log, cutoff);
    hide KeepFrom, Cutoff, Contains, IdsBefore;
    forall r | r in s.log ensures r.id in IdsBefore(s.log, cutoff) <==> r.changedAt < cutoff {
      InIdsBefore(s.log, cutoff, r);
    }
    hide Rising;
    forall r | r in t.log ensures RowOk(cfg, t, r) {
      assert RowOk(cfg, s, r);
    }
    forall id: nat ensures id in t.integrity <==> HasId(t.log, id) {
      HasRow(s.log, id);
      HasRow(t.log, id);
      RetainedId(s.log, t.log, cutoff, id);
    }
  }

  lemma RetainedId(log: seq<Row>, kept: seq<Row>, cutoff: int, id: nat)
    requires forall r :: r in kept <==> r in log && r.changedAt >= cutoff
    requires forall r :: r in log ==> (r.id in IdsBefore(log, cutoff) <==> r.changedAt < cutoff)
    ensures (exists r :: r in kept && r.id == id) <==> (exists r :: r in log && r.id == id) && id !in IdsBefore(log, cutoff)
  {
    hide IdsBefore;
  }

  lemma StepKeeps(cfg: Config, s: State, op: Op)
    requires Inv(cfg, s) && Sane(cfg.classifier)
    ensures Inv(cfg, Step(cfg, s, op))
  {
    match op
    case OpAppend(key, oldValue, newValue, actor, now) => AppendKeeps(cfg, s, key, oldValue, newValue, actor, now);
    case OpErase(actor, now) => EraseKeeps(cfg, s, actor, now);
    case OpRetain(years, now) => RetainKeeps(cfg, s, years, now);
  }

  /** SAFETY OVER EVERY RUN: ids are unique and in order, the ledger's keys are exactly the live row ids, every row
      verifies, and no row carries credential material or a secret key. */
  lemma {:induction false} RunKeeps(cfg: Config, s: State, ops: seq<Op>)
    requires Inv(cfg, s) && Sane(cfg.classifier)
    ensures Inv(cfg, Run(cfg, s, ops))
    decreases |ops|
  {
    hide Inv, Step;
    if |ops| > 0 {
      RunKeeps(cfg, s, ops[..|ops| - 1]);
      StepKeeps(cfg, Run(cfg, s, ops[..|ops| - 1]), ops[|ops| - 1]);
    }
  }

  // ---------------------------------------------------------------- export

  /** WHAT IS APPENDED IS WHAT WAS SAID. An append is refused exactly for a secret key and then changes nothing. Otherwise it
      adds one row after all others, with a new id, that verifies, carries no credential material, and holds key, actor, time
      and every value that carried none as they were given. */
  lemma AppendIsFaithful(cfg: Config, s: State, key: string, oldValue: Json, newValue: Json, actor: Option<string>, now: int)
    requires Inv(cfg, s) && Sane(cfg.classifier)
    ensures var (t, r) := Append(cfg, s, key, oldValue, newValue, actor, now);
      && (r.Err? <==> cfg.classifier.secretKey(key)) && (r.Err? ==> t == s)
      && (r.Ok? ==>
            var row := r.value;
            && t.log == s.log + [row] && (forall before :: before in s.log ==> before.id < row.id) && Verifies(cfg, t, row)
            && row.key == key && row.actor == actor && row.changedAt == now && row.redactedAt == None
            && !Contains(cfg.classifier, row.oldValue) && !Contains(cfg.classifier, row.newValue)
            && (!Contains(cfg.classifier, newValue) ==> row.newValue == newValue)
            && (!Contains(cfg.classifier, oldValue) ==> row.oldValue == oldValue))
  {
    RedactionRemovesAll(cfg.classifier, oldValue);
    RedactionRemovesAll(cfg.classifier, newValue);
    if !Contains(cfg.classifier, newValue) { CleanIsKept(cfg.classifier, newValue); }
    if !Contains(cfg.classifier, oldValue) { CleanIsKept(cfg.classifier, oldValue); }
    assert !Contains(cfg.classifier, JNull);
    hide Redact, Contains, Rising;
  }

  /** An export succeeds exactly for a permitted caller when every row in range and scope passes its check. */
  lemma ExportSucceedsIff(cfg: Config, s: State, from: int, to: int, groups: seq<string>, permissions: seq<string>)
    ensures Export(cfg, s, from, to, groups, permissions).Ok? <==>
            DOWNLOAD_PERMISSION in permissions
            && forall r :: r in s.log && from <= r.changedAt <= to && cfg.keyGroup(r.key) in groups ==> Verifies(cfg, s, r)
  {
    SelectExact(cfg, s.log, from, to, groups);
    TamperedExact(cfg, s, Select(cfg, s.log, from, to, groups));
  }

  /** In every reachable state a permitted export succeeds with exactly the rows in range and scope, in log order. */
  lemma ExportIsComplete(cfg: Config, ops: seq<Op>, from: int, to: int, groups: seq<string>, permissions: seq<string>)
    requires Sane(cfg.classifier) && DOWNLOAD_PERMISSION in permissions
    ensures var s := Run(cfg, Empty, ops);
            var out := Export(cfg, s, from, to, groups, permissions);
            && out.Ok? && Rising(out.value)
            && forall r :: r in out.value <==> r in s.log && from <= r.changedAt <= to && cfg.keyGroup(r.key) in groups
  {
    var s := Run(cfg, Empty, ops);
    RunKeeps(cfg, Empty, ops);
    hide Run;
    forall r | r in s.log ensures Verifies(cfg, s, r) { assert RowOk(cfg, s, r); }
    ExportSucceedsIff(cfg, s, from, to, groups, permissions);
    SelectExact(cfg, s.log, from, to, groups);
  }

  /** Tampering with a row in place is caught exactly when it changes the row's hash: the export that covers the row
      then aborts and returns nothing. */
  lemma TamperAborts(cfg: Config, s: State, i: nat, edited: Row, from: int, to: int, groups: seq<string>, permissions: seq<string>)
    requires Inv(cfg, s) && i < |s.log| && edited.id == s.log[i].id
    requires from <= edited.changedAt <= to && cfg.keyGroup(edited.key) in groups && DOWNLOAD_PERMISSION in permissions
    ensures var t := s.(log := s.log[i := edited]);
            Export(cfg, t, from, to, groups, permissions).Err? <==> HashOf(cfg, edited) != HashOf(cfg, s.log[i])
  {
    var t := s.(log := s.log[i := edited]);
    ExportSucceedsIff(cfg, t, from, to, groups, permissions);
    hide Export;
    assert RowOk(cfg, s, s.log[i]);
    assert t.log[i] == edited && edited in t.log;
    forall r | r in t.log && r != edited ensures Verifies(cfg, t, r) {
      var k :| 0 <= k < |t.log| && t.log[k] == r;
      assert r == s.log[k] && r in s.log;
      assert RowOk(cfg, s, r);
    }
  }

  // ---------------------------------------------------------------- retention and history

  /** Retention removes exactly the rows older than the floor, keeps the others in order, and its counts add up. */
  lemma RetentionExact(s: State, years: int, now: int)
    requires Rising(s.log)
    ensures var t := Retain(s, years, now);
      && (forall r :: r in t.log <==> r in s.log && r.changedAt >= Cutoff(years, now)) && Rising(t.log)
      && |t.runs| == |s.runs| + 1
      && t.runs[|s.runs|].pruned + t.runs[|s.runs|].protected == |s.log| && t.runs[|s.runs|].protected == |t.log|
  {
    KeepExact(s.log, Cutoff(years, now));
  }

  /** Equal but for the actor's erasure. */
  predicate SameContent(a: Row, b: Row) {
    a.id == b.id && a.key == b.key && a.oldValue == b.oldValue && a.newValue == b.newValue && a.changedAt == b.changedAt
    && (a.actor == b.actor || b.actor.None?)
  }

  predicate Spares(op: Op, r: Row) {
    op.OpRetain? ==> r.changedAt >= Cutoff(op.years, op.now)
  }

  predicate Survives(log: seq<Row>, r: Row) {
    exists i :: 0 <= i < |log| && SameContent(r, log[i])
  }

  lemma RetainSurvival(s: State, years: int, now: int, r: Row)
    requires Rising(s.log)
    ensures var t := Retain(s, years, now);
      && (HasId(t.log, r.id) ==> HasId(s.log, r.id))
      && (Survives(s.log, r) && r.changedAt >= Cutoff(years, now) ==> Survives(t.log, r))
      && (Survives(s.log, r) && r.changedAt < Cutoff(years, now) ==> !HasId(t.log, r.id))
  {
    var t := Retain(s, years, now);
    KeepExact(s.log, Cutoff(years, now));
    hide KeepFrom, Cutoff;
    HasRow(s.log, r.id);
    HasRow(t.log, r.id);
    if i :| 0 <= i < |s.log| && SameContent(r, s.log[i]) {
      var kept := s.log[i];
      assert kept in s.log;
      if r.changedAt >= Cutoff(years, now) {
        assert kept in t.log;
        var k :| 0 <= k < |t.log| && t.log[k] == kept;
      } else {
        forall x | x in t.log ensures x.id != r.id {
          if x.id == kept.id { UniqueIds(s.log, x, kept); }
        }
      }
    }
  }

  lemma AppendSurvival(log: seq<Row>, row: Row, r: Row)
    requires row.id != r.id
    ensures HasId(log + [row], r.id) ==> HasId(log, r.id)
    ensures Survives(log, r) ==> Survives(log + [row], r)
  {
    HasRow(log, r.id);
    HasRow(log + [row], r.id);
    if i :| 0 <= i < |log| && SameContent(r, log[i]) { assert (log + [row])[i] == log[i]; }
  }

  lemma EraseSurvival(log: seq<Row>, actor: string, now: int, r: Row)
    ensures HasId(EraseActors(log, actor, now), r.id) ==> HasId(log, r.id)
    ensures Survives(log, r) ==> Survives(EraseActors(log, actor, now), r)
  {
    var t := EraseActors(log, actor, now);
    if i :| 0 <= i < |log| && SameContent(r, log[i]) { assert SameContent(r, t[i]); }
    if i :| 0 <= i < |t| && t[i].id == r.id { assert log[i].id == r.id; }
  }

  lemma StepSurvival(cfg: Config, s: State, op: Op, r: Row)
    requires Inv(cfg, s) && r.id <= s.last
    ensures HasId(Step(cfg, s, op).log, r.id) ==> HasId(s.log, r.id)
    ensures Survives(s.log, r) && Spares(op, r) ==> Survives(Step(cfg, s, op).log, r)
    ensures Survives(s.log, r) && !Spares(op, r) ==> !HasId(Step(cfg, s, op).log, r.id)
    ensures Step(cfg, s, op).last >= s.last
  {
    hide Survives, HasId, Cutoff, KeepFrom, EraseActors, Redact;
    match op
    case OpAppend(key, oldValue, newValue, actor, now) =>
      if !cfg.classifier.secretKey(key) {
        AppendSurvival(s.log, NewRow(cfg, s, key, oldValue, newValue, actor, now), r);
      }
    case OpErase(actor, now) => EraseSurvival(s.log, actor, now, r);
    case OpRetain(years, now) => RetainSurvival(s, years, now, r);
  }

  /** HISTORY IS CONSERVED: over every run a row of the log stays, with its key, values and time unchanged, if and only
      if no retention of the run has a cutoff after it; a removed row's id never comes back. */
  lemma {:induction false} RowsLiveUntilRetention(cfg: Config, s: State, ops: seq<Op>, r: Row)
    requires Inv(cfg, s) && Sane(cfg.classifier) && r in s.log
    ensures (forall k :: 0 <= k < |ops| ==> Spares(ops[k], r)) ==> Survives(Run(cfg, s, ops).log, r)
    ensures !(forall k :: 0 <= k < |ops| ==> Spares(ops[k], r)) ==> !HasId(Run(cfg, s, ops).log, r.id)
    ensures Run(cfg, s, ops).last >= s.last
    decreases |ops|
  {
    if |ops| == 0 {
      assert RowOk(cfg, s, r);
      var i :| 0 <= i < |s.log| && s.log[i] == r;
      assert SameContent(r, s.log[i]);
    } else {
      var before, last := ops[..|ops| - 1], ops[|ops| - 1];
      var mid := Run(cfg, s, before);
      RowsLiveUntilRetention(cfg, s, before, r);
      RunKeeps(cfg, s, before);
      assert RowOk(cfg, s, r);
      StepSurvival(cfg, mid, last, r);
      hide Inv, Step, Survives, HasId, Spares;
      assert forall k :: 0 <= k < |before| ==> before[k] == ops[k];
      if forall k :: 0 <= k < |before| ==> Spares(before[k], r) {
        assert (forall k :: 0 <= k < |ops| ==> Spares(ops[k], r)) <==> Spares(last, r);
      }
    }
  }
}
