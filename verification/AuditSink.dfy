/** The in-memory audit sink, updated in place (app/config-store/src/store.ts). */
module AuditSink {
  import opened Wrappers
  import opened CredentialRedaction
  import opened AuditSpec
  import opened AuditTheorems

  /** The log without the rows of the given ids, in order. */
  function DropIds(log: seq<Row>, ids: set<nat>): seq<Row> {
    if |log| == 0 then [] else (if log[0].id in ids then [] else [log[0]]) + DropIds(log[1..], ids)
  }

  function IdsOlder(log: seq<Row>, cutoff: int): seq<nat> {
    if |log| == 0 then [] else IdsOlder(log[..|log| - 1], cutoff) + if log[|log| - 1].changedAt < cutoff then [log[|log| - 1].id] else []
  }

  lemma {:induction false} DropNone(log: seq<Row>, ids: set<nat>)
    requires forall r :: r in log ==> r.id !in ids
    ensures DropIds(log, ids) == log
  {
    if |log| > 0 {
      DropNone(log[1..], ids);
      assert log == [log[0]] + log[1..];
    }
  }

  lemma {:induction false} DropMembers(log: seq<Row>, ids: set<nat>)
    ensures forall r :: r in DropIds(log, ids) <==> r in log && r.id !in ids
    ensures Rising(log) ==> Rising(DropIds(log, ids))
  {
    if |log| > 0 {
      DropMembers(log[1..], ids);
      assert log == [log[0]] + log[1..];
      if Rising(log) {
        RisingTail(log);
        RisingCons(log[0], DropIds(log[1..], ids));
      }
      hide Rising;
    }
  }

  /** Splicing out the row at i is dropping its id. */
  lemma {:induction false} SpliceIsDrop(log: seq<Row>, i: nat)
    requires Rising(log) && i < |log|
    ensures DropIds(log, {log[i].id}) == log[..i] + log[i + 1..]
  {
    RisingTail(log);
    if i == 0 {
      DropNone(log[1..], {log[0].id});
    } else {
      SpliceIsDrop(log[1..], i - 1);
      assert log[1..][i - 1].id == log[i].id;
      assert log[..i] + log[i + 1..] == [log[0]] + (log[1..][..i - 1] + log[1..][i..]);
      assert log[0].id != log[i].id;
    }
  }

  lemma {:induction false} DropTwice(log: seq<Row>, a: set<nat>, b: set<nat>)
    ensures DropIds(DropIds(log, a), b) == DropIds(log, a + b)
  {
    if |log| > 0 {
      DropTwice(log[1..], a, b);
      var h, rest := log[0], DropIds(log[1..], a);
      if h.id !in a {
        assert DropIds(log, a) == [h] + rest && ([h] + rest)[1..] == rest;
        assert DropIds([h] + rest, b) == (if h.id in b then [] else [h]) + DropIds(rest, b);
      } else {
        assert DropIds(log, a) == rest;
      }
    }
  }

  /** Dropping the older ids is keeping the rows from the cutoff on. */
  lemma {:induction false} DropOlderIsKeep(log: seq<Row>, all: seq<Row>, cutoff: int, ids: set<nat>)
    requires forall r :: r in log ==> r in all
    requires forall r :: r in all ==> (r.id in ids <==> r.changedAt < cutoff)
    ensures DropIds(log, ids) == KeepFrom(log, cutoff)
  {
    if |log| > 0 {
      assert log[0] in all;
      DropOlderIsKeep(log[1..], all, cutoff, ids);
    }
  }

  lemma {:induction false} OlderExact(log: seq<Row>, cutoff: int)
    ensures forall id :: id in IdsOlder(log, cutoff) <==> id in IdsBefore(log, cutoff)
    ensures |IdsOlder(log, cutoff)| + |KeepFrom(log, cutoff)| == |log|
  {
    if |log| > 0 {
      var init, last := log[..|log| - 1], log[|log| - 1];
      OlderExact(init, cutoff);
      assert log == init + [last];
      KeepAppend(init, last, cutoff);
    }
  }

  lemma {:induction false} KeepAppend(log: seq<Row>, r: Row, cutoff: int)
    ensures KeepFrom(log + [r], cutoff) == KeepFrom(log, cutoff) + if r.changedAt >= cutoff then [r] else []
  {
    if |log| == 0 {
      assert log + [r] == [r];
      assert KeepFrom([r][1..], cutoff) == [];
    } else {
      KeepAppend(log[1..], r, cutoff);
      assert (log + [r])[1..] == log[1..] + [r] && (log + [r])[0] == log[0];
      Assoc(if log[0].changedAt >= cutoff then [log[0]] else [], KeepFrom(log[1..], cutoff), if r.changedAt >= cutoff then [r] else []);
    }
  }

  function Members(ids: seq<nat>): set<nat> {
    set id | id in ids
  }

  /** Dropping the scanned ids is what retention specifies. */
  lemma PrunedLog(log: seq<Row>, cutoff: int)
    requires Rising(log)
    ensures Members(IdsOlder(log, cutoff)) == IdsBefore(log, cutoff)
    ensures DropIds(log, IdsBefore(log, cutoff)) == KeepFrom(log, cutoff)
    ensures |IdsOlder(log, cutoff)| + |KeepFrom(log, cutoff)| == |log|
  {
    OlderExact(log, cutoff);
    forall r | r in log ensures r.id in IdsBefore(log, cutoff) <==> r.changedAt < cutoff { InIdsBefore(log, cutoff, r); }
    DropOlderIsKeep(log, log, cutoff, IdsBefore(log, cutoff));
  }

  class AuditLog {
    const cfg: Config
    var last: nat
    var log: seq<Row>
    var integrity: map<nat, nat>
    var pruning: bool
    var runs: seq<RetentionResult>

    ghost function View(): State
      reads this
    {
      State(last, log, integrity, pruning, runs)
    }

    constructor (cfg: Config)
      ensures this.cfg == cfg && View() == Empty
    {
      this.cfg := cfg;
      last, log, integrity, pruning, runs := 0, [], map[], false, [];
    }

    method AppendAudit(key: string, oldValue: Json, newValue: Json, actor: Option<string>, now: int) returns (r: Result<Row, Error>)
      modifies this
      ensures (View(), r) == Append(cfg, old(View()), key, oldValue, newValue, actor, now)
    {
      if cfg.classifier.secretKey(key) { return Err(SecretKey(key)); }
      var before: Json := JNull;
      if oldValue != JNull { before := RedactCredentialMaterial(cfg.classifier, oldValue); }
      var after := RedactCredentialMaterial(cfg.classifier, newValue);
      last := last + 1;
      var row := Row(last, key, before, after, actor, None, now);
      log := log + [row];
      integrity := integrity[row.id := HashOf(cfg, row)];
      r := Ok(row);
    }

    method ExportAudit(from: int, to: int, groups: seq<string>, permissions: seq<string>) returns (r: Result<seq<Row>, Error>)
      ensures r == Export(cfg, View(), from, to, groups, permissions)
    {
      if DOWNLOAD_PERMISSION !in permissions { return Err(ExportDenied); }
      var rows := Select(cfg, log, from, to, groups);
      assert rows[0..] == rows;
      for i := 0 to |rows|
        invariant FirstTampered(cfg, View(), rows) == FirstTampered(cfg, View(), rows[i..])
      {
        assert rows[i..][1..] == rows[i + 1..];
        if !(rows[i].id in integrity && integrity[rows[i].id] == HashOf(cfg, rows[i])) {
          return Err(ExportAborted(rows[i].id));
        }
      }
      r := Ok(rows);
    }

    /** The only path that deletes a row: it refuses outside a retention run. */
    method DeleteRowForRetention(id: nat) returns (e: Option<Error>)
      requires Rising(log)
      modifies this`log, this`integrity
      ensures !old(pruning) ==> e == Some(DeleteForbidden) && View() == old(View())
      ensures old(pruning) ==> e == None && log == DropIds(old(log), {id}) && integrity == old(integrity) - {id}
    {
      if !pruning { return Some(DeleteForbidden); }
      var idx := 0;
      while idx < |log| && log[idx].id != id
        invariant idx <= |log| && forall k :: 0 <= k < idx ==> log[k].id != id
      {
        idx := idx + 1;
      }
      if idx < |log| {
        SpliceIsDrop(log, idx);
        log := log[..idx] + log[idx + 1..];
      } else {
        DropNone(log, {id});
      }
      integrity := integrity - {id};
      e := None;
    }

    /** Outside a retention run every delete is refused and changes nothing. */
    method AttemptNonRetentionDelete(id: nat) returns (e: Option<Error>)
      requires Rising(log) && !pruning
      modifies this`log, this`integrity
      ensures e == Some(DeleteForbidden) && View() == old(View())
    {
      e := DeleteRowForRetention(id);
    }

    /** The ids of the rows past the floor, and how many rows are inside it. */
    method ScanForRetention(cutoff: int) returns (toPrune: seq<nat>, protected: nat)
      ensures toPrune == IdsOlder(log, cutoff) && protected == |KeepFrom(log, cutoff)|
    {
      toPrune, protected := [], 0;
      assert log[..0] == [];
      for i := 0 to |log|
        invariant toPrune == IdsOlder(log[..i], cutoff) && protected == |KeepFrom(log[..i], cutoff)|
      {
        assert log[..i + 1] == log[..i] + [log[i]];
        KeepAppend(log[..i], log[i], cutoff);
        if log[i].changedAt >= cutoff { protected := protected + 1; } else { toPrune := toPrune + [log[i].id]; }
      }
      assert log[..|log|] == log;
    }

    /** Delete the listed rows one by one. */
    method DeleteAll(toPrune: seq<nat>) returns (pruned: nat)
      requires Rising(log) && pruning
      modifies this`log, this`integrity
      ensures log == DropIds(old(log), Members(toPrune)) && integrity == old(integrity) - Members(toPrune)
      ensures pruned == |toPrune|
    {
      ghost var start := log;
      pruned := 0;
      DropNone(start, {});
      assert Members(toPrune[..0]) == {};
      for i := 0 to |toPrune|
        invariant pruned == i
        invariant log == DropIds(start, Members(toPrune[..i])) && integrity == old(integrity) - Members(toPrune[..i])
      {
        ghost var gone := Members(toPrune[..i]);
        DropMembers(start, gone);
        var _ := DeleteRowForRetention(toPrune[i]);
        DropTwice(start, gone, {toPrune[i]});
        assert toPrune[..i + 1] == toPrune[..i] + [toPrune[i]];
        assert Members(toPrune[..i + 1]) == gone + {toPrune[i]};
        hide DropIds, Members, Rising;
        pruned := pruned + 1;
      }
      assert toPrune[..|toPrune|] == toPrune;
    }

    method RunRetention(years: int, now: int) returns (result: RetentionResult)
      requires Rising(log) && !pruning
      modifies this
      ensures View() == Retain(old(View()), years, now)
      ensures runs == old(runs) + [result]
    {
      hide Cutoff;
      var cutoff := Cutoff(years, now);
      var toPrune, protected := ScanForRetention(cutoff);
      pruning := true;
      var pruned := DeleteAll(toPrune);
      pruning := false;
      result := RetentionResult(pruned, protected, years, now);
      runs := runs + [result];
      PrunedLog(old(log), cutoff);
    }

    method RedactActor(actor: string, now: int) returns (count: nat)
      modifies this`log
      ensures log == EraseActors(old(log), actor, now) && count == CountActor(old(log), actor)
    {
      count := 0;
      ghost var start := log;
      for i := 0 to |log|
        invariant |log| == |start| && count == CountActor(start[..i], actor)
        invariant forall k :: 0 <= k < i ==> log[k] == EraseActor(start[k], actor, now)
        invariant forall k :: i <= k < |log| ==> log[k] == start[k]
      {
        assert start[..i + 1][..i] == start[..i];
        if log[i].actor == Some(actor) {
          log := log[i := log[i].(actor := None, redactedAt := Some(now))];
          count := count + 1;
        }
      }
      assert start[..|start|] == start;
      assert log == EraseActors(start, actor, now);
    }
  }
}
