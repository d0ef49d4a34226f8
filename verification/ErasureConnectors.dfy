/** Data held by a connected system is never forgotten: flags are raised before anything is destroyed. */
module ErasureConnectors {
  import opened Scrub
  import opened Identify
  import opened ErasureSpec
  import opened ErasureTheorems

  predicate Open(f: ConnectorFlag, id: string, connector: string) {
    f.request == id && f.connector == connector && f.state != Resolved
  }

  ghost predicate HasOpen(flags: seq<ConnectorFlag>, id: string, connector: string) {
    exists i :: 0 <= i < |flags| && Open(flags[i], id, connector)
  }

  /** No connector has two open flags for one request. */
  ghost predicate OneOpen(flags: seq<ConnectorFlag>) {
    forall i, j :: 0 <= i < j < |flags| && flags[i].state != Resolved && flags[j].state != Resolved ==>
      flags[i].request != flags[j].request || flags[i].connector != flags[j].connector
  }

  lemma RaiseFlagExact(flags: seq<ConnectorFlag>, id: string, connector: string)
    ensures flags <= RaiseFlag(flags, id, connector)
    ensures HasOpen(RaiseFlag(flags, id, connector), id, connector)
    ensures OneOpen(flags) ==> OneOpen(RaiseFlag(flags, id, connector))
  {
    var after := RaiseFlag(flags, id, connector);
    if after == flags + [ConnectorFlag(id, connector, Raised)] {
      assert Open(after[|flags|], id, connector);
    } else {
      var i :| 0 <= i < |flags| && flags[i].request == id && flags[i].connector == connector && flags[i].state != Resolved;
      assert Open(after[i], id, connector);
    }
  }

  lemma OpenStays(a: seq<ConnectorFlag>, b: seq<ConnectorFlag>, id: string, connector: string)
    requires a <= b && HasOpen(a, id, connector)
    ensures HasOpen(b, id, connector)
  {
    var i :| 0 <= i < |a| && Open(a[i], id, connector);
    assert Open(b[i], id, connector);
  }

  /** Raising for a list of connectors: flags are only added, each raised connector ends up with an open flag, and one
      open flag per connector stays one. */
  lemma {:induction false} RaiseFlagsExact(env: Env, st: Store, id: string, connectors: seq<string>)
    ensures var (t, raised, _) := RaiseFlags(env, st, id, connectors);
      && st.flags <= t.flags && (OneOpen(st.flags) ==> OneOpen(t.flags))
      && forall c :: c in raised ==> HasOpen(t.flags, id, c)
    decreases |connectors|
  {
    if |connectors| > 0 && !Fails(env, st) {
      var next := RaiseFlag(st.flags, id, connectors[0]);
      RaiseFlagExact(st.flags, id, connectors[0]);
      RaiseFlagsExact(env, Tick(st).(flags := next), id, connectors[1..]);
      OpenStays(next, RaiseFlags(env, Tick(st).(flags := next), id, connectors[1..]).0.flags, id, connectors[0]);
      hide RaiseFlag, OneOpen, HasOpen;
    }
  }

  // ---------------------------------------------------------------- the other phases leave the flags alone

  lemma EarlyPhases(env: Env, st: Store, input: Input)
    ensures Preflight(env, st, input).st.flags == st.flags && IdentifyRecords(env, st, input).st.flags == st.flags
  {
    hide ExecutorReasons, SearchTerms, Distinct3;
  }

  lemma {:induction false} DelinkFlags(env: Env, st: Store, input: Input, ids: seq<string>, idRemoved: nat, redacted: nat)
    ensures Delink(env, st, input, ids, idRemoved, redacted).0.flags == st.flags
    decreases |ids|
  {
    hide Redact, RedactionTerms, Without;
    if |ids| > 0 {
      var id, s1 := ids[0], Tick(st);
      DelinkFlags(env, s1, input, ids[1..], idRemoved, redacted);
      if id in st.memories {
        var m := st.memories[id];
        var scrubbed := if id in input.confirmed then Redact(m.content, RedactionTerms(input.subject)) else (m.content, 0);
        var left := Without(m.entities, input.target);
        DelinkFlags(env, Tick(s1).(memories := st.memories[id := m.(content := scrubbed.0, entities := left)]), input, ids[1..],
                    idRemoved + 1, if id in input.confirmed && scrubbed.1 > 0 then redacted + 1 else redacted);
      }
    }
  }

  lemma {:induction false} MentionFlags(env: Env, st: Store, input: Input, handled: set<string>, ids: seq<string>, idRemoved: nat, redacted: nat)
    ensures RedactMentions(env, st, input, handled, ids, idRemoved, redacted).0.flags == st.flags
    decreases |ids|
  {
    hide Redact, RedactionTerms;
    if |ids| > 0 {
      var id, s1 := ids[0], Tick(st);
      MentionFlags(env, st, input, handled, ids[1..], idRemoved, redacted);
      MentionFlags(env, s1, input, handled, ids[1..], idRemoved, redacted);
      if id in st.memories {
        var m := st.memories[id];
        var scrubbed := Redact(m.content, RedactionTerms(input.subject));
        MentionFlags(env, Tick(s1).(memories := st.memories[id := m.(content := scrubbed.0)]), input, handled, ids[1..], idRemoved, redacted + 1);
      }
    }
  }

  lemma LatePhases(env: Env, st: Store, input: Input, r: Request, existed: bool, report: Report, flags: seq<string>, counts: Counts)
    ensures Mechanism(env, st, input, flags).st.flags == st.flags
    ensures ScrubPhase(env, st, input, report, flags).st.flags == st.flags
    ensures Finish(env, st, input, r, existed, report, flags, counts).0.flags == st.flags
  {
    hide Delink, RedactMentions, Referencing, Distinct3, BlockingLegs;
    if !Fails(env, st) {
      var handled := Referencing(st.memories, input.target);
      DelinkFlags(env, Tick(st), input, env.listing(handled), 0, 0);
      var (s1, first) := Delink(env, Tick(st), input, env.listing(handled), 0, 0);
      MentionFlags(env, s1, input, handled, Once(input.confirmed), first.idRemoved, first.redacted);
    }
  }

  lemma ConnectorsRaised(env: Env, st: Store, input: Input)
    ensures var c := FlagConnectors(env, st, input);
      && st.flags <= c.st.flags && (OneOpen(st.flags) ==> OneOpen(c.st.flags))
      && (c.Go? ==> forall k :: k in env.connectors ==> HasOpen(c.st.flags, input.requestId, k))
  {
    RaiseFlagsExact(env, Tick(st), input.requestId, env.connectors);
    RaiseFlagsEffect(env, Tick(st), input.requestId, env.connectors);
    hide RaiseFlags, OneOpen, HasOpen;
  }

  /** NO CONNECTOR IS FORGOTTEN. Over every pattern of faults a run only adds flags and never opens a second one for a
      connector; and a run that is done, or has changed any memory or entity record, left an open flag for every connector
      it detected. */
  lemma ConnectorsAreFlagged(env: Env, st: Store, input: Input)
    ensures var (t, out) := Execute(env, st, input);
      && st.flags <= t.flags && (OneOpen(st.flags) ==> OneOpen(t.flags))
      && (out.Done? || t.memories != st.memories || t.entities != st.entities ==>
            forall k :: k in env.connectors ==> HasOpen(t.flags, input.requestId, k))
  {
    hide Preflight, IdentifyRecords, FlagConnectors, Mechanism, ScrubPhase, Finish, OneOpen, HasOpen;
    EarlyPhases(env, st, input);
    PreflightEffect(env, st, input);
    var a := Preflight(env, st, input);
    if a.Go? {
      EarlyPhases(env, a.st, input);
      IdentifyEffect(env, a.st, input);
      var b := IdentifyRecords(env, a.st, input);
      if b.Go? {
        ConnectorsRaised(env, b.st, input);
        FlagConnectorsEffect(env, b.st, input);
        var c := FlagConnectors(env, b.st, input);
        if c.Go? {
          var none := Report([], []);
          LatePhases(env, c.st, input, a.value, b.value, none, c.value, NoCounts);
          var d := Mechanism(env, c.st, input, c.value);
          if d.Go? {
            LatePhases(env, d.st, input, a.value, b.value, d.value, c.value, NoCounts);
            var e := ScrubPhase(env, d.st, input, d.value, c.value);
            if e.Go? { LatePhases(env, e.st, input, a.value, b.value, d.value, c.value, e.value); }
          }
        }
      }
    }
  }
}
