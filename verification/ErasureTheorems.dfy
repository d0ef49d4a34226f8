/** What an erasure run guarantees, for every pattern of port faults and every report of the deletion mechanism. */
module ErasureTheorems {
  import opened Wrappers
  import opened Scrub
  import opened Identify
  import opened IdentifyTheorems
  import opened ErasureSpec

  /** The store returns a set of ids as a list of its elements without repetition. */
  ghost predicate ListsSets(listing: set<string> -> seq<string>) {
    forall ids: set<string> :: NoDup(listing(ids)) && forall x :: x in listing(ids) <==> x in ids
  }

  // ---------------------------------------------------------------- what each phase leaves alone

  predicate SameRecords(s: Store, t: Store) {
    t.entities == s.entities && t.audits == s.audits && t.requests == s.requests && t.frozenAt == s.frozenAt
  }

  lemma NoReasons(r: Request, executor: string, permissions: seq<string>)
    ensures |ExecutorReasons(r, executor, permissions)| == 0 <==>
      && DELETE_PERMISSION in permissions && executor != "" && Present(r.authorizedBy) && Present(r.second)
      && r.authorizedBy != r.second && r.authorizedBy != Some(executor) && r.second != Some(executor)
  {
  }

  lemma PreflightEffect(env: Env, st: Store, input: Input)
    ensures var a := Preflight(env, st, input);
      && a.st.memories == st.memories && a.st.entities == st.entities && a.st.audits == st.audits && a.st.frozenAt == st.frozenAt
      && (a.Stop? ==> !a.out.Done? && a.st.requests == st.requests && (a.out.Held? ==> a.out.why != StatusFlipFailed))
      && (a.Go? ==> && input.requestId in st.requests && a.value == st.requests[input.requestId] && st.frozenAt.None?
                    && |ExecutorReasons(a.value, input.executor, input.permissions)| == 0 && input.authz.actor == input.executor
                    && a.st.requests == st.requests[input.requestId := a.value.(executor := Some(input.executor))])
  {
    hide ExecutorReasons, Emit, Distinct3;
  }

  lemma IdentifyEffect(env: Env, st: Store, input: Input)
    ensures var b := IdentifyRecords(env, st, input);
      && SameRecords(st, b.st) && b.st.memories == st.memories
      && (b.Stop? ==> b.out.Held? && b.out.why == IdentifyFailed)
      && (b.Go? ==> b.value == (input.target in st.entities))
  {
    hide SearchTerms;
  }

  lemma {:induction false} RaiseFlagsEffect(env: Env, st: Store, id: string, connectors: seq<string>)
    ensures SameRecords(st, RaiseFlags(env, st, id, connectors).0) && RaiseFlags(env, st, id, connectors).0.memories == st.memories
    ensures RaiseFlags(env, st, id, connectors).1 <= connectors
    ensures RaiseFlags(env, st, id, connectors).2 <==> RaiseFlags(env, st, id, connectors).1 == connectors
    decreases |connectors|
  {
    if |connectors| > 0 && !Fails(env, st) {
      RaiseFlagsEffect(env, Tick(st).(flags := RaiseFlag(st.flags, id, connectors[0])), id, connectors[1..]);
      assert connectors == [connectors[0]] + connectors[1..];
    }
  }

  lemma FlagConnectorsEffect(env: Env, st: Store, input: Input)
    ensures var c := FlagConnectors(env, st, input);
      && SameRecords(st, c.st) && c.st.memories == st.memories
      && (c.Stop? ==> c.out.Held? && c.out.why == ConnectorDetectionFailed)
      && (c.Go? ==> c.value == env.connectors)
  {
    RaiseFlagsEffect(env, Tick(st), input.requestId, env.connectors);
  }

  lemma MechanismEffect(env: Env, st: Store, input: Input, flags: seq<string>)
    ensures var d := Mechanism(env, st, input, flags);
      && SameRecords(st, d.st)
      && (d.st.memories == st.memories || d.st.memories == env.mechanism(st.memories).0)
      && (d.Stop? ==> d.out.Held? && d.out.why != StatusFlipFailed)
      && (d.Go? ==> d.st.memories == env.mechanism(st.memories).0 && env.mechanism(st.memories).1 == Some(d.value)
                    && |d.value.legs| > 0 && forall l :: l in d.value.legs ==> LegAcceptable(l))
  {
    var report := env.mechanism(st.memories).1;
    if report.Some? {
      FilterMembers(report.value.legs, (l: Leg) => !LegAcceptable(l));
      assert forall l :: l in report.value.legs && !LegAcceptable(l) ==> l in BlockingLegs(report.value.legs);
    }
  }

  // ---------------------------------------------------------------- the orchestrator's own memory writes

  /** A row with the target removed and, if confirmed, its content redacted. */
  function Scrubbed(input: Input, id: string, m: Memory): Memory {
    m.(content := if id in input.confirmed then Redact(m.content, RedactionTerms(input.subject)).0 else m.content,
       entities := Without(m.entities, input.target))
  }

  /** No row appears or disappears; a row changes only by being scrubbed, only if it references the target or is
      confirmed, and never to an empty id list. */
  ghost predicate OwnWrites(input: Input, before: Memories, after: Memories) {
    && after.Keys == before.Keys
    && forall id :: id in before ==>
         after[id] == before[id]
         || (after[id] == Scrubbed(input, id, before[id]) && |after[id].entities| > 0
             && (input.target in before[id].entities || id in input.confirmed))
  }

  /** Every row is in its scrubbed form. */
  ghost predicate AllScrubbed(input: Input, before: Memories, after: Memories) {
    after.Keys == before.Keys && forall id :: id in before ==> after[id] == Scrubbed(input, id, before[id])
  }

  lemma WithoutAbsent(entities: seq<string>, target: string)
    requires target !in entities
    ensures Without(entities, target) == entities
  {
    WithoutFixed(entities, target);
  }

  lemma {:induction false} WithoutFixed(entities: seq<string>, target: string)
    ensures target !in Without(entities, target)
    ensures target !in entities ==> Without(entities, target) == entities
    ensures forall e :: e in Without(entities, target) <==> e in entities && e != target
    ensures |entities| > 0 && target !in entities ==> |Without(entities, target)| > 0
  {
    FilterMembers(entities, e => e != target);
    if |entities| > 0 {
      WithoutFixed(entities[1..], target);
      assert entities == [entities[0]] + entities[1..];
    }
  }

  /** What de-linking a list of rows does to each row. */
  ghost predicate DelinkedBy(input: Input, before: Memories, after: Memories, ids: seq<string>, all: bool) {
    && after.Keys == before.Keys
    && forall id :: id in before ==>
         if id in ids then
           (after[id] == Scrubbed(input, id, before[id]) && |after[id].entities| > 0) || (!all && after[id] == before[id])
         else after[id] == before[id]
  }

  /** One row, then the rest of the list. */
  lemma DelinkedCons(input: Input, before: Memories, mid: Memories, after: Memories, id: string, rest: seq<string>, all: bool)
    requires id !in rest && DelinkedBy(input, mid, after, rest, all)
    requires (id !in before && mid == before)
             || (id in before && mid == before[id := Scrubbed(input, id, before[id])] && |mid[id].entities| > 0)
    ensures DelinkedBy(input, before, after, [id] + rest, all)
  {
    hide Scrubbed;
  }

  lemma NothingDelinked(input: Input, m: Memories, ids: seq<string>)
    ensures DelinkedBy(input, m, m, ids, false)
    ensures |ids| == 0 ==> DelinkedBy(input, m, m, ids, true)
  {
    hide Scrubbed;
  }

  lemma {:induction false} DelinkEffect(env: Env, st: Store, input: Input, ids: seq<string>, idRemoved: nat, redacted: nat)
    requires NoDup(ids)
    ensures var (t, end) := Delink(env, st, input, ids, idRemoved, redacted);
      && SameRecords(st, t) && DelinkedBy(input, st.memories, t.memories, ids, end.Finished?)
      && (end.Halted? ==> end.why != StatusFlipFailed)
    decreases |ids|
  {
    hide Redact, RedactionTerms, Without, DelinkedBy;
    NothingDelinked(input, st.memories, ids);
    if |ids| > 0 && !Fails(env, st) {
      var id, s1, rest := ids[0], Tick(st), ids[1..];
      var (t, end) := Delink(env, st, input, ids, idRemoved, redacted);
      assert id !in rest && NoDup(rest);
      assert ids == [id] + rest;
      if id !in st.memories {
        DelinkEffect(env, s1, input, rest, idRemoved, redacted);
        DelinkedCons(input, st.memories, st.memories, t.memories, id, rest, end.Finished?);
      } else {
        var m := st.memories[id];
        var next := Scrubbed(input, id, m);
        if |m.entities| > 1 && !Fails(env, s1) && |next.entities| > 0 {
          var scrubbed := if id in input.confirmed then Redact(m.content, RedactionTerms(input.subject)) else (m.content, 0);
          DelinkEffect(env, Tick(s1).(memories := st.memories[id := next]), input, rest, idRemoved + 1,
                       if id in input.confirmed && scrubbed.1 > 0 then redacted + 1 else redacted);
          DelinkedCons(input, st.memories, st.memories[id := next], t.memories, id, rest, end.Finished?);
        }
      }
    }
  }

  /** What redacting confirmed mentions does to each row. */
  ghost predicate RedactedBy(input: Input, before: Memories, after: Memories, handled: set<string>, ids: seq<string>, all: bool) {
    && after.Keys == before.Keys
    && forall id :: id in before ==>
         if id in ids && id !in handled && input.target !in before[id].entities then
           (after[id] == Scrubbed(input, id, before[id]) && (after[id] == before[id] || |after[id].entities| > 0))
           || (!all && after[id] == before[id])
         else after[id] == before[id]
  }

  lemma MentionScrubbed(input: Input, id: string, m: Memory)
    requires id in input.confirmed && input.target !in m.entities
    ensures Scrubbed(input, id, m) == m.(content := Redact(m.content, RedactionTerms(input.subject)).0)
    ensures Redact(m.content, RedactionTerms(input.subject)).1 == 0 ==> Scrubbed(input, id, m) == m
  {
    WithoutAbsent(m.entities, input.target);
    if Redact(m.content, RedactionTerms(input.subject)).1 == 0 {
      NoPassesSame(m.content, Ordered(RedactionTerms(input.subject)));
    }
  }

  /** One row, then the rest of the list. */
  lemma RedactedCons(input: Input, before: Memories, mid: Memories, after: Memories, handled: set<string>,
                     id: string, rest: seq<string>, all: bool)
    requires id !in rest && RedactedBy(input, mid, after, handled, rest, all)
    requires mid == before
             || (id in before && id !in handled && input.target !in before[id].entities
                 && mid == before[id := Scrubbed(input, id, before[id])] && |mid[id].entities| > 0)
    requires mid == before && all && id in before && id !in handled && input.target !in before[id].entities ==>
               before[id] == Scrubbed(input, id, before[id])
    ensures RedactedBy(input, before, after, handled, [id] + rest, all)
  {
    hide Scrubbed;
  }

  lemma {:induction false} RedactMentionsEffect(env: Env, st: Store, input: Input, handled: set<string>, ids: seq<string>,
                                                idRemoved: nat, redacted: nat)
    requires NoDup(ids) && forall id :: id in ids ==> id in input.confirmed
    ensures var (t, end) := RedactMentions(env, st, input, handled, ids, idRemoved, redacted);
      && SameRecords(st, t) && RedactedBy(input, st.memories, t.memories, handled, ids, end.Finished?)
      && (end.Halted? ==> end.why != StatusFlipFailed)
    decreases |ids|
  {
    hide Redact, RedactionTerms, Scrubbed, Without;
    if |ids| == 0 {
    } else {
      var id, s1, rest := ids[0], Tick(st), ids[1..];
      assert id !in rest && id in input.confirmed;
      assert ids == [id] + rest;
      var (t, end) := RedactMentions(env, st, input, handled, ids, idRemoved, redacted);
      if id in handled {
        RedactMentionsEffect(env, st, input, handled, rest, idRemoved, redacted);
        RedactedCons(input, st.memories, st.memories, t.memories, handled, id, rest, end.Finished?);
      } else if Fails(env, st) {
      } else if id !in st.memories || input.target in st.memories[id].entities {
        RedactMentionsEffect(env, s1, input, handled, rest, idRemoved, redacted);
        RedactedCons(input, st.memories, st.memories, t.memories, handled, id, rest, end.Finished?);
      } else {
        var m := st.memories[id];
        MentionScrubbed(input, id, m);
        if Redact(m.content, RedactionTerms(input.subject)).1 == 0 {
          RedactMentionsEffect(env, s1, input, handled, rest, idRemoved, redacted);
          RedactedCons(input, st.memories, st.memories, t.memories, handled, id, rest, end.Finished?);
        } else if !Fails(env, s1) && |m.entities| > 0 {
          var mid := st.memories[id := Scrubbed(input, id, m)];
          RedactMentionsEffect(env, Tick(s1).(memories := mid), input, handled, rest, idRemoved, redacted + 1);
          RedactedCons(input, st.memories, mid, t.memories, handled, id, rest, end.Finished?);
        }
      }
    }
  }
}
