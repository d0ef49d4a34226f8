/** The audit record of an erasure overstates and understates nothing. */
module ErasureCounts {
  import opened Wrappers
  import opened Scrub
  import opened Identify
  import opened ErasureSpec
  import opened ErasureTheorems
  import opened ErasureGuarantees

  /** Redacting the row with the subject's terms replaces something. */
  predicate Mentions(input: Input, m: Memory) { Redact(m.content, RedactionTerms(input.subject)).1 > 0 }

  /** The confirmed rows that mention the subject. */
  ghost function ConfirmedMentions(input: Input, m: Memories): set<string> {
    set id | id in m && id in input.confirmed && Mentions(input, m[id])
  }

  ghost function Delinked(input: Input, m: Memories, ids: seq<string>): set<string> {
    set id | id in ids && id in m && id in input.confirmed && Mentions(input, m[id])
  }

  ghost function Mentioned(input: Input, m: Memories, handled: set<string>, ids: seq<string>): set<string> {
    set id | id in ids && id !in handled && id in m && input.target !in m[id].entities && Mentions(input, m[id])
  }

  lemma DelinkedStep(input: Input, m: Memories, mid: Memories, id: string, rest: seq<string>)
    requires id !in rest && id in m && mid.Keys == m.Keys && forall k :: k in m && k != id ==> mid[k] == m[k]
    ensures |Delinked(input, m, [id] + rest)| == |Delinked(input, mid, rest)| + if id in input.confirmed && Mentions(input, m[id]) then 1 else 0
  {
    hide Mentions;
    var one := if id in input.confirmed && Mentions(input, m[id]) then {id} else {};
    assert Delinked(input, m, [id] + rest) == one + Delinked(input, mid, rest);
  }

  lemma {:induction false} DelinkCounts(env: Env, st: Store, input: Input, ids: seq<string>, idRemoved: nat, redacted: nat)
    requires NoDup(ids) && forall id :: id in ids ==> id in st.memories
    ensures var end := Delink(env, st, input, ids, idRemoved, redacted).1;
      end.Finished? ==> end.idRemoved == idRemoved + |ids| && end.redacted == redacted + |Delinked(input, st.memories, ids)|
    decreases |ids|
  {
    hide Redact, RedactionTerms, Without;
    if |ids| == 0 {
      assert Delinked(input, st.memories, []) == {};
    } else {
      var id, s1, rest := ids[0], Tick(st), ids[1..];
      assert id !in rest && NoDup(rest);
      assert ids == [id] + rest;
      var m := st.memories[id];
      var scrubbed := if id in input.confirmed then Redact(m.content, RedactionTerms(input.subject)) else (m.content, 0);
      var mid := st.memories[id := m.(content := scrubbed.0, entities := Without(m.entities, input.target))];
      DelinkCounts(env, Tick(s1).(memories := mid), input, rest, idRemoved + 1,
                   if id in input.confirmed && scrubbed.1 > 0 then redacted + 1 else redacted);
      DelinkedStep(input, st.memories, mid, id, rest);
      hide Delinked;
    }
  }

  lemma MentionedStep(input: Input, m: Memories, mid: Memories, handled: set<string>, id: string, rest: seq<string>)
    requires id !in rest && mid.Keys == m.Keys && forall k :: k in m && k != id ==> mid[k] == m[k]
    ensures |Mentioned(input, m, handled, [id] + rest)| == |Mentioned(input, mid, handled, rest)|
            + if id !in handled && id in m && input.target !in m[id].entities && Mentions(input, m[id]) then 1 else 0
  {
    hide Mentions;
    var one := if id !in handled && id in m && input.target !in m[id].entities && Mentions(input, m[id]) then {id} else {};
    assert Mentioned(input, m, handled, [id] + rest) == one + Mentioned(input, mid, handled, rest);
  }

  lemma {:induction false} MentionCounts(env: Env, st: Store, input: Input, handled: set<string>, ids: seq<string>,
                                         idRemoved: nat, redacted: nat)
    requires NoDup(ids)
    ensures var end := RedactMentions(env, st, input, handled, ids, idRemoved, redacted).1;
      end.Finished? ==> end.idRemoved == idRemoved && end.redacted == redacted + |Mentioned(input, st.memories, handled, ids)|
    decreases |ids|
  {
    hide Redact, RedactionTerms;
    if |ids| == 0 {
      assert Mentioned(input, st.memories, handled, []) == {};
    } else {
      var id, s1, rest := ids[0], Tick(st), ids[1..];
      assert id !in rest && NoDup(rest);
      assert ids == [id] + rest;
      if id in handled {
        MentionCounts(env, st, input, handled, rest, idRemoved, redacted);
        MentionedStep(input, st.memories, st.memories, handled, id, rest);
      } else if id !in st.memories || input.target in st.memories[id].entities || !Mentions(input, st.memories[id]) {
        MentionCounts(env, s1, input, handled, rest, idRemoved, redacted);
        MentionedStep(input, st.memories, st.memories, handled, id, rest);
      } else {
        var m := st.memories[id];
        var mid := st.memories[id := m.(content := Redact(m.content, RedactionTerms(input.subject)).0)];
        MentionCounts(env, Tick(s1).(memories := mid), input, handled, rest, idRemoved, redacted + 1);
        MentionedStep(input, st.memories, mid, handled, id, rest);
      }
      hide Mentioned;
    }
  }

  lemma {:induction false} NoDupSize(s: seq<string>, ids: set<string>)
    requires NoDup(s) && forall x :: x in s <==> x in ids
    ensures |s| == |ids|
    decreases |s|
  {
    if |s| == 0 {
      assert ids == {};
    } else {
      var init, last := s[..|s| - 1], s[|s| - 1];
      assert forall x :: x in s <==> x in init || x == last;
      NoDupSize(init, ids - {last});
    }
  }

  /** The two loops together. */
  lemma MentionsCompose(input: Input, m: Memories, mid: Memories, ids: seq<string>)
    requires forall id :: id in ids <==> id in Referencing(m, input.target)
    requires mid.Keys == m.Keys && forall id :: id in m && id !in ids ==> mid[id] == m[id]
    ensures |Delinked(input, m, ids)| + |Mentioned(input, mid, Referencing(m, input.target), Once(input.confirmed))|
            == |ConfirmedMentions(input, m)|
  {
    hide Mentions, Once;
    var a, b := Delinked(input, m, ids), Mentioned(input, mid, Referencing(m, input.target), Once(input.confirmed));
    assert ConfirmedMentions(input, m) == a + b;
    assert a * b == {};
  }

  lemma ScrubAllCounts(env: Env, st: Store, input: Input)
    requires ListsSets(env.listing)
    ensures var end := ScrubAll(env, st, input).1;
      end.Finished? ==> end.idRemoved == |Referencing(st.memories, input.target)| && end.redacted == |ConfirmedMentions(input, st.memories)|
  {
    hide Delink, RedactMentions, Scrubbed, ConfirmedMentions, Delinked, Mentioned, Once;
    if !Fails(env, st) {
      var handled := Referencing(st.memories, input.target);
      var ids := env.listing(handled);
      assert NoDup(ids) && forall id :: id in ids <==> id in handled;
      NoDupSize(ids, handled);
      DelinkCounts(env, Tick(st), input, ids, 0, 0);
      DelinkEffect(env, Tick(st), input, ids, 0, 0);
      var (s1, first) := Delink(env, Tick(st), input, ids, 0, 0);
      OnceNoDup(input.confirmed);
      if first.Finished? {
        MentionCounts(env, s1, input, handled, Once(input.confirmed), first.idRemoved, first.redacted);
        MentionsCompose(input, st.memories, s1.memories, ids);
      }
    }
  }

  lemma CountsFromMechanism(env: Env, s: Store, input: Input, flags: seq<string>, r: Request, existed: bool)
    requires ListsSets(env.listing) && input.requestId in s.requests
    ensures var out := FromMechanism(env, s, input, flags, r, existed).1;
      Audited(out) ==> env.mechanism(s.memories).1.Some? && out.counts == TrueCounts(env, s.memories, input)
  {
    hide Mechanism, ScrubAll, Finish, Referencing, ConfirmedMentions, OwnWrites, AllScrubbed;
    MechanismEffect(env, s, input, flags);
    var d := Mechanism(env, s, input, flags);
    if d.Go? {
      ScrubAllCounts(env, d.st, input);
      ScrubAllEffect(env, d.st, input);
      var e := ScrubPhase(env, d.st, input, d.value, flags);
      if e.Go? { FinishEffect(env, e.st, input, r, existed, d.value, flags, e.value); }
    }
  }

  /** What the mechanism reported deleted, the rows that still referenced the target after it, and the confirmed rows in
      which a redaction term really occurs. */
  ghost function TrueCounts(env: Env, before: Memories, input: Input): Counts {
    var (left, report) := env.mechanism(before);
    Counts(if report.Some? then |report.value.hardDeleted| else 0, |Referencing(left, input.target)|, |ConfirmedMentions(input, left)|)
  }

  lemma RunCounts(env: Env, st: Store, input: Input)
    requires ListsSets(env.listing)
    ensures var out := Execute(env, st, input).1;
      Audited(out) ==> env.mechanism(st.memories).1.Some? && out.counts == TrueCounts(env, st.memories, input)
  {
    hide Preflight, IdentifyRecords, FlagConnectors, Mechanism, ScrubPhase, Finish, TrueCounts;
    PreflightEffect(env, st, input);
    var a := Preflight(env, st, input);
    if a.Go? {
      IdentifyEffect(env, a.st, input);
      var b := IdentifyRecords(env, a.st, input);
      if b.Go? {
        FlagConnectorsEffect(env, b.st, input);
        var c := FlagConnectors(env, b.st, input);
        if c.Go? { CountsFromMechanism(env, c.st, input, c.value, a.value, b.value); }
      }
    }
  }

  /** The audit record names the people of the request as it was when the run began, and the acting executor. */
  lemma AuditNamesThePeople(env: Env, st: Store, input: Input)
    requires ListsSets(env.listing)
    ensures var (t, out) := Execute(env, st, input);
      Audited(out) ==>
        && input.requestId in st.requests && |t.audits| == |st.audits| + 1 && t.audits[..|st.audits|] == st.audits
        && var a, r := t.audits[|st.audits|], st.requests[input.requestId];
           && a.request == input.requestId && a.requester == r.requester && a.target == input.target && a.executedAt == env.now
           && a.authorizedBy == r.authorizedBy && a.second == r.second && a.authorizedBy.Some? && a.second.Some?
           && a.executor == a.actor == input.executor
           && a.authorizedBy != a.second && a.authorizedBy != Some(a.executor) && a.second != Some(a.executor)
           && a.legalBasis == input.reason && a.originator == input.authz.originator && a.counts == out.counts
  {
    hide Execute, Referencing, AllScrubbed, OwnWrites;
    ExecuteEffect(env, st, input);
  }

  /** HONEST COUNTS. The audit record of every run that wrote one holds the true counts. */
  lemma CountsAreHonest(env: Env, st: Store, input: Input)
    requires ListsSets(env.listing)
    ensures var (t, out) := Execute(env, st, input);
      Audited(out) ==> |t.audits| == |st.audits| + 1 && t.audits[|st.audits|].counts == TrueCounts(env, st.memories, input)
  {
    hide Execute, TrueCounts, Audited;
    RunCounts(env, st, input);
    AuditNamesThePeople(env, st, input);
  }
}
