/** The main guarantees of an erasure run: done means verified, a run that is not done changes no status, third parties
    are conserved, and interrupted runs converge. */
module ErasureGuarantees {
  import opened Wrappers
  import opened Scrub
  import opened ScrubTheorems
  import opened Identify
  import opened ErasureSpec
  import opened ErasureTheorems

  lemma {:induction false} OnceNoDup(ids: seq<string>)
    ensures NoDup(Once(ids))
  {
    if |ids| > 0 {
      OnceNoDup(ids[..|ids| - 1]);
    }
  }

  /** De-linking the referencing rows and redacting the confirmed others, taken together. */
  lemma WritesCompose(input: Input, before: Memories, mid: Memories, after: Memories, ids: seq<string>, all: bool)
    requires forall id :: id in ids <==> id in Referencing(before, input.target)
    requires DelinkedBy(input, before, mid, ids, true)
    requires RedactedBy(input, mid, after, Referencing(before, input.target), Once(input.confirmed), all)
    ensures OwnWrites(input, before, after)
    ensures all ==> AllScrubbed(input, before, after)
  {
    forall id | id in before
      ensures after[id] == before[id]
              || (after[id] == Scrubbed(input, id, before[id]) && |after[id].entities| > 0
                  && (input.target in before[id].entities || id in input.confirmed))
      ensures all ==> after[id] == Scrubbed(input, id, before[id])
    {
      if id !in ids {
        WithoutAbsent(before[id].entities, input.target);
        hide Redact, RedactionTerms, Without;
        assert mid[id] == before[id];
      } else {
        hide Scrubbed;
        assert after[id] == mid[id];
      }
    }
  }

  lemma HaltedWrites(input: Input, before: Memories, mid: Memories, ids: seq<string>)
    requires forall id :: id in ids <==> id in Referencing(before, input.target)
    requires DelinkedBy(input, before, mid, ids, false)
    ensures OwnWrites(input, before, mid)
  {
    hide Scrubbed;
  }

  lemma ScrubAllEffect(env: Env, st: Store, input: Input)
    requires ListsSets(env.listing)
    ensures var (t, end) := ScrubAll(env, st, input);
      && SameRecords(st, t) && OwnWrites(input, st.memories, t.memories)
      && (end.Finished? ==> AllScrubbed(input, st.memories, t.memories))
      && (end.Halted? ==> end.why != StatusFlipFailed)
  {
    hide OwnWrites, AllScrubbed, DelinkedBy, RedactedBy, Delink, RedactMentions;
    if Fails(env, st) {
      NoWrites(input, st.memories);
    } else {
      var handled := Referencing(st.memories, input.target);
      var ids := env.listing(handled);
      DelinkEffect(env, Tick(st), input, ids, 0, 0);
      var (s1, first) := Delink(env, Tick(st), input, ids, 0, 0);
      if first.Halted? {
        HaltedWrites(input, st.memories, s1.memories, ids);
      } else {
        OnceNoDup(input.confirmed);
        RedactMentionsEffect(env, s1, input, handled, Once(input.confirmed), first.idRemoved, first.redacted);
        var (t, end) := RedactMentions(env, s1, input, handled, Once(input.confirmed), first.idRemoved, first.redacted);
        WritesCompose(input, st.memories, s1.memories, t.memories, ids, end.Finished?);
      }
    }
  }

  lemma NoWrites(input: Input, m: Memories)
    ensures OwnWrites(input, m, m)
  {
  }

  lemma ScrubPhaseEffect(env: Env, st: Store, input: Input, report: Report, flags: seq<string>)
    requires ListsSets(env.listing)
    ensures var e := ScrubPhase(env, st, input, report, flags);
      && SameRecords(st, e.st) && OwnWrites(input, st.memories, e.st.memories)
      && (e.Go? ==> AllScrubbed(input, st.memories, e.st.memories) && e.value.hardDeleted == |report.hardDeleted|)
      && (e.Stop? ==> e.out.Held? && e.out.why != StatusFlipFailed)
  {
    ScrubAllEffect(env, st, input);
    hide ScrubAll, OwnWrites, AllScrubbed;
  }

  // ---------------------------------------------------------------- the last phase

  /** The run ended done or failed only in flipping the status: exactly these runs write an audit record. */
  predicate Audited(out: Outcome) {
    out.Done? || (out.Held? && out.why == StatusFlipFailed)
  }

  function MarkedExecuted(r: Request, now: int): Request { r.(status := Executed, executedAt := Some(now)) }

  lemma FinishEffect(env: Env, st: Store, input: Input, r: Request, existed: bool, report: Report, flags: seq<string>, counts: Counts)
    requires input.requestId in st.requests
    ensures var (t, out) := Finish(env, st, input, r, existed, report, flags, counts);
      && t.memories == st.memories && t.frozenAt == st.frozenAt
      && (t.entities == st.entities || t.entities == st.entities - {input.target})
      && (t.entities != st.entities ==> Referencing(t.memories, input.target) == {})
      && (Audited(out) ==> Referencing(t.memories, input.target) == {} && (existed ==> t.entities == st.entities - {input.target}))
      && t.audits == (if Audited(out) then st.audits + [AuditOf(env, input, r, counts)] else st.audits)
      && t.requests == (if out.Done? then st.requests[input.requestId := MarkedExecuted(st.requests[input.requestId], env.now)] else st.requests)
      && (Audited(out) ==> out.counts == counts)
      && (out.Done? ==> Distinct3(t.requests[input.requestId]) && out.verified == report)
  {
    hide Referencing, Distinct3;
  }

  // ---------------------------------------------------------------- the whole run

  lemma RequestsCompose(env: Env, st: Store, input: Input, mid: Store, t: Store, out: Outcome, r: Request)
    requires input.requestId in st.requests && r == st.requests[input.requestId]
    requires mid.requests == st.requests[input.requestId := r.(executor := Some(input.executor))]
    requires t.requests == if out.Done? then mid.requests[input.requestId := MarkedExecuted(mid.requests[input.requestId], env.now)]
                           else mid.requests
    ensures t.requests.Keys == st.requests.Keys
    ensures forall id :: id in st.requests && id != input.requestId ==> t.requests[id] == st.requests[id]
    ensures t.requests[input.requestId] == if out.Done? then MarkedExecuted(r.(executor := Some(input.executor)), env.now)
                                           else r.(executor := Some(input.executor))
  {
  }

  /** Everything one run does, in every case. */
  ghost predicate RunEffect(env: Env, st: Store, input: Input, t: Store, out: Outcome) {
    && t.frozenAt == st.frozenAt
    && (t.memories == st.memories || OwnWrites(input, env.mechanism(st.memories).0, t.memories))
    && (t.entities == st.entities || (t.entities == st.entities - {input.target} && Referencing(t.memories, input.target) == {}))
    && t.requests.Keys == st.requests.Keys
    && (forall id :: id in st.requests && id != input.requestId ==> t.requests[id] == st.requests[id])
    && (input.requestId in st.requests ==>
          var r, u := st.requests[input.requestId], t.requests[input.requestId];
          && (!out.Done? ==> u == r || u == r.(executor := Some(input.executor)))
          && (out.Done? ==> u == MarkedExecuted(r.(executor := Some(input.executor)), env.now)))
    && (!Audited(out) ==> t.audits == st.audits)
  }

  /** What a done run, and a run that failed only in flipping the status, have verified. */
  ghost predicate Verified(env: Env, st: Store, input: Input, t: Store, out: Outcome) {
    && Audited(out) && input.requestId in st.requests && st.frozenAt.None?
    && (var r := st.requests[input.requestId];
        && DELETE_PERMISSION in input.permissions && input.executor != "" && input.authz.actor == input.executor
        && Present(r.authorizedBy) && Present(r.second)
        && r.authorizedBy != r.second && r.authorizedBy != Some(input.executor) && r.second != Some(input.executor)
        && t.audits == st.audits + [AuditOf(env, input, r, out.counts)])
    && (var (mem, report) := env.mechanism(st.memories);
        && report.Some? && |report.value.legs| > 0 && (forall l :: l in report.value.legs ==> LegAcceptable(l))
        && (out.Done? ==> out.verified == report.value)
        && out.counts.hardDeleted == |report.value.hardDeleted|
        && AllScrubbed(input, mem, t.memories))
    && Referencing(t.memories, input.target) == {}
    && t.entities == st.entities - {input.target}
  }

  lemma ExecuteEffect(env: Env, st: Store, input: Input)
    requires ListsSets(env.listing)
    ensures var (t, out) := Execute(env, st, input);
      RunEffect(env, st, input, t, out) && (Audited(out) ==> Verified(env, st, input, t, out))
  {
    hide Preflight, IdentifyRecords, FlagConnectors, Mechanism, ScrubPhase, Finish, OwnWrites, AllScrubbed, ExecutorReasons, Referencing;
    PreflightEffect(env, st, input);
    var a := Preflight(env, st, input);
    if a.Go? {
      IdentifyEffect(env, a.st, input);
      var b := IdentifyRecords(env, a.st, input);
      if b.Go? {
        FlagConnectorsEffect(env, b.st, input);
        var c := FlagConnectors(env, b.st, input);
        if c.Go? {
          AfterFlags(env, st, input, a.st, c.st, c.value, a.value, b.value);
        }
      }
    }
  }

  /** The run from the mechanism on. */
  function FromMechanism(env: Env, s: Store, input: Input, flags: seq<string>, r: Request, existed: bool): (Store, Outcome) {
    var d := Mechanism(env, s, input, flags);
    if d.Stop? then (d.st, d.out)
    else
      var e := ScrubPhase(env, d.st, input, d.value, flags);
      if e.Stop? then (e.st, e.out)
      else Finish(env, e.st, input, r, existed, d.value, flags, e.value)
  }

  lemma AfterFlags(env: Env, st: Store, input: Input, a: Store, s: Store, flags: seq<string>, r: Request, existed: bool)
    requires ListsSets(env.listing)
    requires s.memories == st.memories && s.entities == st.entities && s.audits == st.audits && s.frozenAt == st.frozenAt
    requires s.requests == a.requests
    requires input.requestId in st.requests && r == st.requests[input.requestId] && st.frozenAt.None?
    requires |ExecutorReasons(r, input.executor, input.permissions)| == 0 && input.authz.actor == input.executor
    requires a.requests == st.requests[input.requestId := r.(executor := Some(input.executor))]
    requires existed == (input.target in st.entities)
    ensures var (t, out) := FromMechanism(env, s, input, flags, r, existed);
      RunEffect(env, st, input, t, out) && (Audited(out) ==> Verified(env, st, input, t, out))
  {
    NoReasons(r, input.executor, input.permissions);
    hide Mechanism, ScrubPhase, Finish, OwnWrites, AllScrubbed, ExecutorReasons, Referencing;
    NoWrites(input, env.mechanism(s.memories).0);
    MechanismEffect(env, s, input, flags);
    var d := Mechanism(env, s, input, flags);
    var (t, out) := FromMechanism(env, s, input, flags, r, existed);
    if d.Stop? {
      RequestsCompose(env, st, input, a, t, out, r);
    } else {
      ScrubPhaseEffect(env, d.st, input, d.value, flags);
      var e := ScrubPhase(env, d.st, input, d.value, flags);
      if e.Stop? {
        RequestsCompose(env, st, input, a, t, out, r);
      } else {
        FinishEffect(env, e.st, input, r, existed, d.value, flags, e.value);
        RequestsCompose(env, st, input, a, t, out, r);
      }
    }
  }

  /** DONE MEANS VERIFIED, whatever the faults and whatever the mechanism reports: a done run had a non-empty report
      with only acceptable legs, no memory references the target, its entity record is gone, exactly one audit record
      was appended, and the request is executed with three present, pairwise distinct identities, of whom the executor
      holds the permission and is the acting identity. */
  lemma DoneIsVerified(env: Env, st: Store, input: Input)
    requires ListsSets(env.listing)
    ensures var (t, out) := Execute(env, st, input);
      out.Done? ==>
        && |out.verified.legs| > 0 && (forall l :: l in out.verified.legs ==> LegAcceptable(l))
        && Referencing(t.memories, input.target) == {} && input.target !in t.entities
        && input.requestId in st.requests && input.requestId in t.requests
        && |t.audits| == |st.audits| + 1 && t.audits[..|st.audits|] == st.audits
        && var r := t.requests[input.requestId];
        && r.status == Executed && r.executor == Some(input.executor) && input.executor != ""
        && Present(r.authorizedBy) && Present(r.second)
        && r.authorizedBy != r.second && r.authorizedBy != r.executor && r.second != r.executor
        && DELETE_PERMISSION in input.permissions && input.authz.actor == input.executor
  {
    hide Execute, Referencing, AllScrubbed, OwnWrites;
    ExecuteEffect(env, st, input);
  }

  /** A held or thrown run flips no status and writes no audit record, except that a failed status flip leaves the one
      record of the completed erasure; only the executor of the request may be recorded. */
  lemma NotDoneChangesNoStatus(env: Env, st: Store, input: Input)
    requires ListsSets(env.listing) && !Execute(env, st, input).1.Done?
    ensures var (t, out) := Execute(env, st, input);
      && t.requests.Keys == st.requests.Keys
      && (forall id :: id in st.requests ==> t.requests[id].status == st.requests[id].status)
      && (forall id :: id in st.requests ==>
            t.requests[id].authorizedBy == st.requests[id].authorizedBy && t.requests[id].second == st.requests[id].second)
      && (t.audits != st.audits ==> out.Held? && out.why == StatusFlipFailed && |t.audits| == |st.audits| + 1)
  {
    hide Execute, Referencing, AllScrubbed, OwnWrites;
    ExecuteEffect(env, st, input);
  }

  /** No memory row is deleted, no entity id but the target's removed, no id list emptied; content changes only for
      confirmed ids and only by redaction; every row that neither references the target nor is confirmed is untouched. */
  ghost predicate ConservesOthers(input: Input, before: Memories, after: Memories) {
    && after.Keys == before.Keys
    && (forall id, e :: id in before && e != input.target ==> (e in after[id].entities <==> e in before[id].entities))
    && (forall id :: id in before && |before[id].entities| > 0 ==> |after[id].entities| > 0)
    && (forall id :: id in before && after[id].content != before[id].content ==>
          id in input.confirmed && after[id].content == Redact(before[id].content, RedactionTerms(input.subject)).0)
    && (forall id :: id in before && input.target !in before[id].entities && id !in input.confirmed ==> after[id] == before[id])
    && (forall id :: id in before ==> after[id].sensitivity == before[id].sensitivity)
  }

  lemma OwnWritesConserve(input: Input, before: Memories, after: Memories)
    requires OwnWrites(input, before, after)
    ensures ConservesOthers(input, before, after)
  {
    hide Redact, RedactionTerms, Without;
    forall id | id in before
      ensures forall e :: e in Without(before[id].entities, input.target) <==> e in before[id].entities && e != input.target
    {
      WithoutFixed(before[id].entities, input.target);
    }
  }

  /** THIRD PARTIES ARE CONSERVED in every run, done, held or thrown: either the memories are as before the run, or the
      run's own writes conserve what the mechanism left; of the entity records at most the target's is removed. */
  lemma ThirdPartiesConserved(env: Env, st: Store, input: Input)
    requires ListsSets(env.listing)
    ensures var t := Execute(env, st, input).0;
      && (t.memories == st.memories || ConservesOthers(input, env.mechanism(st.memories).0, t.memories))
      && (t.entities == st.entities || t.entities == st.entities - {input.target})
  {
    hide Execute, Referencing, OwnWrites, ConservesOthers;
    ExecuteEffect(env, st, input);
    var left, t := env.mechanism(st.memories).0, Execute(env, st, input).0;
    if OwnWrites(input, left, t.memories) {
      OwnWritesConserve(input, left, t.memories);
    }
  }

  // ---------------------------------------------------------------- convergence of interrupted runs

  /** Re-running the mechanism on what it left, however far the scrubbing of that has got, changes nothing. */
  ghost predicate Settles(mechanism: Memories -> (Memories, Option<Report>), input: Input) {
    forall m: Memories, later: Memories ::
      PartlyScrubbed(input, mechanism(m).0, later) ==> mechanism(later).0 == later
  }

  /** Each row is as it was or in its scrubbed form. */
  ghost predicate PartlyScrubbed(input: Input, before: Memories, after: Memories) {
    after.Keys == before.Keys && forall id :: id in before ==> after[id] == before[id] || after[id] == Scrubbed(input, id, before[id])
  }

  /** The same erasure: target, subject and confirmed ids agree; the executing actor may differ. */
  predicate SameErasure(a: Input, b: Input) {
    a.target == b.target && a.subject == b.subject && a.confirmed == b.confirmed
  }

  lemma {:induction false} WithoutTwice(entities: seq<string>, target: string)
    ensures Without(Without(entities, target), target) == Without(entities, target)
  {
    WithoutFixed(entities, target);
    WithoutFixed(Without(entities, target), target);
  }

  /** Scrubbing a row twice is scrubbing it once. */
  lemma ScrubbedTwice(input: Input, id: string, m: Memory)
    requires Orderly(RedactionTerms(input.subject))
    ensures Scrubbed(input, id, Scrubbed(input, id, m)) == Scrubbed(input, id, m)
  {
    WithoutTwice(m.entities, input.target);
    RedactionIsIdempotent(m.content, RedactionTerms(input.subject));
  }

  lemma PartlyThenWrites(input: Input, start: Memories, mid: Memories, after: Memories)
    requires Orderly(RedactionTerms(input.subject)) && PartlyScrubbed(input, start, mid)
    ensures OwnWrites(input, mid, after) ==> PartlyScrubbed(input, start, after)
    ensures AllScrubbed(input, mid, after) ==> AllScrubbed(input, start, after)
  {
    forall id | id in start ensures Scrubbed(input, id, Scrubbed(input, id, start[id])) == Scrubbed(input, id, start[id]) {
      ScrubbedTwice(input, id, start[id]);
    }
    hide Scrubbed, Orderly, RedactionTerms;
  }

  /** Where the memories of an interrupted erasure stand: untouched, or somewhere between the mechanism's result and its
      scrubbed form; the entity set has lost at most the target. */
  ghost predicate Underway(mechanism: Memories -> (Memories, Option<Report>), input: Input, start: Store, now: Store) {
    && (now.memories == start.memories || PartlyScrubbed(input, mechanism(start.memories).0, now.memories))
    && (now.entities == start.entities || now.entities == start.entities - {input.target})
  }

  lemma OwnWritesSameErasure(a: Input, b: Input, before: Memories, after: Memories)
    requires SameErasure(a, b)
    ensures OwnWrites(a, before, after) == OwnWrites(b, before, after)
    ensures AllScrubbed(a, before, after) == AllScrubbed(b, before, after)
  {
    forall id | id in before ensures Scrubbed(a, id, before[id]) == Scrubbed(b, id, before[id]) {}
    hide Scrubbed;
  }

  lemma RunStaysUnderway(env: Env, start: Store, st: Store, input: Input, erasure: Input)
    requires ListsSets(env.listing) && Orderly(RedactionTerms(erasure.subject)) && Settles(env.mechanism, erasure)
    requires SameErasure(input, erasure) && Underway(env.mechanism, erasure, start, st)
    ensures Underway(env.mechanism, erasure, start, Execute(env, st, input).0)
    ensures Execute(env, st, input).1.Done? ==>
              AllScrubbed(erasure, env.mechanism(start.memories).0, Execute(env, st, input).0.memories)
              && Execute(env, st, input).0.entities == start.entities - {erasure.target}
  {
    hide Execute, Referencing, Orderly, Scrubbed, AllScrubbed, OwnWrites, PartlyScrubbed, RedactionTerms;
    ExecuteEffect(env, st, input);
    var (t, out) := Execute(env, st, input);
    var left := env.mechanism(start.memories).0;
    PartlyRefl(erasure, left);
    // re-running the mechanism from here gives its first result, or changes nothing
    var again := env.mechanism(st.memories).0;
    assert PartlyScrubbed(erasure, left, again);
    OwnWritesSameErasure(input, erasure, again, t.memories);
    PartlyThenWrites(erasure, left, again, t.memories);
  }

  /** The store after a sequence of runs. */
  function AfterRuns(st: Store, runs: seq<(Env, Input)>): Store
    decreases |runs|
  {
    if |runs| == 0 then st
    else
      var last := runs[|runs| - 1];
      Execute(last.0, AfterRuns(st, runs[..|runs| - 1]), last.1).0
  }

  /** Every run uses the given mechanism for the given erasure. */
  ghost predicate RunsOf(runs: seq<(Env, Input)>, mechanism: Memories -> (Memories, Option<Report>), erasure: Input) {
    forall i :: 0 <= i < |runs| ==>
      ListsSets(runs[i].0.listing) && runs[i].0.mechanism == mechanism && SameErasure(runs[i].1, erasure)
  }

  lemma {:induction false} RunsStayUnderway(st: Store, runs: seq<(Env, Input)>,
                                            mechanism: Memories -> (Memories, Option<Report>), erasure: Input)
    requires RunsOf(runs, mechanism, erasure) && Settles(mechanism, erasure) && Orderly(RedactionTerms(erasure.subject))
    ensures Underway(mechanism, erasure, st, AfterRuns(st, runs))
    decreases |runs|
  {
    hide Settles, Execute, Orderly;
    if |runs| > 0 {
      var before, last := runs[..|runs| - 1], runs[|runs| - 1];
      RunsStayUnderway(st, before, mechanism, erasure);
      RunStaysUnderway(last.0, st, AfterRuns(st, before), last.1, erasure);
    }
  }

  /** CONVERGENCE. Any number of runs with any outcomes, followed by a run that is done, leave the same memories and
      entities as a single run that is done, provided the mechanism settles and the redaction terms are orderly. */
  lemma InterruptedRunsConverge(st: Store, runs: seq<(Env, Input)>, mechanism: Memories -> (Memories, Option<Report>),
                                erasure: Input, env: Env, single: Input, lastEnv: Env, last: Input)
    requires RunsOf(runs, mechanism, erasure) && Settles(mechanism, erasure) && Orderly(RedactionTerms(erasure.subject))
    requires ListsSets(env.listing) && env.mechanism == mechanism && SameErasure(single, erasure)
    requires ListsSets(lastEnv.listing) && lastEnv.mechanism == mechanism && SameErasure(last, erasure)
    ensures var once, resumed := Execute(env, st, single), Execute(lastEnv, AfterRuns(st, runs), last);
            once.1.Done? && resumed.1.Done? ==> resumed.0.memories == once.0.memories && resumed.0.entities == once.0.entities
  {
    hide Settles, Execute, Orderly, ListsSets;
    RunsStayUnderway(st, runs, mechanism, erasure);
    RunStaysUnderway(env, st, st, single, erasure);
    RunStaysUnderway(lastEnv, st, AfterRuns(st, runs), last, erasure);
    if Execute(env, st, single).1.Done? && Execute(lastEnv, AfterRuns(st, runs), last).1.Done? {
      ScrubbedUnique(erasure, mechanism(st.memories).0, Execute(env, st, single).0.memories,
                     Execute(lastEnv, AfterRuns(st, runs), last).0.memories);
    }
  }

  lemma ScrubbedUnique(input: Input, before: Memories, a: Memories, b: Memories)
    requires AllScrubbed(input, before, a) && AllScrubbed(input, before, b)
    ensures a == b
  {
    hide Scrubbed;
  }

  /** The hypothesis is met by a mechanism that deletes every row whose only entity is the target. */
  lemma DeletingSoleRowsSettles(input: Input, report: Report)
    requires Orderly(RedactionTerms(input.subject))
    ensures Settles((m: Memories) => (DropSole(m, input.target), Some(report)), input)
  {
    forall m: Memories, later: Memories | PartlyScrubbed(input, DropSole(m, input.target), later)
      ensures DropSole(later, input.target) == later
    {
      forall id | id in later ensures later[id].entities != [input.target] {
        if later[id] == Scrubbed(input, id, m[id]) {
          WithoutFixed(m[id].entities, input.target);
          assert input.target !in later[id].entities;
          assert input.target in [input.target];
        }
      }
    }
  }

  function DropSole(m: Memories, target: string): Memories {
    map id | id in m && m[id].entities != [target] :: m[id]
  }

  lemma PartlyRefl(input: Input, m: Memories)
    ensures PartlyScrubbed(input, m, m)
  {
  }
}
