/** Exactly when a run without faults is done, also after any number of interrupted runs. */
module ErasureRuns {
  import opened Wrappers
  import opened Scrub
  import opened ScrubTheorems
  import opened Identify
  import opened ErasureSpec
  import opened ErasureTheorems
  import opened ErasureGuarantees

  // ---------------------------------------------------------------- exactly when a fault-free run is done

  /** De-linking the target leaves the row another entity. */
  predicate CanDelink(m: Memories, target: string, id: string) {
    id in m && target in m[id].entities ==> |Without(m[id].entities, target)| > 0
  }

  /** A confirmed mention can be redacted: the row has an entity, or nothing would be replaced. */
  predicate CanRedact(input: Input, m: Memories, id: string) {
    id in m && input.target !in m[id].entities && Redact(m[id].content, RedactionTerms(input.subject)).1 > 0 ==> |m[id].entities| > 0
  }

  lemma SoleEntity(entities: seq<string>, target: string)
    requires |entities| <= 1 && target in entities
    ensures Without(entities, target) == []
  {
    assert entities == [target] && entities[1..] == [];
    assert Without(entities, target) == [] + Filter(entities[1..], e => e != target);
  }

  lemma OthersCanDelink(m: Memories, mid: Memories, target: string, id: string)
    requires id in m && id in mid && mid == m[id := mid[id]]
    ensures forall k :: k != id ==> CanDelink(mid, target, k) == CanDelink(m, target, k)
  {
    hide Without;
  }

  lemma {:induction false} DelinkClean(env: Env, st: Store, input: Input, ids: seq<string>, idRemoved: nat, redacted: nat)
    requires NoDup(ids) && (forall n :: !env.faults(n))
    requires forall id :: id in ids && id in st.memories ==> input.target in st.memories[id].entities
    ensures Delink(env, st, input, ids, idRemoved, redacted).1.Finished? <==>
            forall id :: id in ids ==> CanDelink(st.memories, input.target, id)
    decreases |ids|
  {
    if |ids| > 0 {
      var id, s1, rest := ids[0], Tick(st), ids[1..];
      assert id !in rest;
      assert ids == [id] + rest;
      if id !in st.memories {
        DelinkClean(env, s1, input, rest, idRemoved, redacted);
      } else {
        var m := st.memories[id];
        var next := Scrubbed(input, id, m);
        if |m.entities| <= 1 {
          SoleEntity(m.entities, input.target);
          assert !CanDelink(st.memories, input.target, id);
        } else if |next.entities| == 0 {
          assert !CanDelink(st.memories, input.target, id);
        } else {
          var scrubbed := if id in input.confirmed then Redact(m.content, RedactionTerms(input.subject)) else (m.content, 0);
          var mid := st.memories[id := next];
          DelinkClean(env, Tick(s1).(memories := mid), input, rest, idRemoved + 1,
                      if id in input.confirmed && scrubbed.1 > 0 then redacted + 1 else redacted);
          assert CanDelink(st.memories, input.target, id);
          hide Redact, RedactionTerms, Without, CanDelink;
          OthersCanDelink(st.memories, mid, input.target, id);
        }
      }
    }
  }

  lemma {:induction false} RedactMentionsClean(env: Env, st: Store, input: Input, handled: set<string>, ids: seq<string>,
                                               idRemoved: nat, redacted: nat)
    requires NoDup(ids) && (forall n :: !env.faults(n))
    ensures RedactMentions(env, st, input, handled, ids, idRemoved, redacted).1.Finished? <==>
            forall id :: id in ids && id !in handled ==> CanRedact(input, st.memories, id)
    decreases |ids|
  {
    hide Redact, RedactionTerms;
    if |ids| > 0 {
      var id, s1, rest := ids[0], Tick(st), ids[1..];
      assert id !in rest;
      assert ids == [id] + rest;
      if id in handled {
        RedactMentionsClean(env, st, input, handled, rest, idRemoved, redacted);
      } else if id !in st.memories || input.target in st.memories[id].entities {
        RedactMentionsClean(env, s1, input, handled, rest, idRemoved, redacted);
      } else {
        var m := st.memories[id];
        var scrubbed := Redact(m.content, RedactionTerms(input.subject));
        if scrubbed.1 == 0 {
          RedactMentionsClean(env, s1, input, handled, rest, idRemoved, redacted);
        } else if |m.entities| == 0 {
          assert !CanRedact(input, st.memories, id);
        } else {
          var mid := st.memories[id := m.(content := scrubbed.0)];
          RedactMentionsClean(env, Tick(s1).(memories := mid), input, handled, rest, idRemoved, redacted + 1);
          assert forall k :: k in rest ==> CanRedact(input, mid, k) == CanRedact(input, st.memories, k);
        }
      }
    }
  }

  /** Every referencing row can be de-linked and every confirmed mention redacted. */
  predicate Scrubbable(input: Input, m: Memories) {
    (forall id :: id in m ==> CanDelink(m, input.target, id)) && (forall id :: id in input.confirmed ==> CanRedact(input, m, id))
  }

  lemma ScrubAllClean(env: Env, st: Store, input: Input)
    requires ListsSets(env.listing) && (forall n :: !env.faults(n))
    ensures ScrubAll(env, st, input).1.Finished? <==> Scrubbable(input, st.memories)
  {
    hide Redact, RedactionTerms, Without, Delink, RedactMentions, Scrubbed;
    var handled := Referencing(st.memories, input.target);
    var ids := env.listing(handled);
    DelinkClean(env, Tick(st), input, ids, 0, 0);
    DelinkEffect(env, Tick(st), input, ids, 0, 0);
    var (s1, first) := Delink(env, Tick(st), input, ids, 0, 0);
    if first.Finished? {
      OnceNoDup(input.confirmed);
      RedactMentionsClean(env, s1, input, handled, Once(input.confirmed), first.idRemoved, first.redacted);
      assert forall id :: id !in handled && id in st.memories ==> s1.memories[id] == st.memories[id];
      assert forall id :: id !in handled ==> CanRedact(input, s1.memories, id) == CanRedact(input, st.memories, id);
      assert forall id :: id in handled ==> CanRedact(input, st.memories, id);
    }
  }

  /** The gate before anything is destroyed. */
  predicate MayRun(st: Store, input: Input) {
    && st.frozenAt.None? && input.requestId in st.requests && input.authz.actor == input.executor
    && |ExecutorReasons(st.requests[input.requestId], input.executor, input.permissions)| == 0
  }

  predicate ReportAcceptable(report: Option<Report>) {
    report.Some? && |report.value.legs| > 0 && forall l :: l in report.value.legs ==> LegAcceptable(l)
  }

  lemma PreflightClean(env: Env, st: Store, input: Input)
    requires forall n :: !env.faults(n)
    ensures Preflight(env, st, input).Go? <==> MayRun(st, input)
  {
    if input.requestId in st.requests {
      NoReasons(st.requests[input.requestId], input.executor, input.permissions);
    }
    hide ExecutorReasons;
  }

  lemma MechanismClean(env: Env, st: Store, input: Input, flags: seq<string>)
    requires forall n :: !env.faults(n)
    ensures Mechanism(env, st, input, flags).Go? <==> ReportAcceptable(env.mechanism(st.memories).1)
  {
    var report := env.mechanism(st.memories).1;
    if report.Some? {
      FilterMembers(report.value.legs, (l: Leg) => !LegAcceptable(l));
      assert forall l :: l in BlockingLegs(report.value.legs) <==> l in report.value.legs && !LegAcceptable(l);
      if |BlockingLegs(report.value.legs)| > 0 {
        assert BlockingLegs(report.value.legs)[0] in report.value.legs;
      }
    }
  }

  lemma {:induction false} RaiseFlagsClean(env: Env, st: Store, id: string, connectors: seq<string>)
    requires forall n :: !env.faults(n)
    ensures RaiseFlags(env, st, id, connectors).2
    decreases |connectors|
  {
    if |connectors| > 0 {
      RaiseFlagsClean(env, Tick(st).(flags := RaiseFlag(st.flags, id, connectors[0])), id, connectors[1..]);
    }
  }

  lemma FinishClean(env: Env, st: Store, input: Input, r: Request, existed: bool, report: Report, flags: seq<string>, counts: Counts)
    requires (forall n :: !env.faults(n)) && Referencing(st.memories, input.target) == {}
    requires input.requestId in st.requests && Distinct3(MarkedExecuted(st.requests[input.requestId], env.now))
    ensures Finish(env, st, input, r, existed, report, flags, counts).1.Done?
  {
    hide Referencing;
  }

  lemma AllScrubbedUnreferenced(input: Input, before: Memories, after: Memories)
    requires AllScrubbed(input, before, after)
    ensures Referencing(after, input.target) == {}
  {
    forall id | id in after ensures input.target !in after[id].entities {
      WithoutFixed(before[id].entities, input.target);
    }
  }

  /** COMPLETION. A run without faults is done if and only if the deployment is not frozen, the gate lets the executor
      through, the mechanism's report is acceptable, and everything it left to scrub can be scrubbed. */
  lemma CleanRunDoneIff(env: Env, st: Store, input: Input)
    requires ListsSets(env.listing) && (forall n :: !env.faults(n))
    ensures Execute(env, st, input).1.Done? <==>
            MayRun(st, input) && ReportAcceptable(env.mechanism(st.memories).1) && Scrubbable(input, env.mechanism(st.memories).0)
  {
    hide Preflight, FlagConnectors, Mechanism, ScrubPhase, Finish, ExecutorReasons, Scrubbable, Referencing, AllScrubbed, OwnWrites,
         SearchTerms, ReportAcceptable;
    PreflightClean(env, st, input);
    PreflightEffect(env, st, input);
    var a := Preflight(env, st, input);
    if a.Go? {
      IdentifyEffect(env, a.st, input);
      var b := IdentifyRecords(env, a.st, input);
      FlagConnectorsEffect(env, b.st, input);
      var c := FlagConnectors(env, b.st, input);
      FlagConnectorsClean(env, b.st, input);
      MechanismEffect(env, c.st, input, c.value);
      MechanismClean(env, c.st, input, c.value);
      var d := Mechanism(env, c.st, input, c.value);
      if d.Go? {
        ScrubPhaseEffect(env, d.st, input, d.value, c.value);
        ScrubPhaseClean(env, d.st, input, d.value, c.value);
        var e := ScrubPhase(env, d.st, input, d.value, c.value);
        if e.Go? {
          AllScrubbedUnreferenced(input, d.st.memories, e.st.memories);
          NoReasons(a.value, input.executor, input.permissions);
          FinishClean(env, e.st, input, a.value, b.value, d.value, c.value, e.value);
        }
      }
    }
  }

  lemma FlagConnectorsClean(env: Env, st: Store, input: Input)
    requires forall n :: !env.faults(n)
    ensures FlagConnectors(env, st, input).Go?
  {
    RaiseFlagsClean(env, Tick(st), input.requestId, env.connectors);
  }

  lemma ScrubPhaseClean(env: Env, st: Store, input: Input, report: Report, flags: seq<string>)
    requires ListsSets(env.listing) && (forall n :: !env.faults(n))
    ensures ScrubPhase(env, st, input, report, flags).Go? <==> Scrubbable(input, st.memories)
  {
    ScrubAllClean(env, st, input);
    hide ScrubAll, Scrubbable;
  }

  /** What scrubbing has touched needs no more scrubbing. */
  lemma PartlyStaysScrubbable(input: Input, before: Memories, later: Memories)
    requires Orderly(RedactionTerms(input.subject)) && Scrubbable(input, before) && PartlyScrubbed(input, before, later)
    ensures Scrubbable(input, later)
  {
    forall id | id in later
      ensures CanDelink(later, input.target, id)
      ensures id in input.confirmed ==> CanRedact(input, later, id)
    {
      if later[id] == Scrubbed(input, id, before[id]) {
        WithoutFixed(before[id].entities, input.target);
        RedactionIsIdempotent(before[id].content, RedactionTerms(input.subject));
        hide Redact, RedactionTerms, Without, Orderly;
      } else {
        hide Redact, RedactionTerms, Without, Orderly, Scrubbed;
      }
    }
    forall id | id in input.confirmed && id !in later ensures CanRedact(input, later, id) {}
  }

  lemma ScrubbableSameErasure(a: Input, b: Input, m: Memories)
    requires SameErasure(a, b)
    ensures Scrubbable(a, m) == Scrubbable(b, m)
  {
    hide Redact, RedactionTerms, Without;
    assert forall id :: CanRedact(a, m, id) == CanRedact(b, m, id);
  }

  /** Runs, however they end, do not change who may run next. */
  lemma {:induction false} RunsKeepTheGate(st: Store, runs: seq<(Env, Input)>, input: Input)
    requires forall i :: 0 <= i < |runs| ==> ListsSets(runs[i].0.listing)
    ensures MayRun(AfterRuns(st, runs), input) == MayRun(st, input)
    decreases |runs|
  {
    if |runs| > 0 {
      var before, last := runs[..|runs| - 1], runs[|runs| - 1];
      RunsKeepTheGate(st, before, input);
      ExecuteEffect(last.0, AfterRuns(st, before), last.1);
      hide Execute, Referencing, OwnWrites, AllScrubbed, ListsSets;
    }
  }

  /** RESUMED RUNS COMPLETE. After any number of runs with any outcomes, a run without faults is done exactly when the gate
      lets it through and the mechanism's report is acceptable: whatever the earlier runs left half scrubbed never holds it,
      provided the mechanism settles, the terms are orderly and the erasure could be scrubbed from the start. */
  lemma ResumedRunDoneIff(st: Store, runs: seq<(Env, Input)>, mechanism: Memories -> (Memories, Option<Report>), erasure: Input,
                          env: Env, last: Input)
    requires RunsOf(runs, mechanism, erasure) && Settles(mechanism, erasure) && Orderly(RedactionTerms(erasure.subject))
    requires Scrubbable(erasure, mechanism(st.memories).0)
    requires ListsSets(env.listing) && env.mechanism == mechanism && SameErasure(last, erasure) && (forall n :: !env.faults(n))
    ensures Execute(env, AfterRuns(st, runs), last).1.Done? <==>
              MayRun(st, last) && ReportAcceptable(mechanism(AfterRuns(st, runs).memories).1)
  {
    var now := AfterRuns(st, runs);
    RunsStayUnderway(st, runs, mechanism, erasure);
    RunsKeepTheGate(st, runs, last);
    CleanRunDoneIff(env, now, last);
    hide Execute, Orderly, Scrubbable, MayRun, ReportAcceptable, ListsSets, AfterRuns;
    var left := mechanism(st.memories).0;
    if now.memories != st.memories {
      assert PartlyScrubbed(erasure, left, now.memories) && mechanism(now.memories).0 == now.memories;
      PartlyStaysScrubbable(erasure, left, now.memories);
    }
    ScrubbableSameErasure(last, erasure, mechanism(now.memories).0);
  }
}
