/** The in-memory deletion store and the erasure orchestrator that drives it
    (app/compliance-erasure/src/store.ts, execute.ts, connectors.ts, authorize.ts). */
module ErasureWorkflow {
  import opened Wrappers
  import opened Scrub
  import opened Identify
  import opened ErasureSpec

  class DeletionStore {
    var requests: map<string, Request>
    var flags: seq<ConnectorFlag>
    var memories: Memories
    var entities: set<string>
    var audits: seq<Audit>
    var lifecycle: seq<(Event, string)>
    var frozenAt: Option<int>
    /** How many port calls have been made; the fault pattern says which of them throw. */
    var calls: nat

    ghost function View(): Store
      reads this
    {
      Store(requests, flags, memories, entities, audits, lifecycle, frozenAt, calls)
    }

    constructor ()
      ensures View() == Store(map[], [], map[], {}, [], [], None, 0)
    {
      requests, flags, memories, entities, audits, lifecycle, frozenAt, calls := map[], [], map[], {}, [], [], None, 0;
    }

    /** Counts a port call and says whether it throws. */
    method Call(env: Env) returns (ok: bool)
      modifies this`calls
      ensures View() == Tick(old(View())) && ok == !Fails(env, old(View()))
    {
      ok := !env.faults(calls);
      calls := calls + 1;
    }

    method EmitLifecycle(env: Env, event: Event, id: string) returns (ok: bool)
      modifies this`calls, this`lifecycle
      ensures View() == Emit(env, old(View()), event, id) && ok == !Fails(env, old(View()))
    {
      ok := Call(env);
      if ok { lifecycle := lifecycle + [(event, id)]; }
    }

    method ReplaceRequest(env: Env, id: string, r: Request) returns (ok: bool)
      modifies this`calls, this`requests
      ensures var next := UpdateRequest(Tick(old(View())), id, r);
              ok == (!Fails(env, old(View())) && next.Some?) && View() == if ok then next.value else Tick(old(View()))
    {
      ok := Call(env);
      if ok {
        ok := id in requests && Distinct3(r);
        if ok { requests := requests[id := r]; }
      }
    }

    method DeterministicMemoryIds(env: Env, target: string) returns (ok: bool, ids: seq<string>)
      modifies this`calls
      ensures View() == Tick(old(View())) && ok == !Fails(env, old(View()))
      ensures ids == env.listing(Referencing(old(memories), target))
    {
      ok := Call(env);
      ids := env.listing(Referencing(memories, target));
    }

    /** The governed in-place scrub; it refuses to empty the id list. */
    method ScrubMemory(env: Env, id: string, target: string, content: string, removeEntityId: bool) returns (ok: bool)
      requires id in memories
      modifies this`calls, this`memories
      ensures var m := old(memories)[id];
              var left := if removeEntityId then Without(m.entities, target) else m.entities;
              ok == (!Fails(env, old(View())) && |left| > 0)
              && View() == if ok then Tick(old(View())).(memories := old(memories)[id := m.(content := content, entities := left)])
                           else Tick(old(View()))
    {
      ok := Call(env);
      if ok {
        var m := memories[id];
        var left := if removeEntityId then Without(m.entities, target) else m.entities;
        ok := |left| > 0;
        if ok { memories := memories[id := m.(content := content, entities := left)]; }
      }
    }

    method RaiseConnectorFlag(env: Env, id: string, connector: string) returns (ok: bool)
      modifies this`calls, this`flags
      ensures ok == !Fails(env, old(View()))
      ensures View() == if ok then Tick(old(View())).(flags := RaiseFlag(old(flags), id, connector)) else Tick(old(View()))
    {
      ok := Call(env);
      if ok {
        var open := false;
        for i := 0 to |flags|
          invariant open == exists k :: 0 <= k < i && flags[k].request == id && flags[k].connector == connector && flags[k].state != Resolved
        {
          if flags[i].request == id && flags[i].connector == connector && flags[i].state != Resolved { open := true; }
        }
        if !open { flags := flags + [ConnectorFlag(id, connector, Raised)]; }
      }
    }

    method AuthorizeRequest(id: string, actor: string, permissions: seq<string>, fault: AuthFault) returns (ok: bool)
      modifies this
      ensures (View(), ok) == Authorize(old(View()), id, actor, permissions, fault)
    {
      if actor == "" || DELETE_PERMISSION !in permissions || id !in requests || fault.WriteFails? { return false; }
      var next := requests[id].(status := Authorised, authorizedBy := Some(actor));
      if !Distinct3(next) { return false; }
      requests := requests[id := next];
      if fault.EmitFails? { return false; }
      lifecycle := lifecycle + [(RequestAuthorised, id)];
      ok := true;
    }

    method SecondAuthorizeRequest(id: string, actor: string, permissions: seq<string>, fault: AuthFault) returns (ok: bool)
      modifies this
      ensures (View(), ok) == SecondAuthorize(old(View()), id, actor, permissions, fault)
    {
      if actor == "" || DELETE_PERMISSION !in permissions || id !in requests || fault.WriteFails? { return false; }
      var next := requests[id].(second := Some(actor));
      if !Distinct3(next) { return false; }
      requests := requests[id := next];
      if fault.EmitFails? { return false; }
      lifecycle := lifecycle + [(RequestSecondAuthorised, id)];
      ok := true;
    }
  }

  /** A phase of the run, executed in place: it ended in the state of the flow, and stopped exactly if the flow did. */
  ghost predicate Follows<T>(st: Store, flow: Flow<T>, stop: Option<Outcome>) {
    st == flow.st && (stop == if flow.Stop? then Some(flow.out) else None)
  }

  method Hold(store: DeletionStore, env: Env, input: Input, why: HoldReason, report: Option<Report>, counts: Counts, flags: seq<string>)
    returns (stop: Option<Outcome>)
    modifies store
    ensures store.View() == Emit(env, old(store.View()), RequestHeld, input.requestId)
    ensures stop == Some(Held(why, report, counts, flags))
  {
    var _ := store.EmitLifecycle(env, RequestHeld, input.requestId);
    stop := Some(Held(why, report, counts, flags));
  }

  method RunPreflight(store: DeletionStore, env: Env, input: Input) returns (stop: Option<Outcome>, r: Request)
    modifies store
    ensures var flow := Preflight(env, old(store.View()), input);
            Follows(store.View(), flow, stop) && (flow.Go? ==> r == flow.value)
  {
    hide ExecutorReasons, Emit, Distinct3;
    r := Request("", None, Received, None, None, None, None);
    var ok := store.Call(env);
    if !ok { stop := Hold(store, env, input, FreezeReadFailed, None, NoCounts, []); return; }
    if store.frozenAt.Some? {
      var _ := store.EmitLifecycle(env, BlockedFrozen, input.requestId);
      return Some(Threw(DeploymentFrozen)), r;
    }
    ok := store.Call(env);
    if !ok { var _ := store.EmitLifecycle(env, ConfigFailClosed, input.requestId); }
    ok := store.Call(env);
    if !ok { return Some(Threw(RequestReadFailed)), r; }
    if input.requestId !in store.requests { stop := Hold(store, env, input, RequestNotFound, None, NoCounts, []); return; }
    r := store.requests[input.requestId];
    var reasons := ExecutorReasons(r, input.executor, input.permissions);
    if |reasons| > 0 { stop := Hold(store, env, input, AuthorisationDenied(reasons), None, NoCounts, []); return; }
    if input.authz.actor != input.executor { stop := Hold(store, env, input, ActorIsNotExecutor, None, NoCounts, []); return; }
    ok := store.ReplaceRequest(env, input.requestId, r.(executor := Some(input.executor)));
    if !ok { stop := Hold(store, env, input, ExecutorPersistFailed, None, NoCounts, []); return; }
    stop := None;
  }

  method RunIdentify(store: DeletionStore, env: Env, input: Input) returns (stop: Option<Outcome>, existed: bool)
    modifies store
    ensures var flow := IdentifyRecords(env, old(store.View()), input);
            Follows(store.View(), flow, stop) && (flow.Go? ==> existed == flow.value)
  {
    hide SearchTerms;
    existed := false;
    var ok, ids := store.DeterministicMemoryIds(env, input.target);
    if ok {
      ok := store.Call(env);
      existed := input.target in store.entities;
      if ok && |SearchTerms(input.subject)| > 0 { ok := store.Call(env); }
      if ok { ok := store.EmitLifecycle(env, RecordsIdentified, input.requestId); }
    }
    if !ok { stop := Hold(store, env, input, IdentifyFailed, None, NoCounts, []); return; }
    stop := None;
  }

  lemma RaiseFlagsUnfold(env: Env, st: Store, id: string, raised: seq<string>, connectors: seq<string>)
    requires |connectors| > 0 && !Fails(env, st)
    ensures var all := RaiseFlags(env, st, id, connectors);
            var rest := RaiseFlags(env, Tick(st).(flags := RaiseFlag(st.flags, id, connectors[0])), id, connectors[1..]);
            all.0 == rest.0 && all.2 == rest.2 && raised + all.1 == (raised + [connectors[0]]) + rest.1
  {
  }

  method RunConnectors(store: DeletionStore, env: Env, input: Input) returns (stop: Option<Outcome>, raised: seq<string>)
    modifies store
    ensures var flow := FlagConnectors(env, old(store.View()), input);
            Follows(store.View(), flow, stop) && (flow.Go? ==> raised == flow.value)
  {
    raised := [];
    var ok := store.Call(env);
    if !ok { stop := Hold(store, env, input, ConnectorDetectionFailed, None, NoCounts, []); return; }
    ghost var start := store.View();
    assert env.connectors[0..] == env.connectors;
    assert raised + RaiseFlags(env, start, input.requestId, env.connectors).1 == RaiseFlags(env, start, input.requestId, env.connectors).1;
    for i := 0 to |env.connectors|
      invariant raised == env.connectors[..i]
      invariant var rest := RaiseFlags(env, store.View(), input.requestId, env.connectors[i..]);
                RaiseFlags(env, start, input.requestId, env.connectors) == (rest.0, raised + rest.1, rest.2)
    {
      assert env.connectors[i..][1..] == env.connectors[i + 1..];
      if !Fails(env, store.View()) {
        RaiseFlagsUnfold(env, store.View(), input.requestId, raised, env.connectors[i..]);
      }
      ok := store.RaiseConnectorFlag(env, input.requestId, env.connectors[i]);
      if !ok {
        assert raised + [] == raised;
        stop := Hold(store, env, input, ConnectorDetectionFailed, None, NoCounts, raised);
        return;
      }
      raised := raised + [env.connectors[i]];
    }
    assert raised + [] == raised;
    stop := None;
  }

  method RunMechanism(store: DeletionStore, env: Env, input: Input, flags: seq<string>) returns (stop: Option<Outcome>, report: Report)
    modifies store
    ensures var flow := Mechanism(env, old(store.View()), input, flags);
            Follows(store.View(), flow, stop) && (flow.Go? ==> report == flow.value)
  {
    report := Report([], []);
    var ok := store.Call(env);
    if !ok { stop := Hold(store, env, input, MechanismThrew, None, NoCounts, flags); return; }
    var (memories, returned) := env.mechanism(store.memories);
    store.memories := memories;
    if returned.None? { stop := Hold(store, env, input, MechanismThrew, None, NoCounts, flags); return; }
    report := returned.value;
    var counts := Counts(|report.hardDeleted|, 0, 0);
    if |report.legs| == 0 { stop := Hold(store, env, input, EmptyReport, returned, counts, flags); return; }
    var blocking := BlockingLegs(report.legs);
    if |blocking| > 0 { stop := Hold(store, env, input, Incomplete(blocking), returned, counts, flags); return; }
    stop := None;
  }

  method RunScrub(store: DeletionStore, env: Env, input: Input) returns (end: LoopEnd)
    modifies store
    ensures (store.View(), end) == ScrubAll(env, old(store.View()), input)
  {
    hide Without, RedactionTerms, Redact, Referencing;
    var idRemoved, redacted := 0, 0;
    var terms := RedactionTerms(input.subject);
    var handled := Referencing(store.memories, input.target);
    var ok, ids := store.DeterministicMemoryIds(env, input.target);
    if !ok { return Halted(ScrubFailed, 0, 0); }
    ghost var start := store.View();
    var i := 0;
    assert ids[0..] == ids;
    while i < |ids|
      invariant i <= |ids|
      invariant Delink(env, start, input, ids, 0, 0) == Delink(env, store.View(), input, ids[i..], idRemoved, redacted)
    {
      var id := ids[i];
      assert ids[i..][1..] == ids[i + 1..];
      i := i + 1;
      ok := store.Call(env);
      if !ok { return Halted(ScrubFailed, idRemoved, redacted); }
      if id in store.memories {
        var m := store.memories[id];
        if |m.entities| <= 1 { return Halted(SingleEntityResidue(id), idRemoved, redacted); }
        var doRedact := id in input.confirmed;
        var content, replacements := m.content, 0;
        if doRedact { content, replacements := RedactContent(m.content, terms); }
        ok := store.ScrubMemory(env, id, input.target, content, true);
        if !ok { return Halted(ScrubFailed, idRemoved, redacted); }
        idRemoved := idRemoved + 1;
        if doRedact && replacements > 0 { redacted := redacted + 1; }
      }
    }
    end := RunMentions(store, env, input, terms, handled, idRemoved, redacted);
  }

  method RunMentions(store: DeletionStore, env: Env, input: Input, terms: seq<string>, handled: set<string>, idRemoved: nat, redacted0: nat)
    returns (end: LoopEnd)
    requires terms == RedactionTerms(input.subject)
    modifies store
    ensures (store.View(), end) == RedactMentions(env, old(store.View()), input, handled, Once(input.confirmed), idRemoved, redacted0)
  {
    hide RedactionTerms, Redact;
    var redacted := redacted0;
    ghost var start := store.View();
    var ids, i := Once(input.confirmed), 0;
    assert ids[0..] == ids;
    while i < |ids|
      invariant i <= |ids|
      invariant RedactMentions(env, start, input, handled, ids, idRemoved, redacted0)
                == RedactMentions(env, store.View(), input, handled, ids[i..], idRemoved, redacted)
    {
      var id := ids[i];
      assert ids[i..][1..] == ids[i + 1..];
      i := i + 1;
      if id !in handled {
        var ok := store.Call(env);
        if !ok { return Halted(ScrubFailed, idRemoved, redacted); }
        if id in store.memories && input.target !in store.memories[id].entities {
          var content, replacements := RedactContent(store.memories[id].content, terms);
          if replacements > 0 {
            ok := store.ScrubMemory(env, id, input.target, content, false);
            if !ok { return Halted(ScrubFailed, idRemoved, redacted); }
            redacted := redacted + 1;
          }
        }
      }
    }
    end := Finished(idRemoved, redacted);
  }

  method RunFinish(store: DeletionStore, env: Env, input: Input, r: Request, existed: bool, report: Report, flags: seq<string>, counts: Counts)
    returns (out: Outcome)
    modifies store
    ensures (store.View(), out) == Finish(env, old(store.View()), input, r, existed, report, flags, counts)
  {
    hide Referencing, Emit, Distinct3;
    var residual := Referencing(store.memories, input.target);
    var ok := store.Call(env);
    if !ok { return Threw(ResidueReadFailed); }
    var stop: Option<Outcome>;
    if residual != {} {
      stop := Hold(store, env, input, Residue(|residual|), Some(report), counts, flags);
      return stop.value;
    }
    if existed {
      ok := store.Call(env);
      if !ok { stop := Hold(store, env, input, EntityDeleteFailed, Some(report), counts, flags); return stop.value; }
      store.entities := store.entities - {input.target};
    }
    ok := store.Call(env);
    if !ok { stop := Hold(store, env, input, AuditWriteFailed, Some(report), counts, flags); return stop.value; }
    store.audits := store.audits + [AuditOf(env, input, r, counts)];
    if input.requestId !in store.requests {
      ok := store.Call(env);
      stop := Hold(store, env, input, StatusFlipFailed, Some(report), counts, flags);
      return stop.value;
    }
    ok := store.ReplaceRequest(env, input.requestId, store.requests[input.requestId].(status := Executed, executedAt := Some(env.now)));
    if !ok { stop := Hold(store, env, input, StatusFlipFailed, Some(report), counts, flags); return stop.value; }
    var _ := store.EmitLifecycle(env, RequestExecuted, input.requestId);
    out := Done(report, counts, flags);
  }

  /** The whole erasure run, executed on the store in place. */
  method ExecuteErasure(store: DeletionStore, env: Env, input: Input) returns (out: Outcome)
    modifies store
    ensures (store.View(), out) == Execute(env, old(store.View()), input)
  {
    hide Preflight, IdentifyRecords, FlagConnectors, Mechanism, ScrubAll, Finish;
    var stop, r := RunPreflight(store, env, input);
    if stop.Some? { return stop.value; }
    var existed;
    stop, existed := RunIdentify(store, env, input);
    if stop.Some? { return stop.value; }
    var flags;
    stop, flags := RunConnectors(store, env, input);
    if stop.Some? { return stop.value; }
    var report;
    stop, report := RunMechanism(store, env, input, flags);
    if stop.Some? { return stop.value; }
    var end := RunScrub(store, env, input);
    var counts := Counts(|report.hardDeleted|, end.idRemoved, end.redacted);
    if end.Halted? {
      stop := Hold(store, env, input, end.why, Some(report), counts, flags);
      return stop.value;
    }
    out := RunFinish(store, env, input, r, existed, report, flags, counts);
  }
}
