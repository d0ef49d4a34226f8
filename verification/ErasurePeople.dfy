/** Who stands behind an executed request, over every run of the workflow. */
module ErasurePeople {
  import opened Wrappers
  import opened Identify
  import opened ErasureSpec
  import opened ErasureTheorems
  import opened ErasureGuarantees
  import opened ErasureRuns

  datatype Op =
    | OpCreate(id: string, requester: string, legalBasis: Option<string>)
    | OpAuthorize(id: string, actor: string, permissions: seq<string>, fault: AuthFault)
    | OpSecondAuthorize(id: string, actor: string, permissions: seq<string>, fault: AuthFault)
    | OpExecute(env: Env, input: Input)
    | OpWorld(memories: Memories, entities: set<string>, frozenAt: Option<int>)

  const Empty: Store := Store(map[], [], map[], {}, [], [], None, 0)

  function NewRequest(requester: string, legalBasis: Option<string>): Request {
    Request(requester, legalBasis, Received, None, None, None, None)
  }

  /** One operation; a request is created under an id not yet taken, a refused authorisation changes nothing, and
      OpWorld stands for any outside change to memories, entities and the freeze. */
  function Step(st: Store, op: Op): Store {
    match op
    case OpCreate(id, requester, legalBasis) =>
      if id in st.requests then st else st.(requests := st.requests[id := NewRequest(requester, legalBasis)])
    case OpAuthorize(id, actor, permissions, fault) => Authorize(st, id, actor, permissions, fault).0
    case OpSecondAuthorize(id, actor, permissions, fault) => SecondAuthorize(st, id, actor, permissions, fault).0
    case OpExecute(env, input) => Execute(env, st, input).0
    case OpWorld(memories, entities, frozenAt) => st.(memories := memories, entities := entities, frozenAt := frozenAt)
  }

  function Run(ops: seq<Op>): Store
    decreases |ops|
  {
    if |ops| == 0 then Empty else Step(Run(ops[..|ops| - 1]), ops[|ops| - 1])
  }

  predicate AuthorisedIn(ops: seq<Op>, id: string, who: string) {
    exists k :: 0 <= k < |ops| && ops[k].OpAuthorize? && ops[k].id == id && ops[k].actor == who
                && DELETE_PERMISSION in ops[k].permissions
  }

  predicate SecondedIn(ops: seq<Op>, id: string, who: string) {
    exists k :: 0 <= k < |ops| && ops[k].OpSecondAuthorize? && ops[k].id == id && ops[k].actor == who
                && DELETE_PERMISSION in ops[k].permissions
  }

  predicate ExecutedIn(ops: seq<Op>, id: string, who: string) {
    exists k :: 0 <= k < |ops| && ops[k].OpExecute? && ops[k].input.requestId == id && ops[k].input.executor == who
                && DELETE_PERMISSION in ops[k].input.permissions
  }

  predicate RunDone(st: Store, op: Op, id: string) {
    op.OpExecute? && op.input.requestId == id && Execute(op.env, st, op.input).1.Done?
  }

  /** The last step that is a done run for the request. */
  function LastDone(ops: seq<Op>, id: string): (k: Option<nat>)
    ensures k.Some? ==> k.value < |ops|
    decreases |ops|
  {
    if |ops| == 0 then None
    else
      var before := ops[..|ops| - 1];
      if RunDone(Run(before), ops[|ops| - 1], id) then Some(|before|) else LastDone(before, id)
  }

  predicate DoneIn(ops: seq<Op>, id: string) { LastDone(ops, id).Some? }

  /** The identities on a request, as strings that are present. */
  predicate Backed(ops: seq<Op>, id: string, r: Request) {
    && Distinct3(r)
    && (r.authorizedBy.Some? ==> r.authorizedBy.value != "" && AuthorisedIn(ops, id, r.authorizedBy.value))
    && (r.second.Some? ==> r.second.value != "" && SecondedIn(ops, id, r.second.value))
    && (r.executor.Some? ==> r.executor.value != "" && ExecutedIn(ops, id, r.executor.value))
  }

  lemma BackedLater(before: seq<Op>, op: Op, id: string, r: Request)
    requires Backed(before, id, r)
    ensures Backed(before + [op], id, r)
  {
    var ops := before + [op];
    assert forall k :: 0 <= k < |before| ==> ops[k] == before[k];
    hide Distinct3;
  }

  ghost predicate AllListingsOk(ops: seq<Op>) {
    forall k :: 0 <= k < |ops| && ops[k].OpExecute? ==> ListsSets(ops[k].env.listing)
  }

  /** What the induction carries for one request. */
  ghost predicate Vouched(ops: seq<Op>, id: string, st: Store) {
    id in st.requests ==> Backed(ops, id, st.requests[id]) && (st.requests[id].status == Executed ==> DoneIn(ops, id))
  }

  lemma VouchedLater(before: seq<Op>, op: Op, id: string, st: Store)
    requires Vouched(before, id, st)
    ensures Vouched(before + [op], id, st)
  {
    assert (before + [op])[..|before|] == before;
    hide Backed, RunDone, Run;
    if id in st.requests { BackedLater(before, op, id, st.requests[id]); }
  }

  /** The request's row changes only by an authorisation of a permitted person. */
  lemma AuthoriseBacked(before: seq<Op>, op: Op, id: string, st: Store)
    requires (op.OpAuthorize? || op.OpSecondAuthorize?) && Vouched(before + [op], id, st)
    ensures Vouched(before + [op], id, Step(st, op))
  {
    var ops := before + [op];
    assert ops[|before|] == op;
    hide DoneIn, Distinct3;
  }

  lemma ExecuteBacked(before: seq<Op>, op: Op, id: string)
    requires op.OpExecute? && ListsSets(op.env.listing) && Vouched(before + [op], id, Run(before))
    ensures Vouched(before + [op], id, Step(Run(before), op))
  {
    var st, ops := Run(before), before + [op];
    assert ops[|before|] == op && ops[..|before|] == before;
    assert RunDone(st, op, id) ==> DoneIn(ops, id);
    hide DoneIn, Execute, Run, Referencing, OwnWrites, AllScrubbed;
    ExecuteEffect(op.env, st, op.input);
    if id == op.input.requestId && id in st.requests && Step(st, op).requests[id] != st.requests[id] {
      ExecutorWasPermitted(op.env, st, op.input);
      assert ExecutedIn(ops, id, op.input.executor);
    }
    hide Distinct3, AuthorisedIn, SecondedIn;
  }

  lemma StepBacked(before: seq<Op>, op: Op, id: string)
    requires op.OpExecute? ==> ListsSets(op.env.listing)
    requires Vouched(before, id, Run(before))
    ensures Vouched(before + [op], id, Step(Run(before), op))
  {
    VouchedLater(before, op, id, Run(before));
    match op
    case OpExecute(_, _) => ExecuteBacked(before, op, id);
    case OpAuthorize(_, _, _, _) => AuthoriseBacked(before, op, id, Run(before));
    case OpSecondAuthorize(_, _, _, _) => AuthoriseBacked(before, op, id, Run(before));
    case OpCreate(_, _, _) => hide Run, DoneIn;
    case OpWorld(_, _, _) => hide Run, DoneIn, Backed;
  }

  /** A run that records an executor has passed the gate. */
  lemma ExecutorWasPermitted(env: Env, st: Store, input: Input)
    requires ListsSets(env.listing) && input.requestId in st.requests
    ensures var t := Execute(env, st, input).0;
      input.requestId in t.requests &&
      (t.requests[input.requestId] != st.requests[input.requestId] ==>
        DELETE_PERMISSION in input.permissions && input.executor != "" && Distinct3(t.requests[input.requestId]))
  {
    hide Preflight, IdentifyRecords, FlagConnectors, Mechanism, ScrubPhase, Finish, OwnWrites, AllScrubbed, ExecutorReasons, Referencing;
    ExecuteEffect(env, st, input);
    PreflightEffect(env, st, input);
    var a := Preflight(env, st, input);
    if a.Go? {
      NoReasons(a.value, input.executor, input.permissions);
    }
  }

  /** THE PEOPLE BEHIND AN ERASURE. In every reachable state the identities on a request are pairwise distinct, each was
      recorded by a step in which that person held the permission, and an executed request has all three and a run
      that was done. */
  lemma ExecutedRequestsAreBacked(ops: seq<Op>, id: string)
    requires AllListingsOk(ops) && id in Run(ops).requests
    ensures Backed(ops, id, Run(ops).requests[id])
    ensures var r := Run(ops).requests[id];
            r.status == Executed ==> r.authorizedBy.Some? && r.second.Some? && r.executor.Some? && DoneIn(ops, id)
  {
    RunVouched(ops, id);
    hide Run, DoneIn;
    ExecutedHasAll(Run(ops).requests[id]);
  }

  lemma ExecutedHasAll(r: Request)
    ensures Distinct3(r) && r.status == Executed ==> r.authorizedBy.Some? && r.second.Some? && r.executor.Some?
  {
  }

  lemma {:induction false} RunVouched(ops: seq<Op>, id: string)
    requires AllListingsOk(ops)
    ensures Vouched(ops, id, Run(ops))
    decreases |ops|
  {
    if |ops| > 0 {
      var before, op := ops[..|ops| - 1], ops[|ops| - 1];
      assert ops == before + [op];
      hide Step, Vouched;
      RunVouched(before, id);
      StepBacked(before, op, id);
    }
  }

  /** Executed is not a final status: a first authorisation whose write goes through takes an executed request back to
      authorised exactly when the actor is permitted and is neither of the other two people on it. */
  lemma ExecutedReopenedIff(st: Store, id: string, actor: string, permissions: seq<string>, fault: AuthFault)
    requires id in st.requests && st.requests[id].status == Executed && Distinct3(st.requests[id])
    ensures Authorize(st, id, actor, permissions, fault).0.requests[id].status == Authorised
            <==> actor != "" && DELETE_PERMISSION in permissions && !fault.WriteFails?
                 && st.requests[id].second != Some(actor) && st.requests[id].executor != Some(actor)
  {
  }

  /** A THROWN AUTHORISATION CAN STICK. A first or second authorisation that throws leaves the request written exactly when
      everything was in order but the emit after the write; otherwise it changes nothing. */
  lemma ThrownAuthorisationSticksIff(st: Store, id: string, actor: string, permissions: seq<string>, fault: AuthFault)
    requires id in st.requests
    ensures var r := st.requests[id].(status := Authorised, authorizedBy := Some(actor));
      var (t, ok) := Authorize(st, id, actor, permissions, fault);
      !ok ==> t == if fault.EmitFails? && actor != "" && DELETE_PERMISSION in permissions && Distinct3(r) then st.(requests := st.requests[id := r]) else st
    ensures var r := st.requests[id].(second := Some(actor));
      var (t, ok) := SecondAuthorize(st, id, actor, permissions, fault);
      !ok ==> t == if fault.EmitFails? && actor != "" && DELETE_PERMISSION in permissions && Distinct3(r) then st.(requests := st.requests[id := r]) else st
  {
  }

  // ---------------------------------------------------------------- whose identities an executed request shows

  /** A second authorisation is written. */
  predicate SecondWritten(st: Store, op: Op, id: string) {
    op.OpSecondAuthorize? && op.id == id && id in st.requests && op.actor != "" && DELETE_PERMISSION in op.permissions
    && !op.fault.WriteFails? && Distinct3(st.requests[id].(second := Some(op.actor)))
  }

  /** A run gets past its gate and records its executor, whether or not it is done in the end. */
  predicate ExecutorWritten(st: Store, op: Op, id: string) {
    op.OpExecute? && op.input.requestId == id && Preflight(op.env, st, op.input).Go?
  }

  /** The last second authorisation written from position `from` on. */
  function LastSecond(ops: seq<Op>, id: string, from: nat): Option<string>
    decreases |ops|
  {
    if |ops| <= from then None
    else
      var before, op := ops[..|ops| - 1], ops[|ops| - 1];
      if SecondWritten(Run(before), op, id) then Some(op.actor) else LastSecond(before, id, from)
  }

  /** The last executor written from position `from` on. */
  function LastExecutor(ops: seq<Op>, id: string, from: nat): Option<string>
    decreases |ops|
  {
    if |ops| <= from then None
    else
      var before, op := ops[..|ops| - 1], ops[|ops| - 1];
      if ExecutorWritten(Run(before), op, id) then Some(op.input.executor) else LastExecutor(before, id, from)
  }

  /** What a run that is not done leaves of the requests: at most its executor is recorded. */
  lemma NotDoneRequests(env: Env, st: Store, input: Input)
    requires ListsSets(env.listing) && !Execute(env, st, input).1.Done?
    ensures Execute(env, st, input).0.requests ==
              if Preflight(env, st, input).Go? then Preflight(env, st, input).st.requests else st.requests
  {
    hide Preflight, IdentifyRecords, FlagConnectors, Mechanism, ScrubPhase, Finish, AllScrubbed, OwnWrites, Referencing;
    PreflightEffect(env, st, input);
    var a := Preflight(env, st, input);
    if a.Go? {
      IdentifyEffect(env, a.st, input);
      var b := IdentifyRecords(env, a.st, input);
      if b.Go? {
        FlagConnectorsEffect(env, b.st, input);
        var c := FlagConnectors(env, b.st, input);
        if c.Go? {
          MechanismEffect(env, c.st, input, c.value);
          var d := Mechanism(env, c.st, input, c.value);
          if d.Go? {
            ScrubPhaseEffect(env, d.st, input, d.value, c.value);
            var e := ScrubPhase(env, d.st, input, d.value, c.value);
            if e.Go? { FinishEffect(env, e.st, input, a.value, b.value, d.value, c.value, e.value); }
          }
        }
      }
    }
  }

  /** One step that is no done run: an executed request was executed before, and at most its second authoriser or its
      executor is replaced. */
  lemma StepPeople(st: Store, op: Op, id: string)
    requires op.OpExecute? ==> ListsSets(op.env.listing)
    requires !RunDone(st, op, id) && id in Step(st, op).requests && Step(st, op).requests[id].status == Executed
    ensures id in st.requests && st.requests[id].status == Executed
    ensures Step(st, op).requests[id] == st.requests[id]
              .(second := if SecondWritten(st, op, id) then Some(op.actor) else st.requests[id].second)
              .(executor := if ExecutorWritten(st, op, id) then Some(op.input.executor) else st.requests[id].executor)
  {
    if op.OpExecute? {
      if op.input.requestId == id {
        NotDoneRequests(op.env, st, op.input);
        PreflightEffect(op.env, st, op.input);
      } else {
        ExecuteEffect(op.env, st, op.input);
      }
      hide Execute, Preflight, OwnWrites, AllScrubbed, Referencing;
    }
  }

  /** WHOSE NAMES AN EXECUTED REQUEST SHOWS. In every reachable state an executed request has a last done run. The first
      authoriser and the time are still that run's. The second authoriser and the executor are the last written since, if any:
      they are still that run's exactly when no later second authorisation, and no later run that got past its gate, has
      written another name last. */
  lemma {:induction false} ExecutedPeople(ops: seq<Op>, id: string) returns (k: nat)
    requires AllListingsOk(ops) && id in Run(ops).requests && Run(ops).requests[id].status == Executed
    ensures LastDone(ops, id) == Some(k) && id in Run(ops[..k + 1]).requests
    ensures var r, d := Run(ops).requests[id], Run(ops[..k + 1]).requests[id];
      && d.status == Executed && r.authorizedBy == d.authorizedBy && r.executedAt == d.executedAt
      && r.second == (if LastSecond(ops, id, k + 1).Some? then LastSecond(ops, id, k + 1) else d.second)
      && r.executor == (if LastExecutor(ops, id, k + 1).Some? then LastExecutor(ops, id, k + 1) else d.executor)
      && (r.second == d.second <==> LastSecond(ops, id, k + 1).None? || LastSecond(ops, id, k + 1) == d.second)
      && (r.executor == d.executor <==> LastExecutor(ops, id, k + 1).None? || LastExecutor(ops, id, k + 1) == d.executor)
    decreases |ops|
  {
    var n := |ops| - 1;
    var before, op := ops[..n], ops[n];
    hide Step, RunDone, SecondWritten, ExecutorWritten;
    if RunDone(Run(before), op, id) {
      k := n;
      assert ops[..n + 1] == ops;
    } else {
      StepPeople(Run(before), op, id);
      k := ExecutedPeople(before, id);
      assert before[..k + 1] == ops[..k + 1];
    }
  }

  // ---------------------------------------------------------------- an executed request exists

  const PERMITTED: seq<string> := [DELETE_PERMISSION]

  /** Create, authorise twice, execute. */
  function ExecutedOps(env: Env): seq<Op> {
    [OpCreate("r", "requester", None), OpAuthorize("r", "a", PERMITTED, NoFault), OpSecondAuthorize("r", "b", PERMITTED, NoFault),
     OpExecute(env, Input("r", "target", "reason", Subject(None, []), Authz("c", None), "c", PERMITTED, []))]
  }

  /** No port throws and the mechanism reports one leg complete. */
  ghost predicate Smooth(env: Env) {
    ListsSets(env.listing) && (forall n :: !env.faults(n))
    && env.mechanism(map[]) == (map[], Some(Report([Leg(OtherLeg("rows"), Complete)], [])))
  }

  lemma Extend(ops: seq<Op>, op: Op)
    ensures Run(ops + [op]) == Step(Run(ops), op)
  {
    assert (ops + [op])[..|ops|] == ops;
  }

  /** Before the execution the request has two authorisers and the store is empty otherwise. */
  lemma AuthorisedExample(env: Env)
    ensures var st := Run(ExecutedOps(env)[..3]);
      && st.requests == map["r" := Request("requester", None, Authorised, Some("a"), Some("b"), None, None)]
      && st.memories == map[] && st.frozenAt == None
  {
    var ops := ExecutedOps(env);
    var o1, o2 := ops[..1], ops[..2];
    assert Run([]) == Empty;
    assert o1 == [] + [ops[0]] && o2 == o1 + [ops[1]] && ops[..3] == o2 + [ops[2]];
    Extend([], ops[0]);
    Extend(o1, ops[1]);
    Extend(o2, ops[2]);
    hide Run;
  }

  lemma ExecutionExample(env: Env, st: Store, input: Input)
    requires Smooth(env) && input == ExecutedOps(env)[3].input
    requires st.requests == map["r" := Request("requester", None, Authorised, Some("a"), Some("b"), None, None)]
    requires st.memories == map[] && st.frozenAt == None
    ensures var t := Execute(env, st, input).0;
      "r" in t.requests && t.requests["r"] == Request("requester", None, Executed, Some("a"), Some("b"), Some("c"), Some(env.now))
  {
    hide Execute, OwnWrites, AllScrubbed, Referencing;
    CleanRunDoneIff(env, st, input);
    assert MayRun(st, input);
    ExecuteEffect(env, st, input);
    hide ExecutorReasons, ListsSets;
  }

  lemma AfterExecution(t: Store, now: int)
    requires "r" in t.requests && t.requests["r"] == Request("requester", None, Executed, Some("a"), Some("b"), Some("c"), Some(now))
    ensures var u := Authorize(t, "r", "d", PERMITTED, NoFault).0; "r" in u.requests && u.requests["r"].status == Authorised
    ensures var u := SecondAuthorize(t, "r", "d", PERMITTED, NoFault).0;
      "r" in u.requests && u.requests["r"] == Request("requester", None, Executed, Some("a"), Some("d"), Some("c"), Some(now))
  {
  }

  /** A request that was executed; then an accepted first authorisation takes it back to authorised, and an accepted second
      authorisation, instead, leaves it executed under a name that took no part. */
  lemma ExecutedExample(env: Env)
    requires Smooth(env)
    ensures var ops := ExecutedOps(env);
      && "r" in Run(ops).requests
      && Run(ops).requests["r"] == Request("requester", None, Executed, Some("a"), Some("b"), Some("c"), Some(env.now))
      && "r" in Run(ops + [OpAuthorize("r", "d", PERMITTED, NoFault)]).requests
      && Run(ops + [OpAuthorize("r", "d", PERMITTED, NoFault)]).requests["r"].status == Authorised
      && "r" in Run(ops + [OpSecondAuthorize("r", "d", PERMITTED, NoFault)]).requests
      && Run(ops + [OpSecondAuthorize("r", "d", PERMITTED, NoFault)]).requests["r"]
         == Request("requester", None, Executed, Some("a"), Some("d"), Some("c"), Some(env.now))
  {
    var ops := ExecutedOps(env);
    AuthorisedExample(env);
    assert ops == ops[..3] + [ops[3]];
    Extend(ops[..3], ops[3]);
    Extend(ops, OpAuthorize("r", "d", PERMITTED, NoFault));
    Extend(ops, OpSecondAuthorize("r", "d", PERMITTED, NoFault));
    hide Run, Execute, Authorize, SecondAuthorize, Smooth;
    ExecutionExample(env, Run(ops[..3]), ops[3].input);
    AfterExecution(Run(ops), env.now);
  }
}
