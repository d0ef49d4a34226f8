/** The right-to-erasure workflow (app/compliance-erasure): the store, the two-person authorisation and the erasure run
    as transition functions. Every port call may throw; a call that throws has changed nothing. */
module ErasureSpec {
  import opened Wrappers
  import opened Scrub
  import opened Identify

  datatype Sensitivity = Standard | Confidential | Personal | Restricted

  datatype Memory = Memory(content: string, entities: seq<string>, sensitivity: Sensitivity)

  type Memories = map<string, Memory>

  datatype RequestStatus = Received | Authorised | Executed | RequestRejected

  datatype Request = Request(
    requester: string, legalBasis: Option<string>, status: RequestStatus, authorizedBy: Option<string>,
    second: Option<string>, executor: Option<string>, executedAt: Option<int>)

  datatype FlagState = Raised | Acknowledged | Resolved

  datatype ConnectorFlag = ConnectorFlag(request: string, connector: string, state: FlagState)

  datatype LegName = ScrubPending | EscalationEmit | OtherLeg(name: string)

  datatype LegStatus = Complete | Owed | LegFailed | Blocked | OtherStatus(text: string)

  datatype Leg = Leg(name: LegName, status: LegStatus)

  datatype Report = Report(legs: seq<Leg>, hardDeleted: seq<string>)

  datatype Counts = Counts(hardDeleted: nat, idRemoved: nat, redacted: nat)

  datatype Audit = Audit(
    request: string, requester: string, authorizedBy: Option<string>, second: Option<string>, executor: string,
    actor: string, originator: Option<string>, target: string, legalBasis: string, executedAt: int, counts: Counts)

  datatype Event = RecordsIdentified | RequestAuthorised | RequestSecondAuthorised | RequestHeld | RequestExecuted
                 | BlockedFrozen | ConfigFailClosed

  /** `calls` counts the port calls made so far; it indexes the pattern of faults. */
  datatype Store = Store(
    requests: map<string, Request>, flags: seq<ConnectorFlag>, memories: Memories, entities: set<string>,
    audits: seq<Audit>, lifecycle: seq<(Event, string)>, frozenAt: Option<int>, calls: nat)

  datatype Authz = Authz(actor: string, originator: Option<string>)

  datatype Input = Input(
    requestId: string, target: string, reason: string, subject: Subject, authz: Authz, executor: string,
    permissions: seq<string>, confirmed: seq<string>)

  /** The surroundings of one run: which port calls throw, what the deletion mechanism does to the memories and
      reports (no report: it throws after its effect), the connectors it detects, the order in which a set of memory
      ids is returned, and the time. */
  datatype Env = Env(
    faults: nat -> bool, mechanism: Memories -> (Memories, Option<Report>), connectors: seq<string>,
    listing: set<string> -> seq<string>, now: int)

  const DELETE_PERMISSION := "PERM-memory.delete"

  datatype AuthReason = ExecutorLacksPermission | MissingExecutor | MissingAuthoriser | MissingSecond
                      | AuthoriserIsSecond | ExecutorIsAuthoriser | ExecutorIsSecond

  datatype HoldReason =
    | FreezeReadFailed | RequestNotFound | AuthorisationDenied(reasons: seq<AuthReason>) | ActorIsNotExecutor
    | ExecutorPersistFailed | IdentifyFailed | ConnectorDetectionFailed | MechanismThrew | EmptyReport
    | Incomplete(blocking: seq<Leg>) | SingleEntityResidue(id: string) | ScrubFailed | Residue(count: nat)
    | EntityDeleteFailed | AuditWriteFailed | StatusFlipFailed

  datatype ThrowReason = DeploymentFrozen | RequestReadFailed | ResidueReadFailed

  datatype Outcome =
    | Done(verified: Report, counts: Counts, flags: seq<string>)
    | Held(why: HoldReason, report: Option<Report>, counts: Counts, flags: seq<string>)
    | Threw(what: ThrowReason)

  /** A phase of the run either goes on or stops it. */
  datatype Flow<T> = Go(st: Store, value: T) | Stop(st: Store, out: Outcome)

  // ---------------------------------------------------------------- ports

  function Tick(st: Store): Store { st.(calls := st.calls + 1) }

  predicate Fails(env: Env, st: Store) { env.faults(st.calls) }

  /** An emit whose failure is ignored. */
  function Emit(env: Env, st: Store, event: Event, id: string): (t: Store)
    ensures t == st.(calls := st.calls + 1, lifecycle := t.lifecycle)
  {
    if Fails(env, st) then Tick(st) else Tick(st).(lifecycle := st.lifecycle + [(event, id)])
  }

  function HoldAs<T>(env: Env, st: Store, input: Input, why: HoldReason, report: Option<Report>, counts: Counts, flags: seq<string>): Flow<T> {
    Stop(Emit(env, st, RequestHeld, input.requestId), Held(why, report, counts, flags))
  }

  const NoCounts := Counts(0, 0, 0)

  /** The check constraints on a request row. */
  predicate Distinct3(r: Request) {
    && (r.second.Some? && r.authorizedBy.Some? ==> r.second != r.authorizedBy)
    && (r.executor.Some? && r.authorizedBy.Some? ==> r.executor != r.authorizedBy)
    && (r.executor.Some? && r.second.Some? ==> r.executor != r.second)
    && (r.status == Executed ==> r.authorizedBy.Some? && r.second.Some? && r.executor.Some?)
  }

  /** Writes a request row unless it is unknown or violates a constraint. */
  function UpdateRequest(st: Store, id: string, r: Request): Option<Store> {
    if id !in st.requests || !Distinct3(r) then None else Some(st.(requests := st.requests[id := r]))
  }

  function Referencing(m: Memories, target: string): set<string> {
    set id | id in m && target in m[id].entities
  }

  // ---------------------------------------------------------------- two-person authorisation

  /** What fails in an authorisation call: nothing, the write of the request, or the emit after it. */
  datatype AuthFault = NoFault | WriteFails | EmitFails

  /** The new request row, if the write goes through. */
  function AuthorisedRow(st: Store, id: string, actor: string, permissions: seq<string>, r: Request, fault: AuthFault): Option<Store> {
    if actor == "" || DELETE_PERMISSION !in permissions || fault.WriteFails? then None else UpdateRequest(st, id, r)
  }

  /** The emit comes after the write: when it fails the row stays written though the call throws. */
  function Announced(st: Store, next: Option<Store>, event: Event, id: string, fault: AuthFault): (Store, bool) {
    if next.None? then (st, false)
    else if fault.EmitFails? then (next.value, false)
    else (next.value.(lifecycle := next.value.lifecycle + [(event, id)]), true)
  }

  /** The new store, and whether the call returned. */
  function Authorize(st: Store, id: string, actor: string, permissions: seq<string>, fault: AuthFault): (Store, bool) {
    if id !in st.requests then (st, false)
    else
      var r := st.requests[id].(status := Authorised, authorizedBy := Some(actor));
      Announced(st, AuthorisedRow(st, id, actor, permissions, r, fault), RequestAuthorised, id, fault)
  }

  function SecondAuthorize(st: Store, id: string, actor: string, permissions: seq<string>, fault: AuthFault): (Store, bool) {
    if id !in st.requests then (st, false)
    else
      var r := st.requests[id].(second := Some(actor));
      Announced(st, AuthorisedRow(st, id, actor, permissions, r, fault), RequestSecondAuthorised, id, fault)
  }

  predicate Present(identity: Option<string>) { identity.Some? && identity.value != "" }

  /** Every failed precondition of the executor, in order. */
  function ExecutorReasons(r: Request, executor: string, permissions: seq<string>): seq<AuthReason> {
    (if DELETE_PERMISSION !in permissions then [ExecutorLacksPermission] else [])
    + (if executor == "" then [MissingExecutor] else [])
    + (if !Present(r.authorizedBy) then [MissingAuthoriser] else [])
    + (if !Present(r.second) then [MissingSecond] else [])
    + (if Present(r.authorizedBy) && r.authorizedBy == r.second then [AuthoriserIsSecond] else [])
    + (if executor != "" && r.authorizedBy == Some(executor) then [ExecutorIsAuthoriser] else [])
    + (if executor != "" && r.second == Some(executor) then [ExecutorIsSecond] else [])
  }

  // ---------------------------------------------------------------- the phases of a run

  /** Freeze guard, configuration, persisted request, authorisation gate, executor record. */
  function Preflight(env: Env, st: Store, input: Input): Flow<Request> {
    if Fails(env, st) then HoldAs(env, Tick(st), input, FreezeReadFailed, None, NoCounts, [])
    else
      var s1 := Tick(st);
      if st.frozenAt.Some? then Stop(Emit(env, s1, BlockedFrozen, input.requestId), Threw(DeploymentFrozen))
      else
        var s2 := if Fails(env, s1) then Emit(env, Tick(s1), ConfigFailClosed, input.requestId) else Tick(s1);
        if Fails(env, s2) then Stop(Tick(s2), Threw(RequestReadFailed))
        else
          var s3 := Tick(s2);
          if input.requestId !in st.requests then HoldAs(env, s3, input, RequestNotFound, None, NoCounts, [])
          else
            var r := st.requests[input.requestId];
            var reasons := ExecutorReasons(r, input.executor, input.permissions);
            if |reasons| > 0 then HoldAs(env, s3, input, AuthorisationDenied(reasons), None, NoCounts, [])
            else if input.authz.actor != input.executor then HoldAs(env, s3, input, ActorIsNotExecutor, None, NoCounts, [])
            else
              var next := UpdateRequest(Tick(s3), input.requestId, r.(executor := Some(input.executor)));
              if Fails(env, s3) || next.None? then HoldAs(env, Tick(s3), input, ExecutorPersistFailed, None, NoCounts, [])
              else Go(next.value, r)
  }

  /** Identification; the value says whether the target's entity record exists. */
  function IdentifyRecords(env: Env, st: Store, input: Input): Flow<bool> {
    var s1 := Tick(st);
    var s2 := Tick(s1);
    var s3 := if |SearchTerms(input.subject)| == 0 then s2 else Tick(s2);
    if Fails(env, st) then HoldAs(env, s1, input, IdentifyFailed, None, NoCounts, [])
    else if Fails(env, s1) then HoldAs(env, s2, input, IdentifyFailed, None, NoCounts, [])
    else if s3 != s2 && Fails(env, s2) then HoldAs(env, s3, input, IdentifyFailed, None, NoCounts, [])
    else if Fails(env, s3) then HoldAs(env, Tick(s3), input, IdentifyFailed, None, NoCounts, [])
    else Go(Emit(env, s3, RecordsIdentified, input.requestId), input.target in st.entities)
  }

  /** Raising a flag is idempotent per request and connector while one is open. */
  function RaiseFlag(flags: seq<ConnectorFlag>, id: string, connector: string): seq<ConnectorFlag> {
    if exists i :: 0 <= i < |flags| && flags[i].request == id && flags[i].connector == connector && flags[i].state != Resolved
    then flags else flags + [ConnectorFlag(id, connector, Raised)]
  }

  /** Raise a flag per connector; the value is the connectors flagged, and whether all were. */
  function RaiseFlags(env: Env, st: Store, id: string, connectors: seq<string>): (Store, seq<string>, bool)
    decreases |connectors|
  {
    if |connectors| == 0 then (st, [], true)
    else if Fails(env, st) then (Tick(st), [], false)
    else
      var rest := RaiseFlags(env, Tick(st).(flags := RaiseFlag(st.flags, id, connectors[0])), id, connectors[1..]);
      (rest.0, [connectors[0]] + rest.1, rest.2)
  }

  function FlagConnectors(env: Env, st: Store, input: Input): Flow<seq<string>> {
    if Fails(env, st) then HoldAs(env, Tick(st), input, ConnectorDetectionFailed, None, NoCounts, [])
    else
      var raised := RaiseFlags(env, Tick(st), input.requestId, env.connectors);
      if raised.2 then Go(raised.0, raised.1)
      else HoldAs(env, raised.0, input, ConnectorDetectionFailed, None, NoCounts, raised.1)
  }

  predicate LegAcceptable(l: Leg) {
    l.status == Complete || (l.name == ScrubPending && l.status == Owed) || (l.name == EscalationEmit && l.status == LegFailed)
  }

  function BlockingLegs(legs: seq<Leg>): seq<Leg> { Filter(legs, (l: Leg) => !LegAcceptable(l)) }

  /** The deletion mechanism and the allow-list over its legs. */
  function Mechanism(env: Env, st: Store, input: Input, flags: seq<string>): Flow<Report> {
    if Fails(env, st) then HoldAs(env, Tick(st), input, MechanismThrew, None, NoCounts, flags)
    else
      var (memories, report) := env.mechanism(st.memories);
      var s1 := Tick(st).(memories := memories);
      if report.None? then HoldAs(env, s1, input, MechanismThrew, None, NoCounts, flags)
      else
        var counts := Counts(|report.value.hardDeleted|, 0, 0);
        var blocking := BlockingLegs(report.value.legs);
        if |report.value.legs| == 0 then HoldAs(env, s1, input, EmptyReport, report, counts, flags)
        else if |blocking| > 0 then HoldAs(env, s1, input, Incomplete(blocking), report, counts, flags)
        else Go(s1, report.value)
  }

  function Without(entities: seq<string>, target: string): seq<string> {
    Filter(entities, e => e != target)
  }

  /** How a loop ends. */
  datatype LoopEnd = Finished(idRemoved: nat, redacted: nat) | Halted(why: HoldReason, idRemoved: nat, redacted: nat)

  /** De-link the target from each listed row, redacting the confirmed ones. */
  function Delink(env: Env, st: Store, input: Input, ids: seq<string>, idRemoved: nat, redacted: nat): (Store, LoopEnd)
    decreases |ids|
  {
    if |ids| == 0 then (st, Finished(idRemoved, redacted))
    else
      var id, s1 := ids[0], Tick(st);
      if Fails(env, st) then (s1, Halted(ScrubFailed, idRemoved, redacted))
      else if id !in st.memories then Delink(env, s1, input, ids[1..], idRemoved, redacted)
      else
        var m := st.memories[id];
        if |m.entities| <= 1 then (s1, Halted(SingleEntityResidue(id), idRemoved, redacted))
        else
          var scrubbed := if id in input.confirmed then Redact(m.content, RedactionTerms(input.subject)) else (m.content, 0);
          var left := Without(m.entities, input.target);
          if Fails(env, s1) || |left| == 0 then (Tick(s1), Halted(ScrubFailed, idRemoved, redacted))
          else
            Delink(env, Tick(s1).(memories := st.memories[id := m.(content := scrubbed.0, entities := left)]), input, ids[1..],
                   idRemoved + 1, if id in input.confirmed && scrubbed.1 > 0 then redacted + 1 else redacted)
  }

  /** Redact the confirmed rows that mention the target in their content only. */
  function RedactMentions(env: Env, st: Store, input: Input, handled: set<string>, ids: seq<string>, idRemoved: nat, redacted: nat)
    : (Store, LoopEnd)
    decreases |ids|
  {
    if |ids| == 0 then (st, Finished(idRemoved, redacted))
    else
      var id, s1 := ids[0], Tick(st);
      if id in handled then RedactMentions(env, st, input, handled, ids[1..], idRemoved, redacted)
      else if Fails(env, st) then (s1, Halted(ScrubFailed, idRemoved, redacted))
      else if id !in st.memories || input.target in st.memories[id].entities then
        RedactMentions(env, s1, input, handled, ids[1..], idRemoved, redacted)
      else
        var m := st.memories[id];
        var scrubbed := Redact(m.content, RedactionTerms(input.subject));
        if scrubbed.1 == 0 then RedactMentions(env, s1, input, handled, ids[1..], idRemoved, redacted)
        else if Fails(env, s1) || |m.entities| == 0 then (Tick(s1), Halted(ScrubFailed, idRemoved, redacted))
        else
          RedactMentions(env, Tick(s1).(memories := st.memories[id := m.(content := scrubbed.0)]), input, handled, ids[1..],
                         idRemoved, redacted + 1)
  }

  /** Distinct elements in order of first occurrence. */
  function Once(ids: seq<string>): (r: seq<string>)
    ensures forall x :: x in r <==> x in ids
  {
    if |ids| == 0 then []
    else
      var before, last := Once(ids[..|ids| - 1]), ids[|ids| - 1];
      assert ids == ids[..|ids| - 1] + [last];
      if last in before then before else before + [last]
  }

  function ScrubAll(env: Env, st: Store, input: Input): (Store, LoopEnd) {
    if Fails(env, st) then (Tick(st), Halted(ScrubFailed, 0, 0))
    else
      var handled := Referencing(st.memories, input.target);
      var (s1, first) := Delink(env, Tick(st), input, env.listing(handled), 0, 0);
      if first.Halted? then (s1, first)
      else RedactMentions(env, s1, input, handled, Once(input.confirmed), first.idRemoved, first.redacted)
  }

  function ScrubPhase(env: Env, st: Store, input: Input, report: Report, flags: seq<string>): Flow<Counts> {
    var (s1, end) := ScrubAll(env, st, input);
    var counts := Counts(|report.hardDeleted|, end.idRemoved, end.redacted);
    if end.Halted? then HoldAs(env, s1, input, end.why, Some(report), counts, flags) else Go(s1, counts)
  }

  function AuditOf(env: Env, input: Input, r: Request, counts: Counts): Audit {
    Audit(input.requestId, r.requester, r.authorizedBy, r.second, input.executor, input.authz.actor, input.authz.originator,
          input.target, input.reason, env.now, counts)
  }

  /** Residue re-read, entity record, audit, status flip. */
  function Finish(env: Env, st: Store, input: Input, r: Request, existed: bool, report: Report, flags: seq<string>, counts: Counts)
    : (Store, Outcome)
  {
    if Fails(env, st) then (Tick(st), Threw(ResidueReadFailed))
    else
      var s1 := Tick(st);
      var residual := Referencing(st.memories, input.target);
      if residual != {} then
        (Emit(env, s1, RequestHeld, input.requestId), Held(Residue(|residual|), Some(report), counts, flags))
      else if existed && Fails(env, s1) then
        (Emit(env, Tick(s1), RequestHeld, input.requestId), Held(EntityDeleteFailed, Some(report), counts, flags))
      else
        var s2 := if existed then Tick(s1).(entities := s1.entities - {input.target}) else s1;
        if Fails(env, s2) then
          (Emit(env, Tick(s2), RequestHeld, input.requestId), Held(AuditWriteFailed, Some(report), counts, flags))
        else
          var s3 := Tick(s2).(audits := s2.audits + [AuditOf(env, input, r, counts)]);
          var next := if input.requestId in s3.requests then
                        UpdateRequest(Tick(s3), input.requestId, s3.requests[input.requestId].(status := Executed, executedAt := Some(env.now)))
                      else None;
          if Fails(env, s3) || next.None? then
            (Emit(env, Tick(s3), RequestHeld, input.requestId), Held(StatusFlipFailed, Some(report), counts, flags))
          else (Emit(env, next.value, RequestExecuted, input.requestId), Done(report, counts, flags))
  }

  /** The whole run. */
  function Execute(env: Env, st: Store, input: Input): (Store, Outcome) {
    var a := Preflight(env, st, input);
    if a.Stop? then (a.st, a.out)
    else
      var b := IdentifyRecords(env, a.st, input);
      if b.Stop? then (b.st, b.out)
      else
        var c := FlagConnectors(env, b.st, input);
        if c.Stop? then (c.st, c.out)
        else
          var d := Mechanism(env, c.st, input, c.value);
          if d.Stop? then (d.st, d.out)
          else
            var e := ScrubPhase(env, d.st, input, d.value, c.value);
            if e.Stop? then (e.st, e.out)
            else Finish(env, e.st, input, a.value, b.value, d.value, c.value, e.value)
  }
}
