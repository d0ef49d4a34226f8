/** Who may release a task: kills are final for their batch, and releases balance approvals over every run. */
module ApprovalAccounting {
  import opened Wrappers
  import opened Tiers
  import opened Numbered
  import opened ApprovalSpec
  import opened ApprovalTheorems

  // ---------------------------------------------------------------- kills

  /** The rows of a killed batch right after the kill. */
  lemma KilledBatch(s: State, hits: seq<Hit>, candidates: seq<Reviewer>, rules: RoutingRules, now: int, delivers: nat -> bool, id: nat)
    requires HasHardLimit(hits)
    ensures var t := RaiseFlag(s, hits, candidates, rules, now, delivers).0;
            && t.tasks == s.tasks && t.resumed == s.resumed
            && (s.last < id <= s.last + |hits| ==>
                  id in t.rows && t.rows[id].kind == hits[id - s.last - 1].kind
                  && t.rows[id].status == if t.rows[id].kind == HardLimit then Pending else Rejected)
            && (!(s.last < id <= s.last + |hits|) ==>
                  (id in t.rows <==> id in s.rows) && (id in s.rows ==> t.rows[id] == s.rows[id]))
  {
    hide Append, HitRows, KilledRows, HitMetas, RouteApproval, HasHardLimit;
    if s.last < id <= s.last + |hits| {
      KilledRowAt(hits, now, id - s.last - 1);
    }
    AppendLookup(s.rows, s.last, KilledRows(hits, now), id);
  }

  lemma KilledRowAt(hits: seq<Hit>, now: int, i: nat)
    requires i < |hits|
    ensures KilledRows(hits, now)[i].kind == hits[i].kind
    ensures KilledRows(hits, now)[i].status == if hits[i].kind == HardLimit then Pending else Rejected
  {
  }

  /** A blocked hard limit and a rejected row never come to release a task. */
  lemma NeverReleases(cfg: Config, s: State, t: State, id: nat)
    requires Inv(cfg, s) && Inv(cfg, t) && Evolves(s, t) && id in s.rows
    requires s.rows[id].kind == HardLimit || s.rows[id].status == Rejected
    ensures id in t.rows && id !in t.resumed
    ensures t.rows[id].status == if s.rows[id].kind == HardLimit then Pending else Rejected
  {
    assert RowOk(cfg, s.rows[id], s.meta[id]);
    assert RowOk(cfg, t.rows[id], t.meta[id]);
    hide NoticesOk;
    assert id in t.resumed ==> ReleasedOk(t, id);
  }

  /** KILL IS FINAL. Once a batch holds a hard limit, in every later state of every run none of its rows has released
      a task: the hard limits are still pending and the others rejected. */
  lemma KillIsFinal(cfg: Config, s: State, hits: seq<Hit>, candidates: seq<Reviewer>, rules: RoutingRules, now: int,
                    delivers: nat -> bool, later: seq<Op>, id: nat)
    requires Inv(cfg, s) && HasHardLimit(hits) && s.last < id <= s.last + |hits|
    ensures var t := Run(cfg, Step(cfg, s, OpFlag(hits, candidates, rules, now, delivers)), later);
            && id in t.rows && id !in t.resumed
            && t.rows[id].status == if hits[id - s.last - 1].kind == HardLimit then Pending else Rejected
  {
    var op := OpFlag(hits, candidates, rules, now, delivers);
    var s1 := Step(cfg, s, op);
    assert s1 == RaiseFlag(s, hits, candidates, rules, now, delivers).0;
    hide *;
    StepKeeps(cfg, s, op);
    RunKeeps(cfg, s1, later);
    KilledBatch(s, hits, candidates, rules, now, delivers, id);
    NeverReleases(cfg, s1, Run(cfg, s1, later), id);
  }

  predicate Releasable(s: State, task: string, id: nat) {
    id in s.rows && s.rows[id].taskId == task && s.rows[id].status == Pending && s.rows[id].kind != HardLimit
  }

  /** Approving row id releases that task, as the resolve operation decides. */
  predicate Releases(s: State, task: string, id: nat, who: string, now: int) {
    id in s.rows && s.rows[id].taskId == task && Resolve(s, id, Approve, who, now, [], 0).1.None?
  }

  lemma ReleasesIff(s: State, task: string, id: nat, who: string, now: int)
    requires task != "" && task in s.tasks && s.tasks[task].originator != Some(who)
    ensures Releases(s, task, id, who, now) <==> Releasable(s, task, id)
  {
  }

  /** THE LIMIT OF A KILL. After a kill a reviewer other than the originator can still release a task exactly when an
      older row of that task was pending and no hard limit: the kill covers its own batch only. */
  lemma KilledTaskReleasableIff(cfg: Config, s: State, hits: seq<Hit>, candidates: seq<Reviewer>, rules: RoutingRules,
                                now: int, delivers: nat -> bool, task: string, who: string)
    requires Inv(cfg, s) && HasHardLimit(hits)
    requires task != "" && task in s.tasks && s.tasks[task].originator != Some(who)
    ensures (exists id: nat :: Releases(Step(cfg, s, OpFlag(hits, candidates, rules, now, delivers)), task, id, who, now))
            <==> (exists id: nat :: Releasable(s, task, id))
  {
    var s1 := Step(cfg, s, OpFlag(hits, candidates, rules, now, delivers));
    forall id: nat ensures Releases(s1, task, id, who, now) <==> Releasable(s, task, id) {
      KilledBatch(s, hits, candidates, rules, now, delivers, id);
      assert id in s.rows ==> id <= s.last;
      ReleasesIff(s1, task, id, who, now);
      hide RaiseFlag, RowOk, NoticeOk;
    }
  }

  // ---------------------------------------------------------------- releases balance approvals

  /** The approved rows that name a task. */
  ghost function ApprovedTasks(s: State): set<nat> {
    set id | id in s.rows && ReleasedOk(s, id)
  }

  /** Approvals that released no task. */
  ghost function Gap(s: State): int {
    |ApprovedTasks(s)| - |s.resumed|
  }

  /** The sweeps of a run that threw. */
  ghost function ThrowingSweeps(cfg: Config, s: State, ops: seq<Op>): nat
    decreases |ops|
  {
    if |ops| == 0 then 0
    else
      var before := ops[..|ops| - 1];
      ThrowingSweeps(cfg, s, before) + if SweepThrows(Run(cfg, s, before), ops[|ops| - 1]) then 1 else 0
  }

  predicate SweepThrows(s: State, op: Op) {
    op.OpAutoRun? && AutoRunFrom(s, 1, op.now).1.Err?
  }

  lemma GapOfWrite(s: State, t: State, id: nat)
    requires id in t.rows && t.rows == s.rows[id := t.rows[id]] && (id in s.rows ==> s.rows[id].status == Pending)
    ensures ApprovedTasks(t) == ApprovedTasks(s) + (if ReleasedOk(t, id) then {id} else {})
    ensures |ApprovedTasks(t)| == |ApprovedTasks(s)| + if ReleasedOk(t, id) then 1 else 0
  {
    var grown := ApprovedTasks(s) + (if ReleasedOk(t, id) then {id} else {});
    assert forall k :: k != id ==> ReleasedOk(t, k) == ReleasedOk(s, k);
    assert id !in ApprovedTasks(s);
    assert ApprovedTasks(t) == grown;
  }

  lemma GapUnchanged(s: State, t: State)
    requires t.resumed == s.resumed && forall k :: ReleasedOk(t, k) == ReleasedOk(s, k)
    ensures Gap(t) == Gap(s)
  {
    assert ApprovedTasks(t) == ApprovedTasks(s);
  }

  lemma AutoRunRowGap(s: State, id: nat, now: int)
    ensures Gap(AutoRunRow(s, id, now).0) == Gap(s) + if AutoRunRow(s, id, now).1.Some? then 1 else 0
  {
    var t := AutoRunRow(s, id, now).0;
    if Due(s, id, now) {
      GapOfWrite(s, t, id);
    }
  }

  lemma {:induction false} AutoRunGap(s: State, id: nat, now: int)
    ensures Gap(AutoRunFrom(s, id, now).0) == Gap(s) + if AutoRunFrom(s, id, now).1.Err? then 1 else 0
    decreases s.last + 1 - id
  {
    if id <= s.last {
      AutoRunRowGap(s, id, now);
      var one := AutoRunRow(s, id, now);
      if one.1.None? {
        AutoRunGap(one.0, id + 1, now);
      }
    }
  }

  lemma EscalateGap(cfg: Config, s: State, now: int, delivers: nat -> bool)
    requires Inv(cfg, s)
    ensures Gap(EscalateFrom(cfg, s, 1, now, delivers).0) == Gap(s)
  {
    var t := EscalateFrom(cfg, s, 1, now, delivers).0;
    hide RowOk, NoticesOk, ResumedOk, EscalateFrom;
    EscalateExact(cfg, s, 1, now, delivers);
    hide Inv, Stale;
    forall k ensures ReleasedOk(t, k) == ReleasedOk(s, k) {}
    hide ReleasedOk;
    GapUnchanged(s, t);
  }

  lemma FlagGap(cfg: Config, s: State, hits: seq<Hit>, candidates: seq<Reviewer>, rules: RoutingRules, now: int, delivers: nat -> bool)
    requires Inv(cfg, s)
    ensures Gap(RaiseFlag(s, hits, candidates, rules, now, delivers).0) == Gap(s)
  {
    FlagNeverApproves(cfg, s, hits, candidates, rules, now, delivers);
    FlagKeeps(cfg, s, hits, candidates, rules, now, delivers);
    hide RaiseFlag, RowOk, NoticeOk;
    GapUnchanged(s, RaiseFlag(s, hits, candidates, rules, now, delivers).0);
  }

  lemma GateGap(cfg: Config, s: State, action: GatedAction, matrix: AutonomyMatrix, now: int)
    requires Inv(cfg, s)
    ensures Gap(TierAndGate(cfg, s, action, matrix, now).0) == Gap(s)
  {
    hide RowOk, NoticesOk;
    if ClassifyTier(action, matrix).tier != Auto {
      GapOfWrite(s, TierAndGate(cfg, s, action, matrix, now).0, s.last + 1);
    } else {
      GapUnchanged(s, TierAndGate(cfg, s, action, matrix, now).0);
    }
  }

  lemma HoldGap(s: State, id: nat, who: string)
    ensures Gap(Hold(s, id, who).0) == Gap(s)
  {
    if HoldError(s, id).None? {
      GapOfWrite(s, Hold(s, id, who).0, id);
    }
  }

  lemma ResolveGap(s: State, id: nat, r: Resolution, who: string, now: int, effects: seq<Effect>, accepts: nat)
    ensures Gap(Resolve(s, id, r, who, now, effects, accepts).0) == Gap(s)
  {
    if Resolve(s, id, r, who, now, effects, accepts).1.None? {
      GapOfWrite(s, Resolve(s, id, r, who, now, effects, accepts).0, id);
    } else {
      GapUnchanged(s, Resolve(s, id, r, who, now, effects, accepts).0);
    }
  }

  lemma StepGap(cfg: Config, s: State, op: Op)
    requires Inv(cfg, s)
    ensures Gap(Step(cfg, s, op)) == Gap(s) + if SweepThrows(s, op) then 1 else 0
  {
    hide Inv, Gap, TierAndGate, AutoRunFrom, Hold, RaiseFlag, Resolve, EscalateFrom;
    match op
    case OpSeed(task) => SeedGap(s, task);
    case OpGate(action, matrix, now) => GateGap(cfg, s, action, matrix, now);
    case OpAutoRun(now) => AutoRunGap(s, 1, now);
    case OpHold(id, who) => HoldGap(s, id, who);
    case OpFlag(hits, candidates, rules, now, delivers) => FlagGap(cfg, s, hits, candidates, rules, now, delivers);
    case OpResolve(id, r, who, now, effects, accepts) => ResolveGap(s, id, r, who, now, effects, accepts);
    case OpEscalate(now, delivers) => EscalateGap(cfg, s, now, delivers);
  }

  lemma SeedGap(s: State, task: TaskRow)
    ensures Gap(s.(tasks := s.tasks[task.id := task])) == Gap(s)
  {
    GapUnchanged(s, s.(tasks := s.tasks[task.id := task]));
  }

  /** RELEASE ACCOUNTING over every run: no row releases a task twice, only approved rows do, and the approved rows
      that name a task number the releases plus the sweeps that threw on a missing task. */
  lemma {:induction false} ReleasesBalanceApprovals(cfg: Config, ops: seq<Op>)
    ensures var s := Run(cfg, Empty, ops);
            && NoDup(s.resumed) && (forall id :: id in s.resumed ==> ReleasedOk(s, id))
            && |ApprovedTasks(s)| == |s.resumed| + ThrowingSweeps(cfg, Empty, ops)
    decreases |ops|
  {
    EmptyOk(cfg);
    RunKeeps(cfg, Empty, ops);
    if |ops| == 0 {
      assert ApprovedTasks(Empty) == {};
    } else {
      var before := ops[..|ops| - 1];
      ReleasesBalanceApprovals(cfg, before);
      RunKeeps(cfg, Empty, before);
      StepGap(cfg, Run(cfg, Empty, before), ops[|ops| - 1]);
    }
  }

  lemma {:induction false} NoDupCardinality(s: seq<nat>, ids: set<nat>)
    requires NoDup(s) && forall id :: id in s ==> id in ids
    ensures |s| <= |ids| && (|s| == |ids| ==> forall id :: id in ids ==> id in s)
    decreases |s|
  {
    if |s| > 0 {
      var last, init := s[|s| - 1], s[..|s| - 1];
      assert forall id :: id in s <==> id in init || id == last;
      NoDupCardinality(init, ids - {last});
    } else if |ids| == 0 {
      assert ids == {};
    }
  }

  /** The step is a sweep that meets a due row naming a task the queue does not know. */
  ghost predicate MeetsUnknownTask(s: State, op: Op) {
    op.OpAutoRun? && exists id: nat :: Stranded(s, id, op.now)
  }

  lemma SweepThrowsIff(cfg: Config, s: State, op: Op)
    requires Inv(cfg, s)
    ensures SweepThrows(s, op) <==> MeetsUnknownTask(s, op)
  {
    hide RowOk, NoticesOk, ResumedOk, AutoRunFrom;
    if op.OpAutoRun? {
      var _ := AutoRunExact(s, 1, op.now);
      hide AutoRunRow, Due;
      forall id: nat | Stranded(s, id, op.now) ensures 1 <= id { StrandedIsRow(s, id, op.now); }
    }
  }

  lemma StrandedIsRow(s: State, id: nat, now: int)
    requires Stranded(s, id, now)
    ensures id in s.rows
  {
  }

  /** Step k of the run is such a sweep. */
  ghost predicate MeetsUnknownTaskAt(cfg: Config, ops: seq<Op>, k: nat)
    requires k < |ops|
  {
    MeetsUnknownTask(Run(cfg, Empty, ops[..k]), ops[k])
  }

  lemma EarlierSteps(cfg: Config, ops: seq<Op>, n: nat)
    requires n <= |ops|
    ensures forall k :: 0 <= k < n ==> MeetsUnknownTaskAt(cfg, ops[..n], k) == MeetsUnknownTaskAt(cfg, ops, k)
  {
    hide MeetsUnknownTask;
    forall k | 0 <= k < n ensures MeetsUnknownTaskAt(cfg, ops[..n], k) == MeetsUnknownTaskAt(cfg, ops, k) {
      assert ops[..n][..k] == ops[..k];
    }
  }

  lemma {:induction false} NoThrowIff(cfg: Config, ops: seq<Op>)
    ensures ThrowingSweeps(cfg, Empty, ops) == 0 <==> forall k :: 0 <= k < |ops| ==> !MeetsUnknownTaskAt(cfg, ops, k)
    decreases |ops|
  {
    hide SweepThrows, MeetsUnknownTask, Inv;
    if |ops| > 0 {
      var n := |ops| - 1;
      NoThrowIff(cfg, ops[..n]);
      EmptyOk(cfg);
      RunKeeps(cfg, Empty, ops[..n]);
      SweepThrowsIff(cfg, Run(cfg, Empty, ops[..n]), ops[n]);
      assert SweepThrows(Run(cfg, Empty, ops[..n]), ops[n]) == MeetsUnknownTaskAt(cfg, ops, n);
      EarlierSteps(cfg, ops, n);
      hide Run, MeetsUnknownTaskAt;
    }
  }

  /** Every approved row that names a task has released it. */
  ghost predicate AllReleased(s: State) {
    forall id :: id in s.rows && ReleasedOk(s, id) ==> id in s.resumed
  }

  lemma AllReleasedIffNoThrow(cfg: Config, ops: seq<Op>)
    ensures AllReleased(Run(cfg, Empty, ops)) <==> ThrowingSweeps(cfg, Empty, ops) == 0
  {
    var s := Run(cfg, Empty, ops);
    ReleasesBalanceApprovals(cfg, ops);
    NoDupCardinality(s.resumed, ApprovedTasks(s));
    if AllReleased(s) {
      SetOfSeq(s.resumed, ApprovedTasks(s));
    }
  }

  /** EXACTLY WHEN EVERY APPROVAL RELEASES. Every approved row that names a task has released it if and only if no sweep of the
      run met a due row naming a task that the queue did not know. */
  lemma AllReleasedIffNoSweepThrew(cfg: Config, ops: seq<Op>)
    ensures AllReleased(Run(cfg, Empty, ops)) <==> forall k :: 0 <= k < |ops| ==> !MeetsUnknownTaskAt(cfg, ops, k)
  {
    AllReleasedIffNoThrow(cfg, ops);
    NoThrowIff(cfg, ops);
    hide AllReleased, MeetsUnknownTaskAt, Run;
  }

  lemma {:induction false} SetOfSeq(s: seq<nat>, ids: set<nat>)
    requires forall id :: id in ids ==> id in s
    ensures |ids| <= |s|
    decreases |s|
  {
    if |s| == 0 {
      assert ids == {};
    } else {
      var last, init := s[|s| - 1], s[..|s| - 1];
      assert forall id :: id in s <==> id in init || id == last;
      SetOfSeq(init, ids - {last});
    }
  }

  /** A sweep does strand a row: from the empty workflow, a medium-risk reversible action on a task the queue does not know is
      gated and, after its window, approved by a sweep that throws and releases nothing. */
  lemma StrandedExample(cfg: Config)
    ensures var action := GatedAction("t", Some(Medium), Some(true), [], None, None);
      var ops := [OpGate(action, _ => None, 0), OpAutoRun(cfg.softTimeout)];
      var s := Run(cfg, Empty, ops);
      && SweepThrows(Run(cfg, Empty, ops[..1]), ops[1]) && 1 in s.rows && ReleasedOk(s, 1) && s.resumed == []
  {
    var action := GatedAction("t", Some(Medium), Some(true), [], None, None);
    var ops := [OpGate(action, _ => None, 0), OpAutoRun(cfg.softTimeout)];
    assert ops[..1][..0] == [] && ops[..1][0] == ops[0];
    assert Run(cfg, Empty, []) == Empty;
    var one := Run(cfg, Empty, ops[..1]);
    assert one == TierAndGate(cfg, Empty, action, _ => None, 0).0;
    assert one.last == 1 && 1 in one.rows && 1 in one.meta && one.tasks == map[];
    assert Due(one, 1, cfg.softTimeout);
    var t := AutoRunRow(one, 1, cfg.softTimeout);
    assert t.1.Some?;
    assert AutoRunFrom(one, 1, cfg.softTimeout).0 == t.0;
  }

  // ---------------------------------------------------------------- compensation

  function Reversible(effects: seq<Effect>): nat {
    if |effects| == 0 then 0 else Reversible(effects[..|effects| - 1]) + if effects[|effects| - 1].reversible then 1 else 0
  }

  lemma {:induction false} OwedCount(task: string, effects: seq<Effect>, now: int)
    ensures |Owed(task, effects, now)| == Reversible(effects)
    ensures forall c :: c in Owed(task, effects, now) ==> c.forTask == task && c.at == now && Effect(c.text, true) in effects
  {
    if |effects| > 0 {
      OwedCount(task, effects[..|effects| - 1], now);
      assert effects == effects[..|effects| - 1] + [effects[|effects| - 1]];
    }
  }

  /** A resolve that succeeds has queued exactly one clean-up task per reversible effect and none for the others. */
  lemma ResolvedIsCompensated(s: State, id: nat, r: Resolution, who: string, now: int, effects: seq<Effect>, accepts: nat)
    requires Resolve(s, id, r, who, now, effects, accepts).1.None?
    ensures var t := Resolve(s, id, r, who, now, effects, accepts).0;
      && s.compensations <= t.compensations && |t.compensations| == |s.compensations| + Reversible(effects)
      && forall k :: |s.compensations| <= k < |t.compensations| ==>
           var c := t.compensations[k]; c.forTask == s.rows[id].taskId && c.at == now && Effect(c.text, true) in effects
  {
    var owed := Owed(s.rows[id].taskId, effects, now);
    OwedCount(s.rows[id].taskId, effects, now);
    hide Owed;
    var t := Resolve(s, id, r, who, now, effects, accepts).0;
    assert t.compensations == s.compensations + owed;
    forall k | |s.compensations| <= k < |t.compensations| ensures t.compensations[k] in owed {
      assert t.compensations[k] == owed[k - |s.compensations|];
    }
  }

  /** A RESOLVE THAT THROWS CAN LEAVE CLEAN-UP TASKS BEHIND, so that a retry queues them again: exactly when the row and its
      resolver pass, and either the sink takes some but not all of them, or it takes all, there is one, and its task is
      unknown. */
  lemma FailedResolveCompensatesIff(s: State, id: nat, r: Resolution, who: string, now: int, effects: seq<Effect>, accepts: nat)
    requires Resolve(s, id, r, who, now, effects, accepts).1.Some?
    ensures var t := Resolve(s, id, r, who, now, effects, accepts).0;
      && t.rows == s.rows && t.tasks == s.tasks && t.resumed == s.resumed
      && (t.compensations != s.compensations <==>
            && id in s.rows && s.rows[id].status == Pending && s.rows[id].kind != HardLimit
            && !(s.rows[id].taskId != "" && s.rows[id].taskId in s.tasks && s.tasks[s.rows[id].taskId].originator == Some(who))
            && (0 < accepts < Reversible(effects)
                || (Reversible(effects) > 0 && accepts >= Reversible(effects) && s.rows[id].taskId != "" && s.rows[id].taskId !in s.tasks)))
  {
    if id in s.rows {
      var owed := Owed(s.rows[id].taskId, effects, now);
      OwedCount(s.rows[id].taskId, effects, now);
      hide Owed, Reversible;
      assert |s.compensations + owed| == |s.compensations| + |owed|;
    }
  }
}
