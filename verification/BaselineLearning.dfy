/** Proposing, confirming and applying baselines (app/anomaly-checks/src/baseline.ts, store.ts). */
module BaselineLearning {
  import opened Wrappers
  import opened Baseline

  datatype Direction = Tighten | Loosen

  datatype Status = Proposed | Confirmed | Applied | Rejected

  datatype Proposal = Proposal(
    id: nat, kind: Kind, current: real, proposed: real, direction: Direction, gate: bool, status: Status, confirmedBy: Option<string>)

  datatype Error = ConfirmRequired(kind: Kind) | NoProposal(id: nat)

  // ---------------------------------------------------------------- one kind

  /** What learning proposes for one kind, if its baseline differs from the configured bar. */
  function ProposeFor(c: Thresholds, history: map<Kind, seq<real>>, kind: Kind, id: nat): Option<Proposal>
    requires Complete(c)
  {
    var b := ComputeBaseline(kind, if kind in history then history[kind] else []);
    var t := c.of[kind];
    if b.None? || b.value == t.bar then None
    else
      var tighter := if t.comparator == AtLeast then b.value < t.bar else b.value > t.bar;
      Some(Proposal(id, kind, t.bar, b.value, if tighter then Tighten else Loosen, t.hard, Proposed, None))
  }

  /** The proposals for the first n kinds, numbered on from the last id. */
  function ProposeUpTo(c: Thresholds, history: map<Kind, seq<real>>, last: nat, n: nat): (ps: seq<Proposal>)
    requires Complete(c) && n <= |KINDS|
  {
    if n == 0 then []
    else
      var before := ProposeUpTo(c, history, last, n - 1);
      var p := ProposeFor(c, history, KINDS[n - 1], last + |before| + 1);
      before + if p.Some? then [p.value] else []
  }

  function Propose(c: Thresholds, history: map<Kind, seq<real>>, last: nat): seq<Proposal>
    requires Complete(c)
  {
    if c.learning then ProposeUpTo(c, history, last, |KINDS|) else []
  }

  /** A gate-altering proposal is applied only once confirmed; the one bar changes and nothing else. */
  function Apply(c: Thresholds, p: Proposal): Result<Thresholds, Error>
    requires Complete(c)
  {
    if p.gate && p.status != Confirmed && p.status != Applied then Err(ConfirmRequired(p.kind))
    else Ok(c.(of := c.of[p.kind := c.of[p.kind].(bar := p.proposed)]))
  }

  class AnomalyStore {
    var last: nat
    var proposals: seq<Proposal>

    constructor ()
      ensures last == 0 && proposals == []
    {
      last, proposals := 0, [];
    }

    method RecordBaselineProposal(kind: Kind, current: real, proposed: real, direction: Direction, gate: bool) returns (p: Proposal)
      modifies this
      ensures last == old(last) + 1 && p == Proposal(last, kind, current, proposed, direction, gate, Proposed, None)
      ensures proposals == old(proposals) + [p]
    {
      last := last + 1;
      p := Proposal(last, kind, current, proposed, direction, gate, Proposed, None);
      proposals := proposals + [p];
    }

    method ConfirmBaselineProposal(id: nat, admin: string) returns (r: Result<Proposal, Error>)
      modifies this`proposals
      ensures (proposals, r) == Confirm(old(proposals), id, admin)
    {
      var i := 0;
      while i < |proposals| && proposals[i].id != id
        invariant i <= |proposals| && Find(proposals, id, i) == Find(proposals, id, 0)
      {
        i := i + 1;
      }
      if i == |proposals| { return Err(NoProposal(id)); }
      var p := proposals[i].(status := Confirmed, confirmedBy := Some(admin));
      proposals := proposals[i := p];
      r := Ok(p);
    }

    /** Record what learning proposes for one kind, if anything. */
    method ProposeKind(c: Thresholds, history: map<Kind, seq<real>>, kind: Kind) returns (p: Option<Proposal>)
      requires Complete(c)
      modifies this
      ensures p == ProposeFor(c, history, kind, old(last) + 1)
      ensures if p.Some? then last == old(last) + 1 && proposals == old(proposals) + [p.value]
              else last == old(last) && proposals == old(proposals)
    {
      hide ComputeBaseline;
      var proposed := ComputeBaseline(kind, if kind in history then history[kind] else []);
      if proposed.None? { return None; }
      var current := c.of[kind].bar;
      if proposed.value == current { return None; }
      var gte := c.of[kind].comparator == AtLeast;
      var tighter := if gte then proposed.value < current else proposed.value > current;
      var recorded := RecordBaselineProposal(kind, current, proposed.value, if tighter then Tighten else Loosen, c.of[kind].hard);
      p := Some(recorded);
    }

    method ProposeBaselines(c: Thresholds, history: map<Kind, seq<real>>) returns (out: seq<Proposal>)
      requires Complete(c)
      modifies this
      ensures out == Propose(c, history, old(last))
      ensures proposals == old(proposals) + out && last == old(last) + |out|
    {
      if !c.learning { return []; }
      ghost var before, start := proposals, last;
      out := [];
      assert ProposeUpTo(c, history, start, 0) == [];
      hide ProposeFor, ProposeUpTo;
      for i := 0 to |KINDS|
        invariant out == ProposeUpTo(c, history, start, i)
        invariant proposals == before + out && last == start + |out|
      {
        var p := ProposeKind(c, history, KINDS[i]);
        ProposeNext(c, history, start, i);
        if p.Some? {
          Assoc(before, out, [p.value]);
          out := out + [p.value];
        }
      }
    }
  }

  lemma ProposeNext(c: Thresholds, history: map<Kind, seq<real>>, last: nat, i: nat)
    requires Complete(c) && i < |KINDS|
    ensures var before := ProposeUpTo(c, history, last, i);
            var p := ProposeFor(c, history, KINDS[i], last + |before| + 1);
            ProposeUpTo(c, history, last, i + 1) == if p.Some? then before + [p.value] else before
  {
    hide ProposeFor;
  }

  /** The first position from i on that holds the id, or the length. */
  function Find(ps: seq<Proposal>, id: nat, i: nat): (f: nat)
    requires i <= |ps|
    ensures i <= f <= |ps| && (f < |ps| ==> ps[f].id == id)
    ensures forall k :: i <= k < f ==> ps[k].id != id
    decreases |ps| - i
  {
    if i == |ps| || ps[i].id == id then i else Find(ps, id, i + 1)
  }

  /** The first proposal with the id becomes confirmed. */
  function Confirm(ps: seq<Proposal>, id: nat, admin: string): (seq<Proposal>, Result<Proposal, Error>) {
    var f := Find(ps, id, 0);
    if f == |ps| then (ps, Err(NoProposal(id)))
    else
      var p := ps[f].(status := Confirmed, confirmedBy := Some(admin));
      (ps[f := p], Ok(p))
  }

  // ---------------------------------------------------------------- what a proposal does to the checks

  function WithBar(c: Thresholds, kind: Kind, bar: real): (d: Thresholds)
    requires Complete(c)
    ensures Complete(d)
  {
    c.(of := c.of[kind := c.of[kind].(bar := bar)])
  }

  /** The least whole number at or above x, and none below zero. */
  function CeilNat(x: real): int { if x <= 0.0 then 0 else -((-x).Floor) }

  /** The bar lies on the readier side of the present one. The contradiction metric is a whole number of conflicts, so there
      only the whole numbers between the bars matter. */
  predicate Readier(kind: Kind, t: Threshold, bar: real) {
    if t.comparator == AtLeast then
      bar <= t.bar || (kind == Contradiction && CeilNat(bar) <= CeilNat(t.bar))
    else
      bar >= t.bar || (kind == Contradiction && (t.bar < 0.0 || bar.Floor >= t.bar.Floor))
  }

  /** The observation on which every metric is m. */
  function At(m: real, conflicts: nat): Observation { Observation(m, m, conflicts, m, m) }

  /** A bar that is not readier loses a flag that fired. */
  lemma LosesAFlag(c: Thresholds, kind: Kind, bar: real)
    requires Complete(c) && !Readier(kind, c.of[kind], bar)
    ensures exists obs :: kind in Firing(obs, c) && kind !in Firing(obs, WithBar(c, kind, bar))
  {
    var t := c.of[kind];
    assert kind in KINDS by { assert KINDS == [Confidence, Volume, Contradiction, Scope, Sentiment]; }
    var conflicts := if kind != Contradiction then 0 else if t.comparator == AtLeast then CeilNat(t.bar) else t.bar.Floor;
    var obs := At(t.bar, conflicts);
    if kind == Contradiction && t.comparator == AtLeast {
      CeilIsLeast(t.bar, conflicts);
      CeilIsLeast(bar, conflicts);
    }
    assert kind in Firing(obs, c) && kind !in Firing(obs, WithBar(c, kind, bar));
  }

  lemma CeilIsLeast(x: real, n: nat)
    ensures CeilNat(x) >= 0
    ensures n as real >= x <==> n >= CeilNat(x)
  {
  }

  lemma FloorIsGreatest(x: real, n: nat)
    ensures n as real <= x <==> n <= x.Floor
  {
  }

  lemma WholeFiresStill(t: Threshold, bar: real, n: nat)
    requires Readier(Contradiction, t, bar) && Fires(n as real, t)
    ensures Fires(n as real, t.(bar := bar))
  {
    if t.comparator == AtLeast {
      CeilIsLeast(t.bar, n);
      CeilIsLeast(bar, n);
      hide CeilNat;
    } else {
      FloorIsGreatest(t.bar, n);
      FloorIsGreatest(bar, n);
    }
  }

  lemma FiresStill(kind: Kind, t: Threshold, bar: real, obs: Observation)
    requires Readier(kind, t, bar) && Fires(Metric(kind, obs), t)
    ensures Fires(Metric(kind, obs), t.(bar := bar))
  {
    if kind == Contradiction {
      WholeFiresStill(t, bar, obs.conflicts);
      hide Readier, Fires;
    } else {
      hide Metric, CeilNat;
    }
  }

  lemma ReadierKeepsFlags(c: Thresholds, kind: Kind, bar: real, obs: Observation)
    requires Complete(c) && Readier(kind, c.of[kind], bar)
    ensures Firing(obs, c) <= Firing(obs, WithBar(c, kind, bar))
  {
    if Fires(Metric(kind, obs), c.of[kind]) { FiresStill(kind, c.of[kind], bar, obs); }
    hide Fires, Metric, Readier;
  }

  /** MORE FIRES exactly when the bar is readier: then on every observation the firing kinds include the earlier ones. */
  lemma FiringGrowsIff(c: Thresholds, kind: Kind, bar: real)
    requires Complete(c)
    ensures (forall obs :: Firing(obs, c) <= Firing(obs, WithBar(c, kind, bar))) <==> Readier(kind, c.of[kind], bar)
  {
    if Readier(kind, c.of[kind], bar) {
      forall obs ensures Firing(obs, c) <= Firing(obs, WithBar(c, kind, bar)) { ReadierKeepsFlags(c, kind, bar, obs); }
    } else {
      LosesAFlag(c, kind, bar);
      hide Firing, Readier, WithBar;
    }
  }

  /** APPLYING ANY PROPOSAL TO ANY CONFIGURATION. Whatever it was made against and whatever it calls itself, a proposal that
      may be applied makes the firing kinds grow or stay on every observation exactly when the bar it proposes is readier
      than the present one, and shrink or stay exactly when the present one is readier than it. */
  lemma AppliedGrowsIff(now: Thresholds, p: Proposal)
    requires Complete(now) && Apply(now, p).Ok?
    ensures var after := Apply(now, p).value;
      && Complete(after)
      && ((forall obs :: Firing(obs, now) <= Firing(obs, after)) <==> Readier(p.kind, now.of[p.kind], p.proposed))
      && ((forall obs :: Firing(obs, after) <= Firing(obs, now)) <==> Readier(p.kind, after.of[p.kind], now.of[p.kind].bar))
  {
    var after := Apply(now, p).value;
    FiringGrowsIff(now, p.kind, p.proposed);
    FiringGrowsIff(after, p.kind, now.of[p.kind].bar);
    assert WithBar(after, p.kind, now.of[p.kind].bar) == now by {
      assert after.of[p.kind := now.of[p.kind]] == now.of;
    }
    hide Firing, Readier;
  }

  /** TIGHTEN MEANS TIGHTEN when the bar has not moved since. A proposal applied to any configuration with the bar and
      comparator it was made against: tightening makes the set of firing kinds grow or stay on every observation, loosening
      makes it shrink or stay, and (but for the whole-number contradiction count) each changes some observation. */
  lemma DirectionIsTrue(before: Thresholds, history: map<Kind, seq<real>>, kind: Kind, id: nat, now: Thresholds, status: Status)
    requires Complete(before) && Complete(now) && ProposeFor(before, history, kind, id).Some?
    requires now.of[kind].bar == before.of[kind].bar && now.of[kind].comparator == before.of[kind].comparator
    ensures var p := ProposeFor(before, history, kind, id).value.(status := status);
      && p.kind == kind
      && (Apply(now, p).Err? <==> before.of[kind].hard && status != Confirmed && status != Applied)
      && (Apply(now, p).Ok? ==>
            var after := Apply(now, p).value;
            && Complete(after)
            && (p.direction == Tighten ==> forall obs :: Firing(obs, now) <= Firing(obs, after))
            && (p.direction == Loosen ==> forall obs :: Firing(obs, after) <= Firing(obs, now))
            && (kind != Contradiction ==> exists obs :: Firing(obs, now) != Firing(obs, after)))
  {
    hide ComputeBaseline, Firing;
    var p := ProposeFor(before, history, kind, id).value.(status := status);
    if Apply(now, p).Ok? {
      AppliedGrowsIff(now, p);
      if kind != Contradiction { BarsDiffer(now, Apply(now, p).value, kind); }
    }
  }

  /** Two bars for one kind and comparator are told apart by the observation at the readier one. */
  lemma BarsDiffer(c: Thresholds, d: Thresholds, kind: Kind)
    requires Complete(c) && Complete(d) && kind != Contradiction
    requires c.of[kind].comparator == d.of[kind].comparator && c.of[kind].bar != d.of[kind].bar
    ensures exists obs :: Firing(obs, c) != Firing(obs, d)
  {
    var a, b := c.of[kind].bar, d.of[kind].bar;
    var m := if (c.of[kind].comparator == AtLeast) == (a < b) then a else b;
    var at := Observation(m, m, 0, m, m);
    assert kind in KINDS by { assert KINDS == [Confidence, Volume, Contradiction, Scope, Sentiment]; }
    assert kind in Firing(at, c) <==> kind !in Firing(at, d);
  }

  // ---------------------------------------------------------------- runs

  datatype State = State(last: nat, proposals: seq<Proposal>, config: Thresholds)

  datatype Op =
    | OpPropose(history: map<Kind, seq<real>>)
    | OpConfirm(id: nat, admin: string)
    | OpApply(index: nat)

  /** Applying takes a recorded proposal and keeps the configuration it gives. */
  function Step(s: State, op: Op): (t: State)
    requires Complete(s.config)
    ensures Complete(t.config)
  {
    match op
    case OpPropose(history) =>
      var ps := Propose(s.config, history, s.last);
      s.(last := s.last + |ps|, proposals := s.proposals + ps)
    case OpConfirm(id, admin) => s.(proposals := Confirm(s.proposals, id, admin).0)
    case OpApply(i) =>
      if i < |s.proposals| && Apply(s.config, s.proposals[i]).Ok? then s.(config := Apply(s.config, s.proposals[i]).value) else s
  }

  function Run(s: State, ops: seq<Op>): (t: State)
    requires Complete(s.config)
    ensures Complete(t.config)
    decreases |ops|
  {
    if |ops| == 0 then s else Step(Run(s, ops[..|ops| - 1]), ops[|ops| - 1])
  }

  lemma OneSample(kind: Kind, x: real)
    ensures ComputeBaseline(kind, [x]) == Some(x)
  {
    assert [x][1..] == [];
    assert Sort([x]) == [x];
    assert Rank(kind, 1) == 1;
  }

  lemma NothingWithoutHistory(c: Thresholds, history: map<Kind, seq<real>>, id: nat)
    requires Complete(c)
    ensures forall kind :: kind !in history ==> ProposeFor(c, history, kind, id).None?
  {
  }

  /** What one sample of the volume makes learning propose. */
  lemma OneProposal(c: Thresholds, x: real, last: nat)
    requires Complete(c) && c.learning && c.of[Volume] == Threshold(10.0, AtLeast, false) && x < 10.0
    ensures Propose(c, map[Volume := [x]], last) == [Proposal(last + 1, Volume, 10.0, x, Tighten, false, Proposed, None)]
  {
    var history := map[Volume := [x]];
    OneSample(Volume, x);
    NothingWithoutHistory(c, history, last + 1);
    NothingWithoutHistory(c, history, last + 2);
    hide ComputeBaseline;
    assert ProposeUpTo(c, history, last, 0) == [];
    assert ProposeUpTo(c, history, last, 1) == [];
    var one := ProposeUpTo(c, history, last, 2);
    assert one == [Proposal(last + 1, Volume, 10.0, x, Tighten, false, Proposed, None)];
    hide ProposeFor;
    assert ProposeUpTo(c, history, last, 3) == one && ProposeUpTo(c, history, last, 4) == one && ProposeUpTo(c, history, last, 5) == one;
  }

  /** A STALE TIGHTENING LOOSENS. From a start without proposals: two recorded "tighten" proposals, the second applied before
      the first, leave a step of six actions unflagged that was flagged just before. */
  lemma StaleTightenExample(c: Thresholds)
    requires Complete(c) && c.learning && c.of[Volume] == Threshold(10.0, AtLeast, false)
    ensures var s := State(0, [], c);
      var ops := [OpPropose(map[Volume := [8.0]]), OpPropose(map[Volume := [5.0]]), OpApply(1), OpApply(0)];
      var before, after := Run(s, ops[..3]), Run(s, ops);
      && |after.proposals| == 2 && after.proposals[0].direction == Tighten && after.proposals[1].direction == Tighten
      && Volume in Firing(At(6.0, 0), before.config) && Volume !in Firing(At(6.0, 0), after.config)
  {
    var s := State(0, [], c);
    var ops := [OpPropose(map[Volume := [8.0]]), OpPropose(map[Volume := [5.0]]), OpApply(1), OpApply(0)];
    OneProposal(c, 8.0, 0);
    OneProposal(c, 5.0, 1);
    var p, q := Proposal(1, Volume, 10.0, 8.0, Tighten, false, Proposed, None), Proposal(2, Volume, 10.0, 5.0, Tighten, false, Proposed, None);
    hide Propose, Firing;
    var o1, o2, o3 := ops[..1], ops[..2], ops[..3];
    assert o1[..0] == [] && o2[..1] == o1 && o3[..2] == o2 && ops[..3] == o3;
    assert Run(s, []) == s;
    assert Run(s, o1) == State(1, [p], c);
    assert Run(s, o2) == State(2, [p, q], c);
    assert Run(s, o3) == State(2, [p, q], WithBar(c, Volume, 5.0));
    assert Run(s, ops) == State(2, [p, q], WithBar(WithBar(c, Volume, 5.0), Volume, 8.0));
    SixActions(Run(s, o3).config, 5.0);
    SixActions(Run(s, ops).config, 8.0);
  }

  lemma SixActions(c: Thresholds, bar: real)
    requires Complete(c) && c.of[Volume] == Threshold(bar, AtLeast, false)
    ensures Volume in Firing(At(6.0, 0), c) <==> 6.0 >= bar
  {
    assert KINDS[1] == Volume;
  }

  predicate ConfirmedFor(p: Proposal, kind: Kind, bar: real) {
    p.kind == kind && p.proposed == bar && p.status == Confirmed && p.confirmedBy.Some?
  }

  /** The severities are those of the start, every proposal carries its kind's, and each gate's bar is the starting one
      or one an admin confirmed. */
  ghost predicate Guarded(start: Thresholds, s: State)
    requires Complete(start) && Complete(s.config)
  {
    && (forall kind: Kind :: s.config.of[kind].hard == start.of[kind].hard && s.config.of[kind].comparator == start.of[kind].comparator)
    && (forall p :: p in s.proposals ==>
          p.gate == start.of[p.kind].hard && p.status in {Proposed, Confirmed} && (p.status == Confirmed ==> p.confirmedBy.Some?))
    && (forall kind: Kind :: start.of[kind].hard && s.config.of[kind].bar != start.of[kind].bar ==>
          exists p :: p in s.proposals && ConfirmedFor(p, kind, s.config.of[kind].bar))
  }

  lemma {:induction false} ProposalsAreGated(c: Thresholds, history: map<Kind, seq<real>>, last: nat, n: nat)
    requires Complete(c) && n <= |KINDS|
    ensures forall p :: p in ProposeUpTo(c, history, last, n) ==> p.gate == c.of[p.kind].hard && p.status == Proposed
  {
    hide ComputeBaseline;
    if n > 0 { ProposalsAreGated(c, history, last, n - 1); }
  }

  lemma StepGuarded(start: Thresholds, s: State, op: Op)
    requires Complete(start) && Complete(s.config) && Guarded(start, s)
    ensures Guarded(start, Step(s, op))
  {
    var t := Step(s, op);
    match op
    case OpPropose(history) =>
      ProposalsAreGated(s.config, history, s.last, |KINDS|);
      hide ProposeUpTo;
    case OpConfirm(id, admin) => ConfirmGuarded(start, s, id, admin);
    case OpApply(i) =>
      if i < |s.proposals| {
        var p := s.proposals[i];
        assert p in s.proposals;
      }
  }

  lemma ConfirmGuarded(start: Thresholds, s: State, id: nat, admin: string)
    requires Complete(start) && Complete(s.config) && Guarded(start, s)
    ensures Guarded(start, s.(proposals := Confirm(s.proposals, id, admin).0))
  {
    var ps, qs := s.proposals, Confirm(s.proposals, id, admin).0;
    forall i | 0 <= i < |qs|
      ensures qs[i] == ps[i] || qs[i] == ps[i].(status := Confirmed, confirmedBy := Some(admin))
      ensures ps[i] in ps
    {
    }
    hide Confirm;
    forall kind: Kind | start.of[kind].hard && s.config.of[kind].bar != start.of[kind].bar
      ensures exists p :: p in qs && ConfirmedFor(p, kind, s.config.of[kind].bar)
    {
      var i :| 0 <= i < |ps| && ConfirmedFor(ps[i], kind, s.config.of[kind].bar);
      assert qs[i] in qs && ConfirmedFor(qs[i], kind, s.config.of[kind].bar);
    }
  }

  /** GATES ARE NEVER MOVED SILENTLY. Over every run of proposing, confirming and applying, the bar of a hard kind is the
      one it started with or one that a recorded proposal for it proposed and an admin confirmed. */
  lemma {:induction false} GateBarsAreConfirmed(s: State, ops: seq<Op>)
    requires Complete(s.config) && s.proposals == []
    ensures Guarded(s.config, Run(s, ops))
    decreases |ops|
  {
    if |ops| > 0 {
      GateBarsAreConfirmed(s, ops[..|ops| - 1]);
      StepGuarded(s.config, Run(s, ops[..|ops| - 1]), ops[|ops| - 1]);
      hide Guarded, Step;
    }
  }

  /** ACROSS A CONFIGURATION CHANGE the guard looks at the severity the proposal was made under: a proposal moves the bar of
      a kind that is hard now, without confirmation, exactly when the kind was not hard when it was proposed. */
  lemma UnconfirmedGateIff(before: Thresholds, now: Thresholds, history: map<Kind, seq<real>>, kind: Kind, id: nat)
    requires Complete(before) && Complete(now) && ProposeFor(before, history, kind, id).Some? && now.of[kind].hard
    ensures Apply(now, ProposeFor(before, history, kind, id).value).Ok? <==> !before.of[kind].hard
  {
    hide ComputeBaseline;
  }
}
