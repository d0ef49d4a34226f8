/** How one notification is walked along its chain, over every run under a fixed configuration. */
module AlertTheorems {
  import opened Wrappers
  import opened AlertSpec

  /** What one escalation call left on a notification. */
  datatype Beat = Fired(step: nat, to: string, window: int, at: int) | RanOut(window: int, at: int)

  function BeatOf(cfg: Config, s: State, op: Op, id: nat): seq<Beat> {
    if !op.OpEscalate? || op.id != id || id !in s.rows then []
    else
      match Decide(cfg, s.rows[id], op.window, op.now)
      case NotDue => []
      case Exhaust => [RanOut(op.window, op.now)]
      case Fire(step, to) => [Fired(step, to, op.window, op.now)]
  }

  /** The marks a run left on one notification, in order. */
  function Beats(cfg: Config, s: State, ops: seq<Op>, id: nat): seq<Beat>
    decreases |ops|
  {
    if |ops| == 0 then []
    else Beats(cfg, s, ops[..|ops| - 1], id) + BeatOf(cfg, Run(cfg, s, ops[..|ops| - 1]), ops[|ops| - 1], id)
  }

  /** The indices from i on whose contacts resolve to somebody, in order. */
  function Reachable(cfg: Config, chain: seq<string>, i: nat): (steps: seq<nat>)
    decreases |chain| - i
  {
    if i >= |chain| then [] else (if ResolveContact(cfg, chain[i]).Some? then [i] else []) + Reachable(cfg, chain, i + 1)
  }

  lemma {:induction false} ReachableExact(cfg: Config, chain: seq<string>, i: nat)
    ensures forall k :: k in Reachable(cfg, chain, i) <==> i <= k < |chain| && ResolveContact(cfg, chain[k]).Some?
    ensures Ascending(Reachable(cfg, chain, i))
    ensures |Reachable(cfg, chain, i)| <= if i <= |chain| then |chain| - i else 0
    decreases |chain| - i
  {
    hide ResolveContact;
    if i < |chain| {
      hide Ascending;
      ReachableExact(cfg, chain, i + 1);
      var rest := Reachable(cfg, chain, i + 1);
      AscendingCons(i, rest);
      assert Reachable(cfg, chain, i) == if ResolveContact(cfg, chain[i]).Some? then [i] + rest else rest;
    }
  }

  ghost predicate Ascending(s: seq<nat>) { forall a, b :: 0 <= a < b < |s| ==> s[a] < s[b] }

  lemma AscendingCons(x: nat, s: seq<nat>)
    requires Ascending(s) && forall y :: y in s ==> x < y
    ensures Ascending([x] + s)
  {
    forall a, b | 0 <= a < b < |[x] + s| ensures ([x] + s)[a] < ([x] + s)[b] {
      assert ([x] + s)[b] == s[b - 1] && s[b - 1] in s;
      if a > 0 { assert ([x] + s)[a] == s[a - 1]; }
    }
  }

  lemma AscendingPrefix(s: seq<nat>, rest: seq<nat>)
    requires Ascending(s + rest)
    ensures Ascending(s) && |s| <= |s + rest|
  {
    forall a, b | 0 <= a < b < |s| ensures s[a] < s[b] {
      assert s[a] == (s + rest)[a] && s[b] == (s + rest)[b];
    }
  }

  /** The next reachable index, then the ones after it. */
  lemma {:induction false} ReachableStep(cfg: Config, chain: seq<string>, i: nat)
    ensures var f := FirstResolvable(cfg, chain, i);
            Reachable(cfg, chain, i) == if f < |chain| then [f] + Reachable(cfg, chain, f + 1) else []
    decreases |chain| - i
  {
    if i < |chain| {
      if ResolveContact(cfg, chain[i]).None? { ReachableStep(cfg, chain, i + 1); }
      hide ResolveContact;
    }
  }

  // ---------------------------------------------------------------- what a run keeps of one row

  /** The index a walk looks from next, after these beats on a row that started like this. */
  function NextAfter(cfg: Config, row: Notification, beats: seq<Beat>): nat {
    if |beats| == 0 then NextStep(cfg, row)
    else if beats[|beats| - 1].Fired? then beats[|beats| - 1].step + 1
    else 1
  }

  function AnchorAfter(row: Notification, beats: seq<Beat>): int {
    if |beats| == 0 then Anchor(row) else beats[|beats| - 1].at
  }

  /** The beat is the right one after those beats: a full window later, at the next index that resolves, to the
      recipient it resolves to, or exhausted when no later index resolves. */
  predicate Follows(cfg: Config, row: Notification, before: seq<Beat>, beat: Beat) {
    var chain := ChainFor(cfg, row.role);
    var f := FirstResolvable(cfg, chain, NextAfter(cfg, row, before));
    && beat.at - AnchorAfter(row, before) >= beat.window
    && if f < |chain| then beat == Fired(f, ResolveContact(cfg, chain[f]).value, beat.window, beat.at) else beat.RanOut?
  }

  ghost predicate Walk(cfg: Config, row: Notification, beats: seq<Beat>) {
    forall i :: 0 <= i < |beats| ==> Follows(cfg, row, beats[..i], beats[i])
  }

  predicate SameAlert(a: Notification, b: Notification) {
    a.kind == b.kind && a.severity == b.severity && a.title == b.title && a.recipient == b.recipient && a.role == b.role
    && a.createdAt == b.createdAt
  }

  /** The row is its start, moved on by those beats. */
  ghost predicate Moved(cfg: Config, row: Notification, now: Notification, beats: seq<Beat>) {
    && SameAlert(row, now)
    && Anchor(now) == AnchorAfter(row, beats)
    && NextStep(cfg, now) == NextAfter(cfg, row, beats)
    && now.escalation == if |beats| == 0 then row.escalation
                         else if beats[|beats| - 1].Fired? then Some(AtStep(beats[|beats| - 1].step)) else Some(Exhausted)
  }

  lemma StepOtherRow(cfg: Config, s: State, op: Op, id: nat)
    requires Bounded(s) && id in s.rows
    ensures Bounded(Step(cfg, s, op)) && id in Step(cfg, s, op).rows
    ensures op.OpDeliver? || op.id != id ==> Step(cfg, s, op).rows[id] == s.rows[id]
    ensures op.OpAction? && op.id == id ==>
              Step(cfg, s, op).rows[id] == s.rows[id].(readState := Actioned, actionedAt := Some(op.now))
    ensures op.OpEscalate? && op.id == id ==>
              Step(cfg, s, op).rows[id] ==
                match Decide(cfg, s.rows[id], op.window, op.now)
                case NotDue => s.rows[id]
                case Exhaust => Escalate(s.rows[id], Exhausted, op.now)
                case Fire(step, to) => Escalate(s.rows[id], AtStep(step), op.now)
  {
    hide Decide, ResolveRecipient, HasDestination, Suppressed, RaisedRow, MisconfiguredRow, Escalate, Secondary;
  }

  function BeatFor(d: Decision, window: int, now: int): Beat
    requires !d.NotDue?
  {
    if d.Fire? then Fired(d.step, d.to, window, now) else RanOut(window, now)
  }

  function Remark(row: Notification, d: Decision, now: int): Notification
    requires !d.NotDue?
  {
    Escalate(row, if d.Fire? then AtStep(d.step) else Exhausted, now)
  }

  /** A due escalation is the walk's next beat. */
  lemma DueMoves(cfg: Config, row: Notification, current: Notification, beats: seq<Beat>, window: int, now: int)
    requires Moved(cfg, row, current, beats) && !Decide(cfg, current, window, now).NotDue?
    ensures Follows(cfg, row, beats, BeatFor(Decide(cfg, current, window, now), window, now))
    ensures Moved(cfg, row, Remark(current, Decide(cfg, current, window, now), now),
                  beats + [BeatFor(Decide(cfg, current, window, now), window, now)])
  {
    hide FirstResolvable, FirstAfterPrimary, ResolveContact, ChainFor;
  }

  lemma WalkSnoc(cfg: Config, row: Notification, beats: seq<Beat>, b: Beat)
    requires Walk(cfg, row, beats) && Follows(cfg, row, beats, b)
    ensures Walk(cfg, row, beats + [b])
  {
    hide Follows;
    var all := beats + [b];
    forall i | 0 <= i < |all| ensures Follows(cfg, row, all[..i], all[i]) {
      assert all[..i] == if i < |beats| then beats[..i] else beats;
    }
  }

  lemma StepMoves(cfg: Config, s: State, op: Op, id: nat, row: Notification, beats: seq<Beat>)
    requires Bounded(s) && id in s.rows
    requires Moved(cfg, row, s.rows[id], beats) && Walk(cfg, row, beats)
    ensures id in Step(cfg, s, op).rows
    ensures Moved(cfg, row, Step(cfg, s, op).rows[id], beats + BeatOf(cfg, s, op, id)) && Walk(cfg, row, beats + BeatOf(cfg, s, op, id))
  {
    StepOtherRow(cfg, s, op, id);
    assert beats + [] == beats;
    if op.OpEscalate? && op.id == id {
      if !Decide(cfg, s.rows[id], op.window, op.now).NotDue? {
        DueMoves(cfg, row, s.rows[id], beats, op.window, op.now);
        WalkSnoc(cfg, row, beats, BeatFor(Decide(cfg, s.rows[id], op.window, op.now), op.window, op.now));
      }
      hide Step, Decide, Follows, Moved, Walk;
    } else {
      hide Step, Walk, FirstAfterPrimary, ChainFor, NextAfter, AnchorAfter;
    }
  }

  lemma {:induction false} RunMoves(cfg: Config, s: State, ops: seq<Op>, id: nat)
    requires Bounded(s) && id in s.rows
    ensures Bounded(Run(cfg, s, ops)) && id in Run(cfg, s, ops).rows
    ensures Moved(cfg, s.rows[id], Run(cfg, s, ops).rows[id], Beats(cfg, s, ops, id)) && Walk(cfg, s.rows[id], Beats(cfg, s, ops, id))
    decreases |ops|
  {
    hide Moved, Walk, Step, BeatOf;
    if |ops| == 0 {
      StartsUnmoved(cfg, s.rows[id]);
    } else {
      var mid := Run(cfg, s, ops[..|ops| - 1]);
      RunMoves(cfg, s, ops[..|ops| - 1], id);
      StepMoves(cfg, mid, ops[|ops| - 1], id, s.rows[id], Beats(cfg, s, ops[..|ops| - 1], id));
      StepOtherRow(cfg, mid, ops[|ops| - 1], id);
    }
  }

  lemma StartsUnmoved(cfg: Config, row: Notification)
    ensures Moved(cfg, row, row, []) && Walk(cfg, row, [])
  {
    hide NextStep;
  }

  // ---------------------------------------------------------------- the walk covers the chain

  function Steps(beats: seq<Beat>): seq<nat> {
    if |beats| == 0 then []
    else Steps(beats[..|beats| - 1]) + if beats[|beats| - 1].Fired? then [beats[|beats| - 1].step] else []
  }

  /** A stretch of beats without an exhausted mark, from the start or from just after one. */
  ghost predicate Stretch(beats: seq<Beat>, a: nat, e: nat) {
    a <= e <= |beats| && (a > 0 ==> beats[a - 1].RanOut?) && forall i :: a <= i < e ==> beats[i].Fired?
  }

  lemma FiredAdvances(cfg: Config, row: Notification, before: seq<Beat>, beat: Beat)
    requires Follows(cfg, row, before, beat) && beat.Fired?
    ensures Reachable(cfg, ChainFor(cfg, row.role), NextAfter(cfg, row, before))
            == [beat.step] + Reachable(cfg, ChainFor(cfg, row.role), beat.step + 1)
  {
    ReachableStep(cfg, ChainFor(cfg, row.role), NextAfter(cfg, row, before));
    hide Reachable, NextAfter, ChainFor, ResolveContact;
  }

  /** NOBODY SKIPPED, NOBODY ASKED TWICE. Along a stretch, the steps already fired followed by the reachable steps still
      ahead are exactly the reachable steps from where the stretch began. */
  lemma {:induction false} StepsAndRest(cfg: Config, row: Notification, beats: seq<Beat>, a: nat, e: nat)
    requires Walk(cfg, row, beats) && Stretch(beats, a, e)
    ensures Steps(beats[a..e]) + Reachable(cfg, ChainFor(cfg, row.role), NextAfter(cfg, row, beats[..e]))
            == Reachable(cfg, ChainFor(cfg, row.role), NextAfter(cfg, row, beats[..a]))
    decreases e
  {
    hide ResolveContact, Reachable, NextStep, ChainFor, Follows;
    if e == a {
      assert beats[a..e] == [];
    } else {
      StepsAndRest(cfg, row, beats, a, e - 1);
      FiredAdvances(cfg, row, beats[..e - 1], beats[e - 1]);
      assert beats[a..e][..e - a - 1] == beats[a..e - 1] && beats[a..e][e - a - 1] == beats[e - 1] && beats[..e][e - 1] == beats[e - 1];
      Assoc(Steps(beats[a..e - 1]), [beats[e - 1].step], Reachable(cfg, ChainFor(cfg, row.role), beats[e - 1].step + 1));
    }
  }

  lemma {:induction false} StepsOfStretch(beats: seq<Beat>)
    requires forall b :: b in beats ==> b.Fired?
    ensures |Steps(beats)| == |beats| && forall i :: 0 <= i < |beats| ==> Steps(beats)[i] == beats[i].step
  {
    if |beats| > 0 { StepsOfStretch(beats[..|beats| - 1]); }
  }

  lemma StretchSteps(cfg: Config, row: Notification, b: seq<Beat>, a: nat, e: nat)
    requires Walk(cfg, row, b) && Stretch(b, a, e)
    ensures e - a <= |ChainFor(cfg, row.role)|
    ensures forall i, j :: a <= i < j < e ==> b[i].step < b[j].step
  {
    var chain := ChainFor(cfg, row.role);
    StepsAndRest(cfg, row, b, a, e);
    ReachableExact(cfg, chain, NextAfter(cfg, row, b[..a]));
    hide Walk, Reachable, ResolveContact, ChainFor, NextAfter, Follows, Ascending;
    AscendingPrefix(Steps(b[a..e]), Reachable(cfg, chain, NextAfter(cfg, row, b[..e])));
    AscendingSteps(b, a, e);
  }

  lemma AscendingSteps(b: seq<Beat>, a: nat, e: nat)
    requires Stretch(b, a, e) && Ascending(Steps(b[a..e]))
    ensures |Steps(b[a..e])| == e - a
    ensures forall i, j :: a <= i < j < e ==> b[i].step < b[j].step
  {
    var part := b[a..e];
    assert forall i :: 0 <= i < |part| ==> part[i] == b[a + i];
    StepsOfStretch(part);
    hide Steps;
    forall i, j | a <= i < j < e ensures b[i].step < b[j].step {
      assert part[i - a] == b[i] && part[j - a] == b[j];
      assert Steps(part)[i - a] < Steps(part)[j - a];
    }
  }

  lemma BeatsAreSpaced(cfg: Config, row: Notification, b: seq<Beat>, i: nat)
    requires Walk(cfg, row, b) && i < |b|
    ensures b[i].at - (if i == 0 then Anchor(row) else b[i - 1].at) >= b[i].window
    ensures b[i].Fired? ==> b[i].step < |ChainFor(cfg, row.role)| && ResolveContact(cfg, ChainFor(cfg, row.role)[b[i].step]) == Some(b[i].to)
  {
    assert Follows(cfg, row, b[..i], b[i]);
    hide ResolveContact, ChainFor, NextAfter;
  }

  /** ONE STRETCH OF A WALK. From any state, over any run, the steps one notification fires between two exhausted marks
      strictly increase, stay inside the chain and are at most as many as it has contacts; each goes to whoever its
      contact resolves to, a full window after the mark before it. */
  lemma StretchIsOrdered(cfg: Config, s: State, ops: seq<Op>, id: nat, a: nat, e: nat)
    requires Bounded(s) && id in s.rows && Stretch(Beats(cfg, s, ops, id), a, e)
    ensures var b, chain := Beats(cfg, s, ops, id), ChainFor(cfg, s.rows[id].role);
      && e - a <= |chain|
      && (forall i, j :: a <= i < j < e ==> b[i].step < b[j].step)
      && (forall i :: a <= i < e ==> b[i].step < |chain| && ResolveContact(cfg, chain[b[i].step]) == Some(b[i].to))
      && (forall i :: 0 <= i < |b| ==> b[i].at - (if i == 0 then Anchor(s.rows[id]) else b[i - 1].at) >= b[i].window)
  {
    var b, row := Beats(cfg, s, ops, id), s.rows[id];
    RunMoves(cfg, s, ops, id);
    StretchSteps(cfg, row, b, a, e);
    hide Beats, Moved, Walk, ResolveContact, ChainFor, Anchor;
    forall i | 0 <= i < |b|
      ensures b[i].at - (if i == 0 then Anchor(row) else b[i - 1].at) >= b[i].window
      ensures b[i].Fired? ==> b[i].step < |ChainFor(cfg, row.role)| && ResolveContact(cfg, ChainFor(cfg, row.role)[b[i].step]) == Some(b[i].to)
    {
      BeatsAreSpaced(cfg, row, b, i);
    }
  }

  /** EVERYONE IS ASKED. When a fresh notification first runs out of contacts, everybody its chain resolves to has been
      reached: by the primary itself or by one of the escalations. */
  lemma EveryoneIsAsked(cfg: Config, s: State, ops: seq<Op>, id: nat, e: nat, k: nat)
    requires Bounded(s) && id in s.rows && s.rows[id].escalation == None
    requires Stretch(Beats(cfg, s, ops, id), 0, e) && e < |Beats(cfg, s, ops, id)| && Beats(cfg, s, ops, id)[e].RanOut?
    requires k < |ChainFor(cfg, s.rows[id].role)| && ResolveContact(cfg, ChainFor(cfg, s.rows[id].role)[k]).Some?
    ensures var who, b := ResolveContact(cfg, ChainFor(cfg, s.rows[id].role)[k]), Beats(cfg, s, ops, id);
      who == s.rows[id].recipient || exists j :: 0 <= j < e && b[j].Fired? && b[j].step == k && b[j].to == who.value
  {
    var b, row := Beats(cfg, s, ops, id), s.rows[id];
    RunMoves(cfg, s, ops, id);
    var first := FirstAfterPrimary(cfg, ChainFor(cfg, row.role), row.recipient, 0);
    if k >= first {
      FirstStretch(cfg, row, b, e, k);
      hide *;
      var j :| 0 <= j < e && b[j].Fired? && b[j].step == k;
      BeatsAreSpaced(cfg, row, b, j);
    } else {
      hide ChainFor, ResolveContact, Beats;
    }
  }

  /** Before the first exhausted mark every index from the starting one on that resolves has fired. */
  lemma FirstStretch(cfg: Config, row: Notification, b: seq<Beat>, e: nat, k: nat)
    requires row.escalation == None && Walk(cfg, row, b) && Stretch(b, 0, e) && e < |b| && b[e].RanOut?
    requires FirstAfterPrimary(cfg, ChainFor(cfg, row.role), row.recipient, 0) <= k < |ChainFor(cfg, row.role)|
    requires ResolveContact(cfg, ChainFor(cfg, row.role)[k]).Some?
    ensures exists j :: 0 <= j < e && b[j].Fired? && b[j].step == k
  {
    var chain := ChainFor(cfg, row.role);
    var first := FirstAfterPrimary(cfg, chain, row.recipient, 0);
    StepsAndRest(cfg, row, b, 0, e);
    assert b[..0] == [] && b[0..e] == b[..e];
    assert NextAfter(cfg, row, []) == first;
    ReachableExact(cfg, chain, first);
    assert Follows(cfg, row, b[..e], b[e]);
    ReachableStep(cfg, chain, NextAfter(cfg, row, b[..e]));
    hide Reachable, ResolveContact, ChainFor, NextAfter, FirstAfterPrimary, Walk, Follows;
    assert Steps(b[..e]) + [] == Steps(b[..e]);
    StepFiredAt(b, e, k);
  }

  lemma StepFiredAt(b: seq<Beat>, e: nat, k: nat)
    requires Stretch(b, 0, e) && k in Steps(b[..e])
    ensures exists j :: 0 <= j < e && b[j].Fired? && b[j].step == k
  {
    assert forall x :: x in b[..e] ==> x.Fired?;
    StepsOfStretch(b[..e]);
    hide Steps;
    var j :| 0 <= j < e && Steps(b[..e])[j] == k;
    assert b[..e][j] == b[j];
  }

  /** THE WALK STARTS OVER. After an exhausted mark the next mark fires again exactly when a contact past the first one
      resolves, and it goes to the first such contact. */
  lemma RestartsIff(cfg: Config, s: State, ops: seq<Op>, id: nat, i: nat)
    requires Bounded(s) && id in s.rows && i + 1 < |Beats(cfg, s, ops, id)| && Beats(cfg, s, ops, id)[i].RanOut?
    ensures var chain, next := ChainFor(cfg, s.rows[id].role), Beats(cfg, s, ops, id)[i + 1];
      && (next.Fired? <==> exists k :: 1 <= k < |chain| && ResolveContact(cfg, chain[k]).Some?)
      && (next.Fired? ==> forall k :: 1 <= k < next.step && k < |chain| ==> ResolveContact(cfg, chain[k]).None?)
  {
    var b, row := Beats(cfg, s, ops, id), s.rows[id];
    RunMoves(cfg, s, ops, id);
    assert Follows(cfg, row, b[..i + 1], b[i + 1]);
    assert NextAfter(cfg, row, b[..i + 1]) == 1;
    hide Beats, ResolveContact, ChainFor, Moved, NextStep;
  }

  /** Hard-limit alerts go to a role nobody holds, whose chain has two known people. */
  ghost predicate AnnThenBob(cfg: Config) {
    && cfg.contacts == map["lead" := ["ann", "bob"]] && (forall c :: |cfg.holders(c)| == 0) && (forall c :: cfg.known(c))
    && HardLimitHit in cfg.routing && cfg.routing[HardLimitHit] == Rule("lead", false)
  }

  lemma DeliveredExample(cfg: Config, s: State, row: Notification)
    requires AnnThenBob(cfg)
    requires s == Run(cfg, Empty, [OpDeliver(Alert(HardLimitHit, Critical, "t", None, None), None, None, 0)])
    requires row == Fresh(HardLimitHit, Critical, "t", Some("ann"), Some("lead"), None, 0)
    ensures s.rows == map[1 := row] && Bounded(s)
  {
    var alert := Alert(HardLimitHit, Critical, "t", None, None);
    var ops := [OpDeliver(alert, None, None, 0)];
    assert ops[..0] == [] && Run(cfg, Empty, []) == Empty;
    assert ResolveContact(cfg, "ann") == Some("ann");
    assert FirstResolvable(cfg, ["ann", "bob"], 0) == 0;
    assert ResolveRecipient(cfg, alert) == Some("ann");
    assert RaisedRow(cfg, alert, 0) == row;
    assert s == Step(cfg, Empty, ops[0]);
  }

  lemma WalkedExample(cfg: Config, s: State, row: Notification, ops: seq<Op>)
    requires AnnThenBob(cfg)
    requires row == Fresh(HardLimitHit, Critical, "t", Some("ann"), Some("lead"), None, 0)
    requires s.rows == map[1 := row] && Bounded(s)
    requires ops == [OpEscalate(1, 10, 10), OpEscalate(1, 10, 20), OpEscalate(1, 10, 30)]
    ensures Beats(cfg, s, ops, 1) == [Fired(1, "bob", 10, 10), RanOut(10, 20), Fired(1, "bob", 10, 30)]
  {
    var chain := ["ann", "bob"];
    assert ChainFor(cfg, row.role) == chain;
    assert ResolveContact(cfg, chain[0]) == Some("ann") && ResolveContact(cfg, chain[1]) == Some("bob");
    assert FirstAfterPrimary(cfg, chain, row.recipient, 0) == 1;
    assert FirstResolvable(cfg, chain, 1) == 1 && FirstResolvable(cfg, chain, 2) == 2;
    var o0, o1, o2 := ops[..0], ops[..1], ops[..2];
    assert o1[..0] == o0 && o2[..1] == o1 && ops[..2] == o2;
    var s1, s2 := Run(cfg, s, o1), Run(cfg, s, o2);
    assert Run(cfg, s, o0) == s;
    StepOtherRow(cfg, s, ops[0], 1);
    assert Decide(cfg, row, 10, 10) == Fire(1, "bob");
    assert s1 == Step(cfg, s, ops[0]) && s1.rows[1] == Escalate(row, AtStep(1), 10);
    StepOtherRow(cfg, s1, ops[1], 1);
    assert Decide(cfg, s1.rows[1], 10, 20) == Exhaust;
    assert s2 == Step(cfg, s1, ops[1]) && s2.rows[1] == Escalate(s1.rows[1], Exhausted, 20);
    assert Decide(cfg, s2.rows[1], 10, 30) == Fire(1, "bob");
    hide Step, Decide, Run;
    assert Beats(cfg, s, o0, 1) == [];
    assert Beats(cfg, s, o1, 1) == [Fired(1, "bob", 10, 10)];
    assert Beats(cfg, s, o2, 1) == [Fired(1, "bob", 10, 10), RanOut(10, 20)];
  }

  /** The same person is asked twice: an alert delivered from the empty engine escalates to the second contact of its chain,
      runs out, and escalates to the second contact again. */
  lemma RestartExample(cfg: Config)
    requires AnnThenBob(cfg)
    ensures var alert := Alert(HardLimitHit, Critical, "t", None, None);
            var s := Run(cfg, Empty, [OpDeliver(alert, None, None, 0)]);
            var ops := [OpEscalate(1, 10, 10), OpEscalate(1, 10, 20), OpEscalate(1, 10, 30)];
            1 in s.rows && Beats(cfg, s, ops, 1) == [Fired(1, "bob", 10, 10), RanOut(10, 20), Fired(1, "bob", 10, 30)]
  {
    var alert := Alert(HardLimitHit, Critical, "t", None, None);
    var s := Run(cfg, Empty, [OpDeliver(alert, None, None, 0)]);
    var row := Fresh(HardLimitHit, Critical, "t", Some("ann"), Some("lead"), None, 0);
    DeliveredExample(cfg, s, row);
    hide Run;
    var ops := [OpEscalate(1, 10, 10), OpEscalate(1, 10, 20), OpEscalate(1, 10, 30)];
    WalkedExample(cfg, s, row, ops);
  }
}
