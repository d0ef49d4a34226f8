/** The conflict-priority order and the suggestion built on it (app/conflict-consolidation/src/priority.ts). A timestamp
    that does not parse is None: it differs from every time, also from itself, and is later than none. */
module Priority {
  import opened Wrappers

  datatype Source = AiInferred | HumanVerified | SystemPointer | SystemOfRecord

  datatype Memory = Memory(id: string, source: Source, createdAt: Option<int>, confidence: Option<real>)

  datatype Winner = First | Second | Neither

  datatype Verdict = Verdict(winner: Winner, rule: nat)

  predicate OfRecord(m: Memory) { m.source == SystemPointer || m.source == SystemOfRecord }

  predicate TimesDiffer(a: Option<int>, b: Option<int>) { a.None? || b.None? || a.value != b.value }

  predicate Later(a: Option<int>, b: Option<int>) { a.Some? && b.Some? && a.value > b.value }

  /** The cascade: human verified, system of record over inferred, then within one source recency and confidence. */
  function CompareAuthority(a: Memory, b: Memory): Verdict {
    if (a.source == HumanVerified) != (b.source == HumanVerified) then
      Verdict(if a.source == HumanVerified then First else Second, 1)
    else if OfRecord(a) && b.source == AiInferred then Verdict(First, 2)
    else if OfRecord(b) && a.source == AiInferred then Verdict(Second, 2)
    else if a.source != b.source then Verdict(Neither, 5)
    else if TimesDiffer(a.createdAt, b.createdAt) then Verdict(if Later(a.createdAt, b.createdAt) then First else Second, 3)
    else if a.confidence.Some? && b.confidence.Some? && a.confidence.value != b.confidence.value then
      Verdict(if a.confidence.value > b.confidence.value then First else Second, 4)
    else Verdict(Neither, 5)
  }

  function Mirror(w: Winner): Winner {
    match w
    case First => Second
    case Second => First
    case Neither => Neither
  }

  predicate Beats(a: Memory, b: Memory) { CompareAuthority(a, b).winner == First }

  /** SYMMETRY. Swapping the arguments mirrors the winner and keeps the rule, except exactly when two memories of one
      source meet and one timestamp does not parse: then each of the two is said to lose. */
  lemma SymmetricIff(a: Memory, b: Memory)
    ensures CompareAuthority(b, a).winner == Mirror(CompareAuthority(a, b).winner) <==>
              !(a.source == b.source && (a.createdAt.None? || b.createdAt.None?))
    ensures CompareAuthority(b, a).rule == CompareAuthority(a, b).rule
    ensures a.source == b.source && (a.createdAt.None? || b.createdAt.None?) ==>
              CompareAuthority(a, b) == Verdict(Second, 3) == CompareAuthority(b, a)
  {
  }

  /** A STRICT ORDER, on every input: what beats a memory that beats a third beats the third, by a rule at least as strong
      as the stronger of the two, and is not beaten back; no memory beats itself. */
  lemma BeatsIsTransitive(a: Memory, b: Memory, c: Memory)
    ensures !Beats(a, a) && !(Beats(a, b) && Beats(b, a))
    ensures Beats(a, b) && Beats(b, c) ==> Beats(a, c)
    ensures Beats(a, b) && Beats(b, c) ==>
              CompareAuthority(a, c).rule == Stronger(CompareAuthority(a, b).rule, CompareAuthority(b, c).rule)
  {
  }

  /** The lower number is the stronger rule. */
  function Stronger(r: nat, q: nat): nat { if r <= q then r else q }

  // ---------------------------------------------------------------- the suggestion

  datatype Kind = KeepNew | KeepExisting | KeepBoth

  datatype Suggestion = Suggestion(kind: Kind, winner: Option<string>, flagged: bool, rule: nat)

  /** The strongest rule among the comparisons, 5 at the weakest. */
  function StrongestRule(m: Memory, existing: seq<Memory>): (rule: nat)
    ensures rule <= 5 && forall e :: e in existing ==> rule <= CompareAuthority(m, e).rule
    ensures rule == 5 || exists e :: e in existing && rule == CompareAuthority(m, e).rule
  {
    if |existing| == 0 then 5
    else
      var rest, rule := StrongestRule(m, existing[..|existing| - 1]), CompareAuthority(m, existing[|existing| - 1]).rule;
      assert existing == existing[..|existing| - 1] + [existing[|existing| - 1]];
      if rule < rest then rule else rest
  }

  predicate BeatsAll(m: Memory, existing: seq<Memory>) { forall e :: e in existing ==> Beats(m, e) }

  predicate LosesTo(m: Memory, e: Memory) { CompareAuthority(m, e).winner == Second }

  predicate Loses(m: Memory, existing: seq<Memory>) {
    (exists e :: e in existing && LosesTo(m, e)) && forall e :: e in existing ==> !Beats(m, e)
  }

  /** The position is the first among those that beat the new memory by the strongest rule. */
  predicate Survives(m: Memory, existing: seq<Memory>, i: nat) {
    && i < |existing| && LosesTo(m, existing[i])
    && (forall k :: 0 <= k < |existing| && LosesTo(m, existing[k]) ==>
          CompareAuthority(m, existing[i]).rule <= CompareAuthority(m, existing[k]).rule)
    && (forall k :: 0 <= k < i && LosesTo(m, existing[k]) ==>
          CompareAuthority(m, existing[i]).rule < CompareAuthority(m, existing[k]).rule)
  }

  /** Whether the new memory beats all, loses to some, beats none. */
  method Survey(m: Memory, existing: seq<Memory>) returns (all: bool, some: bool, none: bool)
    ensures all <==> BeatsAll(m, existing)
    ensures some && none <==> Loses(m, existing)
  {
    hide CompareAuthority;
    all, some, none := true, false, true;
    for i := 0 to |existing|
      invariant all <==> forall k :: 0 <= k < i ==> Beats(m, existing[k])
      invariant some <==> exists k :: 0 <= k < i && LosesTo(m, existing[k])
      invariant none <==> forall k :: 0 <= k < i ==> !Beats(m, existing[k])
    {
      var c := CompareAuthority(m, existing[i]);
      all, some, none := all && c.winner == First, some || c.winner == Second, none && c.winner != First;
    }
  }

  method StrongestOf(m: Memory, existing: seq<Memory>) returns (strongest: nat)
    ensures strongest == StrongestRule(m, existing)
  {
    hide CompareAuthority;
    strongest := 5;
    assert existing[..0] == [];
    for i := 0 to |existing|
      invariant strongest == StrongestRule(m, existing[..i])
    {
      assert existing[..i + 1][..i] == existing[..i];
      var c := CompareAuthority(m, existing[i]);
      if c.rule < strongest { strongest := c.rule; }
    }
    assert existing[..|existing|] == existing;
  }

  /** The suggested survivor: the first existing memory that beats the new one by the strongest rule. */
  method PickSurvivor(m: Memory, existing: seq<Memory>) returns (winner: nat, rule: nat)
    requires Loses(m, existing)
    ensures Survives(m, existing, winner) && rule == CompareAuthority(m, existing[winner]).rule
  {
    hide CompareAuthority;
    assert |existing| > 0;
    winner, rule := 0, 5;
    for i := 0 to |existing|
      invariant winner < |existing| && rule <= 5
      invariant rule < 5 ==> LosesTo(m, existing[winner]) && rule == CompareAuthority(m, existing[winner]).rule && winner < i
      invariant forall k :: 0 <= k < i && LosesTo(m, existing[k]) ==> rule <= CompareAuthority(m, existing[k]).rule
      invariant rule < 5 ==> forall k :: 0 <= k < winner && LosesTo(m, existing[k]) ==> rule < CompareAuthority(m, existing[k]).rule
    {
      var c := CompareAuthority(m, existing[i]);
      if c.winner == Second && c.rule < rule { winner, rule := i, c.rule; }
    }
    ghost var k :| 0 <= k < |existing| && LosesTo(m, existing[k]);
    LosingRule(m, existing[k]);
  }

  method SuggestResolution(m: Memory, existing: seq<Memory>) returns (r: Suggestion)
    ensures (r.kind, r.rule) == Outcome(m, existing)
    ensures r.kind == KeepNew <==> BeatsAll(m, existing)
    ensures r.kind == KeepExisting <==> Loses(m, existing)
    ensures r.kind == KeepNew ==> r.winner == Some(m.id)
    ensures r.kind == KeepExisting ==> exists i: nat :: Survives(m, existing, i) && r.winner == Some(existing[i].id)
    ensures r.flagged <==> r.kind == KeepBoth
    ensures r.kind == KeepBoth ==> r.winner == None
  {
    hide CompareAuthority, StrongestRule;
    if |existing| == 0 { return Suggestion(KeepNew, Some(m.id), false, 1); }
    var all, some, none := Survey(m, existing);
    if all {
      assert Beats(m, existing[0]);
      var strongest := StrongestOf(m, existing);
      return Suggestion(KeepNew, Some(m.id), false, strongest);
    }
    if some && none {
      var winner, rule := PickSurvivor(m, existing);
      SurvivorRule(m, existing, winner);
      hide Survives, Loses;
      return Suggestion(KeepExisting, Some(existing[winner].id), false, rule);
    }
    r := Suggestion(KeepBoth, None, true, 5);
  }

  /** A loss is decided by one of the first four rules. */
  lemma LosingRule(m: Memory, e: Memory)
    ensures LosesTo(m, e) ==> CompareAuthority(m, e).rule < 5
  {
  }

  /** What the suggestion says apart from which memory survives. */
  function Outcome(m: Memory, existing: seq<Memory>): (Kind, nat) {
    if existing == [] then (KeepNew, 1)
    else if BeatsAll(m, existing) then (KeepNew, StrongestRule(m, existing))
    else if Loses(m, existing) then (KeepExisting, StrongestRule(m, existing))
    else (KeepBoth, 5)
  }

  lemma SameStrongest(m: Memory, a: seq<Memory>, b: seq<Memory>)
    requires forall e :: e in a <==> e in b
    ensures StrongestRule(m, a) == StrongestRule(m, b)
  {
    hide CompareAuthority;
  }

  /** ORDER AND REPETITION DO NOT MATTER. Two lists of existing memories with the same members give the same kind and the
      same rule. */
  lemma OutcomeIgnoresOrder(m: Memory, a: seq<Memory>, b: seq<Memory>)
    requires forall e :: e in a <==> e in b
    ensures Outcome(m, a) == Outcome(m, b)
  {
    hide CompareAuthority;
    assert a != [] ==> a[0] in b;
    assert b != [] ==> b[0] in a;
    SameStrongest(m, a, b);
    hide StrongestRule;
  }

  /** The rule of a surviving memory is the strongest of the whole comparison. */
  lemma SurvivorRule(m: Memory, existing: seq<Memory>, i: nat)
    requires Loses(m, existing) && Survives(m, existing, i)
    ensures Outcome(m, existing) == (KeepExisting, CompareAuthority(m, existing[i]).rule)
  {
    var rule := CompareAuthority(m, existing[i]).rule;
    LosingRule(m, existing[i]);
    assert existing[i] in existing && !Beats(m, existing[i]);
    forall e | e in existing ensures rule <= CompareAuthority(m, e).rule {
      TieRule(m, e);
      var k :| 0 <= k < |existing| && existing[k] == e;
      hide CompareAuthority;
      assert LosesTo(m, existing[k]) || CompareAuthority(m, e).rule == 5;
    }
    hide CompareAuthority;
  }

  lemma TieRule(m: Memory, e: Memory)
    ensures CompareAuthority(m, e).winner == Neither <==> CompareAuthority(m, e).rule == 5
  {
  }

  /** NO HIGHER AUTHORITY IS OVERRULED. A suggested survivor is beaten by no existing memory of another source, and it
      beats the new memory, unless they share a source and one timestamp does not parse. */
  lemma SurvivorHasAuthority(m: Memory, existing: seq<Memory>, i: nat, e: Memory)
    requires Loses(m, existing) && Survives(m, existing, i) && e in existing
    ensures Beats(existing[i], m) <==>
              !(m.source == existing[i].source && (m.createdAt.None? || existing[i].createdAt.None?))
    ensures e.source != existing[i].source ==> !Beats(e, existing[i])
  {
    SymmetricIff(m, existing[i]);
    var k :| 0 <= k < |existing| && existing[k] == e;
    if e.source != existing[i].source && Beats(e, existing[i]) {
      assert LosesTo(m, e);
    }
  }

  /** WITHIN A SOURCE the survivor need not be the strongest: it is unbeaten exactly when no existing memory of its own
      source is more recent than it, or as old and more confident. */
  lemma SurvivorUnbeatenIff(m: Memory, existing: seq<Memory>, i: nat)
    requires Loses(m, existing) && Survives(m, existing, i)
    ensures (forall e :: e in existing ==> !Beats(e, existing[i])) <==>
              forall e :: e in existing && e.source == existing[i].source && e.createdAt.Some? && existing[i].createdAt.Some? ==>
                && e.createdAt.value <= existing[i].createdAt.value
                && (e.createdAt == existing[i].createdAt && e.confidence.Some? && existing[i].confidence.Some?
                    ==> e.confidence.value <= existing[i].confidence.value)
  {
    forall e | e in existing && e.source != existing[i].source ensures !Beats(e, existing[i]) {
      SurvivorHasAuthority(m, existing, i, e);
    }
    hide Loses, Survives;
  }

  /** The first of two newer memories survives though the second is newer still. */
  lemma NotTheStrongest()
    ensures var m := Memory("new", AiInferred, Some(1), None);
      var older, newer := Memory("a", AiInferred, Some(2), None), Memory("b", AiInferred, Some(3), None);
      Loses(m, [older, newer]) && Survives(m, [older, newer], 0) && Beats(newer, older)
  {
    var m, older := Memory("new", AiInferred, Some(1), None), Memory("a", AiInferred, Some(2), None);
    assert LosesTo(m, older) && older in [older, Memory("b", AiInferred, Some(3), None)];
  }
}
