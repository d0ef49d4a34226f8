/** The tier policy (app/approval-tiers/src/tiers.ts): classification of a gated action and reviewer routing. */
module Tiers {
  import opened Wrappers

  datatype Tier = Auto | Soft | Hard

  datatype Risk = Low | Medium | High

  datatype FlooredCategory =
    | ExternalComm | FinancialOperation | ConfidentialMemoryOp | RestrictedMemoryOp
    | BulkExport | MassDelete | ConnectorSpend | DestructiveConfig

  /** The action type doubles as a task id; an absent reversibility is not proven reversible. */
  datatype GatedAction = GatedAction(
    actionType: string,
    risk: Option<Risk>,
    reversible: Option<bool>,
    floored: seq<FlooredCategory>,
    context: Option<string>,
    originator: Option<string>)

  /** The operator's tier hint for an action type. */
  type AutonomyMatrix = string -> Option<Tier>

  datatype Why =
    | MandatoryFloor(category: FlooredCategory)
    | RiskUnknown
    | RaisedByMatrix(risk: Risk, seeded: Tier, effective: Tier)
    | NotProvenReversible
    | RiskBand(risk: Risk, tier: Tier)

  datatype TierDecision = TierDecision(
    tier: Tier, floored: bool, flooredBy: Option<FlooredCategory>, reason: Why, defaultedHard: bool)

  function Rank(t: Tier): nat {
    match t case Auto => 0 case Soft => 1 case Hard => 2
  }

  function MostRestrictive(a: Tier, b: Tier): Tier {
    if Rank(a) >= Rank(b) then a else b
  }

  function Seed(r: Risk): Tier {
    match r case Low => Auto case Medium => Soft case High => Hard
  }

  function ClassifyTier(action: GatedAction, matrix: AutonomyMatrix): TierDecision {
    if |action.floored| > 0 then
      TierDecision(Hard, true, Some(action.floored[0]), MandatoryFloor(action.floored[0]), false)
    else if action.risk.None? then
      TierDecision(Hard, false, None, RiskUnknown, true)
    else
      var risk := action.risk.value;
      var seeded := if Seed(risk) == Soft && action.reversible != Some(true) then Hard else Seed(risk);
      var hint := matrix(action.actionType);
      var effective := if hint.Some? then MostRestrictive(seeded, hint.value) else seeded;
      var reason :=
        if effective != seeded then RaisedByMatrix(risk, seeded, effective)
        else if seeded == Hard && risk == Medium then NotProvenReversible
        else RiskBand(risk, effective);
      TierDecision(effective, false, None, reason, false)
  }

  /** The policy as separate lower bounds on the tier, with no order among them. */
  predicate MeetsPolicy(t: Tier, action: GatedAction, matrix: AutonomyMatrix) {
    && (|action.floored| > 0 ==> t == Hard)
    && (action.risk.None? ==> t == Hard)
    && (action.risk.Some? ==> Rank(t) >= Rank(Seed(action.risk.value)))
    && (action.risk == Some(Medium) && action.reversible != Some(true) ==> t == Hard)
    && (matrix(action.actionType).Some? ==> Rank(t) >= Rank(matrix(action.actionType).value))
  }

  /** The classifier picks the least restrictive tier that meets every bound: no config value lowers a floor, and
      nothing is stricter than some bound demands. */
  lemma TierIsLeast(action: GatedAction, matrix: AutonomyMatrix)
    ensures MeetsPolicy(ClassifyTier(action, matrix).tier, action, matrix)
    ensures forall t: Tier :: MeetsPolicy(t, action, matrix) ==> Rank(ClassifyTier(action, matrix).tier) <= Rank(t)
    ensures ClassifyTier(action, matrix).floored <==> |action.floored| > 0
    ensures ClassifyTier(action, matrix).defaultedHard <==> |action.floored| == 0 && action.risk.None?
  {
  }

  /** The claim "an irreversible action is never soft" fails exactly when a low-risk action that is not floored and
      not proven reversible is raised to soft by the operator's own hint. */
  lemma IrreversibleSoftIff(action: GatedAction, matrix: AutonomyMatrix)
    ensures ClassifyTier(action, matrix).tier == Soft && action.reversible != Some(true)
            <==> |action.floored| == 0 && action.risk == Some(Low) && action.reversible != Some(true)
                 && matrix(action.actionType) == Some(Soft)
  {
  }

  lemma IrreversibleSoftExample()
    ensures ClassifyTier(GatedAction("wipe", Some(Low), Some(false), [], None, None), _ => Some(Soft)).tier == Soft
  {
  }

  // ---------------------------------------------------------------- routing

  datatype Reviewer = Reviewer(role: string, identity: string, available: bool)

  datatype RoutingRules = RoutingRules(
    roleForContext: Option<string> -> Option<string>, defaultRole: string, escalationRole: string)

  datatype RoutingOutcome = RoutingOutcome(reviewer: Option<string>, role: string, escalated: bool)

  predicate CanReview(c: Reviewer, role: string, initiator: Option<string>) {
    c.role == role && c.available && Some(c.identity) != initiator
  }

  /** The first candidate who can review. */
  function Pick(candidates: seq<Reviewer>, role: string, initiator: Option<string>): Option<Reviewer> {
    if |candidates| == 0 then None
    else if CanReview(candidates[0], role, initiator) then Some(candidates[0])
    else Pick(candidates[1..], role, initiator)
  }

  function PrimaryRole(action: GatedAction, rules: RoutingRules): string {
    var matched := rules.roleForContext(action.context);
    if matched.Some? then matched.value else rules.defaultRole
  }

  function RouteApproval(action: GatedAction, candidates: seq<Reviewer>, rules: RoutingRules): RoutingOutcome {
    var primaryRole := PrimaryRole(action, rules);
    var primary := Pick(candidates, primaryRole, action.originator);
    if primary.Some? then RoutingOutcome(Some(primary.value.identity), primaryRole, false)
    else
      var escalated := Pick(candidates, rules.escalationRole, action.originator);
      if escalated.Some? then RoutingOutcome(Some(escalated.value.identity), rules.escalationRole, true)
      else RoutingOutcome(None, rules.escalationRole, true)
  }

  lemma {:induction false} PickFirst(candidates: seq<Reviewer>, role: string, initiator: Option<string>)
    ensures Pick(candidates, role, initiator).None? <==>
            forall i :: 0 <= i < |candidates| ==> !CanReview(candidates[i], role, initiator)
    ensures Pick(candidates, role, initiator).Some? ==>
            exists i :: 0 <= i < |candidates| && candidates[i] == Pick(candidates, role, initiator).value
                        && CanReview(candidates[i], role, initiator)
                        && forall j :: 0 <= j < i ==> !CanReview(candidates[j], role, initiator)
  {
    if |candidates| > 0 && !CanReview(candidates[0], role, initiator) {
      var rest := candidates[1..];
      PickFirst(rest, role, initiator);
      if Pick(rest, role, initiator).Some? {
        var i :| 0 <= i < |rest| && rest[i] == Pick(rest, role, initiator).value && CanReview(rest[i], role, initiator)
                 && forall j :: 0 <= j < i ==> !CanReview(rest[j], role, initiator);
        assert candidates[i + 1] == rest[i];
        forall j | 0 <= j < i + 1 ensures !CanReview(candidates[j], role, initiator) {
          if j > 0 { assert candidates[j] == rest[j - 1]; }
        }
      }
      forall i | 0 <= i < |rest| ensures candidates[i + 1] == rest[i] {}
    }
  }

  /** Routing never picks the initiator; it stays in the primary role exactly when someone there can review, and it
      names nobody exactly when nobody can review in either role. */
  lemma RoutingIsSound(action: GatedAction, candidates: seq<Reviewer>, rules: RoutingRules)
    ensures var r := RouteApproval(action, candidates, rules);
      && (r.reviewer.Some? ==> r.reviewer != action.originator)
      && (r.reviewer.Some? ==>
            exists c :: c in candidates && CanReview(c, r.role, action.originator) && r.reviewer == Some(c.identity))
      && (!r.escalated <==> exists c :: c in candidates && CanReview(c, PrimaryRole(action, rules), action.originator))
      && (r.role == if r.escalated then rules.escalationRole else PrimaryRole(action, rules))
      && (r.reviewer.None? <==> forall c :: c in candidates ==>
            !CanReview(c, PrimaryRole(action, rules), action.originator) && !CanReview(c, rules.escalationRole, action.originator))
  {
    PickFirst(candidates, PrimaryRole(action, rules), action.originator);
    PickFirst(candidates, rules.escalationRole, action.originator);
  }
}
