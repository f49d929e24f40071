/** Remediation plans: their stored form, and how the actions an AI proposes become a plan's actions. */
module RemediationPlans {
  import opened Collections

  datatype Action = Action(
    id: string, kind: string, namespace: string, name: string, reason: string, risk: string,
    params: map<string, string>, skip: bool)

  datatype PlanSpec = PlanSpec(analysisRef: string, approved: bool, actions: seq<Action>)

  datatype Phase = Unset | PendingApproval | Running | Completed | Failed

  datatype ResultStatus = Succeeded | FailedResult | Skipped

  datatype ActionResult = ActionResult(id: string, status: ResultStatus)

  datatype PlanStatus = PlanStatus(phase: Phase, results: seq<ActionResult>)

  const EMPTY_STATUS := PlanStatus(Unset, [])

  datatype Plan = Plan(spec: PlanSpec, status: PlanStatus)

  predicate IsFinished(p: Phase) {
    p == Completed || p == Failed
  }

  // ----- Plans from AI actions -----

  datatype AIAction = AIAction(
    kind: string, namespace: string, name: string, reason: string, risk: string, params: map<string, string>)

  /** An unrecognised level ranks below all others. */
  function RiskOrder(risk: string): nat {
    if risk == "low" then 1 else if risk == "medium" then 2 else if risk == "high" then 3 else 0
  }

  predicate RiskWithin(risk: string, max: string) {
    RiskOrder(risk) <= RiskOrder(max)
  }

  function Digit(d: nat): char
    requires d < 10
  {
    "0123456789"[d]
  }

  /** The decimal digits of n. */
  function Decimal(n: nat): string {
    if n < 10 then [Digit(n)] else Decimal(n / 10) + [Digit(n % 10)]
  }

  function DigitValue(c: char): nat {
    if '0' <= c <= '9' then c as nat - '0' as nat else 0
  }

  function DecimalValue(s: string): nat {
    if s == "" then 0 else 10 * DecimalValue(s[..|s| - 1]) + DigitValue(s[|s| - 1])
  }

  lemma {:induction false} DecimalRoundTrip(n: nat)
    ensures DecimalValue(Decimal(n)) == n
    ensures forall c :: c in Decimal(n) ==> '0' <= c <= '9'
  {
    DigitIs(n % 10);
    hide Digit, DigitValue;
    if n >= 10 {
      DecimalRoundTrip(n / 10);
      assert Decimal(n)[..|Decimal(n)| - 1] == Decimal(n / 10);
    } else {
      assert Decimal(n)[..0] == "";
      assert DecimalValue("") == 0;
    }
  }

  lemma {:induction false} DigitIs(d: nat)
    requires d < 10
    ensures DigitValue(Digit(d)) == d && '0' <= Digit(d) <= '9'
  {
  }

  function ActionId(i: nat): string {
    "action-" + Decimal(i + 1)
  }

  lemma {:induction false} ActionIdsDiffer(i: nat, j: nat)
    ensures ActionId(i) == ActionId(j) ==> i == j
  {
    hide Decimal, DecimalValue;
    assert ActionId(i)[7..] == Decimal(i + 1) && ActionId(j)[7..] == Decimal(j + 1);
    DecimalRoundTrip(i + 1);
    DecimalRoundTrip(j + 1);
  }

  /** The plan action made of the AI action at position i. */
  function PlanAction(a: AIAction, i: nat): Action {
    Action(ActionId(i), a.kind, a.namespace, a.name, a.reason, a.risk, a.params, false)
  }

  /** The positions of the AI actions whose risk is within the maximum. */
  function Admitted(actions: seq<AIAction>, maxRisk: string): seq<nat> {
    if actions == [] then []
    else
      var i := |actions| - 1;
      Admitted(actions[..i], maxRisk) + (if RiskWithin(actions[i].risk, maxRisk) then [i] else [])
  }

  lemma {:induction false} AdmittedInOrder(actions: seq<AIAction>, maxRisk: string)
    ensures forall k, l :: 0 <= k < l < |Admitted(actions, maxRisk)| ==>
                             Admitted(actions, maxRisk)[k] < Admitted(actions, maxRisk)[l]
    ensures forall i: nat :: i in Admitted(actions, maxRisk) <==> i < |actions| && RiskWithin(actions[i].risk, maxRisk)
  {
    if actions != [] {
      AdmittedInOrder(actions[..|actions| - 1], maxRisk);
      var before := Admitted(actions[..|actions| - 1], maxRisk);
      forall k | 0 <= k < |before| ensures before[k] < |actions| - 1 {
        assert before[k] in before;
      }
    }
  }

  /** The actions of the plan: the admitted ones, in order, each with the id of its position. */
  ghost predicate ArePlanActions(actions: seq<AIAction>, maxRisk: string, planned: seq<Action>) {
    && |planned| == |Admitted(actions, maxRisk)|
    && forall k :: 0 <= k < |planned| ==>
         Admitted(actions, maxRisk)[k] < |actions|
         && planned[k] == PlanAction(actions[Admitted(actions, maxRisk)[k]], Admitted(actions, maxRisk)[k])
  }

  /** An unset maximum admits low-risk actions only. */
  function MaxRiskOrDefault(maxRisk: string): string {
    if maxRisk == "" then "low" else maxRisk
  }

  /** Which levels a maximum lets through, by name: every level up to it, and whatever is no level. */
  predicate MayPlan(risk: string, max: string) {
    && (risk == "high" ==> max == "high")
    && (risk == "medium" ==> max == "medium" || max == "high")
    && (risk == "low" ==> max == "low" || max == "medium" || max == "high")
  }

  /** The plan of a proposal under a configured maximum, which is low when unset: the actions let through, in
      the order of the proposal, each with its own fields and the id of its position, none skipped. */
  ghost predicate IsPlanOf(actions: seq<AIAction>, maxRisk: string, planned: seq<Action>) {
    exists at: seq<nat> ::
      && |at| == |planned|
      && (forall k, l :: 0 <= k < l < |at| ==> at[k] < at[l])
      && (forall i: nat :: i in at <==>
            i < |actions| && MayPlan(actions[i].risk, if maxRisk == "" then "low" else maxRisk))
      && forall k :: 0 <= k < |at| ==>
           at[k] < |actions|
           && var a := actions[at[k]];
              planned[k] == Action("action-" + Decimal(at[k] + 1), a.kind, a.namespace, a.name, a.reason, a.risk,
                                   a.params, false)
  }

  lemma {:induction false} RanksAreLevels(risk: string, max: string)
    ensures RiskWithin(risk, max) <==> MayPlan(risk, max)
  {
  }

  lemma {:induction false} PlanIs(actions: seq<AIAction>, maxRisk: string, planned: seq<Action>)
    requires ArePlanActions(actions, MaxRiskOrDefault(maxRisk), planned)
    ensures IsPlanOf(actions, maxRisk, planned)
  {
    var max := MaxRiskOrDefault(maxRisk);
    hide RiskWithin, MayPlan;
    AdmittedInOrder(actions, max);
    forall i: nat | i < |actions| ensures RiskWithin(actions[i].risk, max) <==> MayPlan(actions[i].risk, max) {
      RanksAreLevels(actions[i].risk, max);
    }
    var at := Admitted(actions, max);
    assert |at| == |planned|;
  }

  /** By default only low-risk actions are planned, and those whose level is none. */
  lemma {:induction false} DefaultPlansLowOnly(actions: seq<AIAction>, planned: seq<Action>)
    ensures IsPlanOf(actions, "", planned) ==>
              forall a :: a in planned ==> a.risk == "low" || a.risk !in {"low", "medium", "high"}
  {
  }

  method PlanActions(actions: seq<AIAction>, maxRisk: string) returns (planned: seq<Action>)
    ensures ArePlanActions(actions, MaxRiskOrDefault(maxRisk), planned)
    ensures IsPlanOf(actions, maxRisk, planned)
  {
    hide IsPlanOf;
    var max := maxRisk;
    if max == "" {
      max := "low";
    }
    planned := [];
    for i := 0 to |actions|
      invariant ArePlanActions(actions[..i], max, planned)
    {
      TakeNext(actions, i);
      if !RiskWithin(actions[i].risk, max) {
        continue;
      }
      planned := planned + [PlanAction(actions[i], i)];
    }
    assert actions[..|actions|] == actions;
    PlanIs(actions, maxRisk, planned);
  }

  /** A plan keeps the order of the proposal, gives every action its own id, skips none, and leaves out
      exactly the actions whose risk is recognised and above the maximum. */
  lemma {:induction false} PlanActionsAreFiltered(actions: seq<AIAction>, maxRisk: string, planned: seq<Action>)
    requires ArePlanActions(actions, maxRisk, planned)
    ensures forall k, l :: 0 <= k < l < |planned| ==> planned[k].id != planned[l].id
    ensures forall a :: a in planned ==> !a.skip && RiskOrder(a.risk) <= RiskOrder(maxRisk)
    ensures forall i :: 0 <= i < |actions| ==>
              (PlanAction(actions[i], i) in planned <==> !(RiskOrder(actions[i].risk) > RiskOrder(maxRisk)))
  {
    hide PlanAction, ActionId, RiskOrder;
    AdmittedInOrder(actions, maxRisk);
    var kept := Admitted(actions, maxRisk);
    forall k, l | 0 <= k < l < |planned| ensures planned[k].id != planned[l].id {
      PlanActionIs(actions[kept[k]], kept[k]);
      PlanActionIs(actions[kept[l]], kept[l]);
      ActionIdsDiffer(kept[k], kept[l]);
    }
    forall a | a in planned ensures !a.skip && RiskOrder(a.risk) <= RiskOrder(maxRisk) {
      var k :| 0 <= k < |planned| && planned[k] == a;
      PlanActionIs(actions[kept[k]], kept[k]);
      assert kept[k] in kept;
    }
    forall i | 0 <= i < |actions|
      ensures PlanAction(actions[i], i) in planned <==> RiskWithin(actions[i].risk, maxRisk) {
      if RiskWithin(actions[i].risk, maxRisk) {
        assert i in kept;
        var k :| 0 <= k < |kept| && kept[k] == i;
        assert planned[k] == PlanAction(actions[i], i);
      }
      if PlanAction(actions[i], i) in planned {
        var k :| 0 <= k < |planned| && planned[k] == PlanAction(actions[i], i);
        PlanActionIs(actions[kept[k]], kept[k]);
        PlanActionIs(actions[i], i);
        ActionIdsDiffer(kept[k], i);
        assert kept[k] in kept;
      }
    }
  }

  lemma {:induction false} PlanActionIs(a: AIAction, i: nat)
    ensures PlanAction(a, i).id == ActionId(i) && PlanAction(a, i).risk == a.risk && !PlanAction(a, i).skip
  {
  }

  /** The filter reads only the recognised levels: a level the model invents is never above the maximum, so
      wherever such an action stands in the proposal it is planned, even under the strictest one. */
  lemma {:induction false} UnrecognisedRiskIsAdmitted(actions: seq<AIAction>, i: nat, maxRisk: string,
                                                      planned: seq<Action>)
    requires i < |actions| && actions[i].risk !in {"low", "medium", "high"}
    requires ArePlanActions(actions, maxRisk, planned)
    ensures PlanAction(actions[i], i) in planned
  {
    hide PlanAction, ArePlanActions;
    PlanActionsAreFiltered(actions, maxRisk, planned);
  }
}
