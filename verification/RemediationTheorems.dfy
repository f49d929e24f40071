/** What the remediation protocol guarantees over every run, and the two places where it gets stuck. */
module RemediationTheorems {
  import opened Collections
  import opened RemediationPlans
  import opened RemediationProtocol

  /** A state some run reaches, under any interleaving of workers, stale reads, crashes, user edits,
      deletions and proposals. */
  ghost predicate Reachable(s: State) {
    exists steps :: s == Run(INITIAL, steps)
  }

  lemma {:induction false} ReachableHolds(s: State)
    requires Reachable(s)
    ensures Inv(s)
  {
    hide Inv;
    var steps :| s == Run(INITIAL, steps);
    InitialHolds();
    RunKeeps(INITIAL, steps);
  }

  /** The controllers only ever extend a run, so what they leave behind is reachable again. */
  lemma {:induction false} ReachableExtends(s: State, steps: seq<Step>)
    requires Reachable(s)
    ensures |s.history| > 0 && Reachable(Run(s, steps))
  {
    hide Run;
    var before :| s == Run(INITIAL, before);
    RunConcat(INITIAL, before, steps);
  }

  // ----- At most one claim between resets -----

  /** The plan was deleted, or replaced by an unapproved one whose emptied status was stored. */
  ghost predicate IsCleared(h: seq<Option<Plan>>, k: nat) {
    0 < k < |h| && (h[k].None? || IsReset(h[k - 1], h[k]))
  }

  ghost predicate IsTaken(o: Option<Plan>) {
    o.Some? && (o.value.status.phase == Running || IsFinished(o.value.status.phase))
  }

  /** A claimed plan stays running or finished until it is cleared. */
  lemma {:induction false} TakenUntilCleared(h: seq<Option<Plan>>, i: nat, k: nat)
    requires IsHistory(h) && i <= k < |h| && IsTaken(h[i])
    requires forall m: nat :: i < m <= k ==> !IsCleared(h, m)
    ensures IsTaken(h[k])
  {
    if i < k {
      TakenUntilCleared(h, i, k - 1);
      assert Legal(h[k - 1], h[k]);
      assert !IsCleared(h, k);
    }
  }

  lemma {:induction false} ReachableHistory(s: State)
    requires Reachable(s)
    ensures IsHistory(s.history)
  {
    ReachableHolds(s);
  }

  /** Between two successful claims the plan was cleared: at most one worker's claim succeeds between two
      resets, whether or not a replacement's status write lands. */
  lemma {:induction false} OneClaimPerReset(s: State, i: nat, j: nat)
    requires Reachable(s) && ClaimedAt(s.history, i) && ClaimedAt(s.history, j) && i < j
    ensures exists k: nat :: i < k < j && IsCleared(s.history, k)
  {
    hide Reachable, IsCleared, IsHistory;
    ReachableHistory(s);
    if forall k: nat :: i < k < j ==> !IsCleared(s.history, k) {
      TakenUntilCleared(s.history, i, j - 1);
      assert false;
    }
  }

  /** No deletion, and no status written along with a spec: what the status subresource enforces. */
  predicate KeepsStatus(step: Step) {
    !step.Delete? && (step.Propose? ==> !step.statusLands)
  }

  /** A version that keeps the status apart from the plan's own claim and finish. */
  ghost predicate IsQuiet(p: Option<Plan>, n: Option<Plan>) {
    n.Some? && (IsClaim(p, n) || IsFinish(p, n) || IsEdit(p, n) || IsCreation(p, n))
  }

  /** What such a step does to the history. */
  lemma {:induction false} QuietStep(s: State, step: Step)
    requires Inv(s) && KeepsStatus(step)
    ensures var h := Apply(s, step).history;
            h != s.history ==>
              |h| == |s.history| + 1 && h[..|s.history|] == s.history && IsQuiet(h[|s.history| - 1], h[|s.history|])
  {
    hide IsHistory, WorkerOk, ExecutionsOk, FinishesOk, ClaimsApart, Records, FinalPhase;
    match step {
      case Claim(w) => QuietClaim(s, w);
      case Finish(w) => QuietFinish(s, w);
      case Edit(_) =>
      case Propose(_, _, _) =>
      case Read(_, _) =>
      case Act(_, _) =>
      case Crash(_) =>
    }
  }

  lemma {:induction false} QuietClaim(s: State, w: nat)
    requires Inv(s)
    ensures var h := Apply(s, Claim(w)).history;
            h != s.history ==>
              |h| == |s.history| + 1 && h[..|s.history|] == s.history && IsQuiet(h[|s.history| - 1], h[|s.history|])
  {
    hide IsHistory, ExecutionsOk, FinishesOk, ClaimsApart, Progress, IsFinish, IsEdit, IsCreation;
    if WorkerAt(s, w).Holding? {
      assert WorkerOk(s, s.workers[w]);
    }
  }

  lemma {:induction false} QuietFinish(s: State, w: nat)
    requires Inv(s)
    ensures var h := Apply(s, Finish(w)).history;
            h != s.history ==>
              |h| == |s.history| + 1 && h[..|s.history|] == s.history && IsQuiet(h[|s.history| - 1], h[|s.history|])
  {
    hide IsFinish, IsClaim, Progress, FinalPhase, IsHistory, ClaimsApart, ExecutionsOk, FinishesOk;
    var k := WorkerAt(s, w);
    if k.Executing? && |k.results| >= |k.plan.spec.actions| {
      assert WorkerOk(s, s.workers[w]);
      DoneIsFinish(s.history, s.executed, k.claim, k.plan, k.results);
    }
  }

  ghost predicate ClearsNothing(h: seq<Option<Plan>>, from: nat) {
    forall k: nat :: from <= k < |h| ==> !IsCleared(h, k)
  }

  lemma {:induction false} QuietClearsNothing(h: seq<Option<Plan>>, h': seq<Option<Plan>>, from: nat)
    requires h' != h ==> |h'| == |h| + 1 && h'[..|h|] == h && |h| > 0 && IsQuiet(h'[|h| - 1], h'[|h|])
    requires ClearsNothing(h, from)
    ensures ClearsNothing(h', from)
  {
    forall k: nat | from <= k < |h'| ensures !IsCleared(h', k) {
      if k < |h| {
        assert !IsCleared(h, k);
      }
    }
  }

  lemma {:induction false} NothingCleared(s: State, steps: seq<Step>)
    requires Inv(s) && forall i :: 0 <= i < |steps| ==> KeepsStatus(steps[i])
    ensures |s.history| > 0 && ClearsNothing(Run(s, steps).history, |s.history|)
  {
    InvHasHistory(s);
    hide Inv, Apply, IsQuiet, KeepsStatus;
    if steps != [] {
      hide ClearsNothing;
      var before := steps[..|steps| - 1];
      NothingCleared(s, before);
      RunNext(s, steps);
      RunKeeps(s, before);
      QuietStep(Run(s, before), steps[|steps| - 1]);
      QuietClearsNothing(Run(s, before).history, Run(s, steps).history, |s.history|);
    }
  }

  /** On a server that keeps the status out of spec writes, a plan that is never deleted is claimed at most
      once, ever. */
  lemma {:induction false} AtMostOneClaim(steps: seq<Step>, i: nat, j: nat)
    requires forall k :: 0 <= k < |steps| ==> KeepsStatus(steps[k])
    requires ClaimedAt(Run(INITIAL, steps).history, i) && ClaimedAt(Run(INITIAL, steps).history, j)
    ensures i == j
  {
    hide KeepsStatus, Run, ClaimedAt;
    NoLaterClaim(steps, i, j);
    NoLaterClaim(steps, j, i);
  }

  lemma {:induction false} NoLaterClaim(steps: seq<Step>, i: nat, j: nat)
    requires forall k :: 0 <= k < |steps| ==> KeepsStatus(steps[k])
    requires ClaimedAt(Run(INITIAL, steps).history, i) && ClaimedAt(Run(INITIAL, steps).history, j)
    ensures i >= j
  {
    var s := Run(INITIAL, steps);
    InitialHolds();
    assert Reachable(s);
    hide Inv, IsCleared, KeepsStatus, Reachable, IsClaim;
    NothingCleared(INITIAL, steps);
    if i < j {
      OneClaimPerReset(s, i, j);
    }
  }

  // ----- What is executed -----

  /** Every executed action is a non-skipped action of the exact spec that had approved set when the phase
      became running, and was run at most once under that claim. */
  lemma {:induction false} OnlyApprovedActionsRun(s: State, n: nat)
    requires Reachable(s) && n < |s.executed|
    ensures var e := s.executed[n];
            && ClaimedAt(s.history, e.claim)
            && s.history[e.claim - 1].value.spec == s.history[e.claim].value.spec
            && s.history[e.claim - 1].value.spec.approved
            && e.index < |s.history[e.claim].value.spec.actions|
            && e.action == s.history[e.claim - 1].value.spec.actions[e.index] && !e.action.skip
            && forall m :: 0 <= m < |s.executed| && m != n ==>
                 s.executed[m].claim != e.claim || s.executed[m].index != e.index
  {
    ReachableHolds(s);
    assert s.executed[n] in s.executed;
    assert IsOfClaim(s.history, s.executed[n]);
  }

  /** A plan that finished ran every non-skipped action of its claim exactly once, records one result per
      action in spec order with matching ids, skipped exactly where asked and successful exactly where the
      run succeeded, and is completed iff no executed action failed. */
  lemma {:induction false} FinishedRanEverythingOnce(s: State, f: nat)
    requires Reachable(s) && FinishedAt(s.history, f)
    ensures var plan := s.history[f].value;
            var actions, results := plan.spec.actions, plan.status.results;
            && ClaimedAt(s.history, f - 1) && s.history[f - 1].value.spec == plan.spec
            && |results| == |actions|
            && (forall i :: 0 <= i < |actions| ==> results[i].id == actions[i].id
                                                   && (results[i].status == Skipped <==> actions[i].skip))
            && (forall i :: 0 <= i < |actions| && !actions[i].skip ==>
                  Execution(f - 1, i, actions[i], results[i].status == Succeeded) in s.executed)
            && (plan.status.phase == Completed <==> forall e :: e in s.executed && e.claim == f - 1 ==> e.ok)
  {
    ReachableHolds(s);
    hide Reachable, IsHistory, WorkerOk, ClaimsApart, IsClaim;
    var plan := s.history[f].value;
    var actions, results := plan.spec.actions, plan.status.results;
    assert Progress(s.executed, f - 1, actions, results);
    forall e | e in s.executed && e.claim == f - 1 ensures e.ok <==> results[e.index].status == Succeeded {
      OneOutcome(s, e, results, actions, f - 1);
    }
    if r :| r in results && r.status == FailedResult {
      var i :| 0 <= i < |results| && results[i] == r;
      assert Execution(f - 1, i, actions[i], false) in s.executed;
    }
    forall e | e in s.executed && e.claim == f - 1 && !e.ok ensures plan.status.phase == Failed {
      assert IsOfClaim(s.history, e);
      assert results[e.index] in results && results[e.index].status == FailedResult;
    }
  }

  lemma {:induction false} OneOutcome(s: State, e: Execution, results: seq<ActionResult>, actions: seq<Action>, c: nat)
    requires ExecutionsOk(s) && Progress(s.executed, c, actions, results)
    requires e in s.executed && e.claim == c
    requires ClaimedAt(s.history, c) && s.history[c].value.spec.actions == actions
    ensures e.index < |results| && (e.ok <==> results[e.index].status == Succeeded)
  {
    assert IsOfClaim(s.history, e);
    var e' := Execution(c, e.index, actions[e.index], results[e.index].status == Succeeded);
    assert e' in s.executed;
    var i :| 0 <= i < |s.executed| && s.executed[i] == e;
    var j :| 0 <= j < |s.executed| && s.executed[j] == e';
    assert i == j;
  }

  // ----- A replacement is unapproved, and a running plan is not replaced -----

  /** A proposal that changes an existing plan leaves it unapproved, whatever it asks for, and the plan it
      changes is finished or has no phase, however old the read it started from. */
  lemma {:induction false} ReplacementsAreUnapproved(s: State, version: nat, spec: PlanSpec, lands: bool)
    requires Inv(s) && s.history[Latest(s)].Some?
    ensures var s' := Apply(s, Propose(version, spec, lands));
            s' != s ==>
              && !s'.history[Latest(s')].value.spec.approved
              && s'.history[Latest(s')].value.spec.actions == spec.actions
              && var phase := s.history[Latest(s)].value.status.phase; (IsFinished(phase) || phase == Unset)
  {
  }

  /** Only an edit approves: over any run without edits and deletions an approved plan has the very spec it
      had before, however many proposals, claims and finishes come in between. */
  lemma {:induction false} OnlyEditsApprove(s: State, steps: seq<Step>)
    requires Inv(s) && s.history[Latest(s)].Some?
    requires forall i :: 0 <= i < |steps| ==> !steps[i].Edit? && !steps[i].Delete?
    ensures var r := Run(s, steps);
            && r.history[Latest(r)].Some?
            && (r.history[Latest(r)].value.spec.approved ==>
                  r.history[Latest(r)].value.spec == s.history[Latest(s)].value.spec)
  {
    hide Inv, Apply;
    InvHasHistory(s);
    if steps != [] {
      var before := steps[..|steps| - 1];
      OnlyEditsApprove(s, before);
      RunKeeps(s, before);
      RunNext(s, steps);
      ApprovalStays(Run(s, before), steps[|steps| - 1]);
    }
  }

  /** The newest plan's spec after a step, if it is approved, is the one before. */
  ghost predicate KeepsApproved(h: seq<Option<Plan>>, h': seq<Option<Plan>>) {
    |h| > 0 && h[|h| - 1].Some? ==>
      && |h'| > 0 && h'[|h'| - 1].Some?
      && (h'[|h'| - 1].value.spec.approved ==> h'[|h'| - 1].value.spec == h[|h| - 1].value.spec)
  }

  lemma {:induction false} ClaimKeepsSpec(s: State, w: nat)
    requires |s.history| > 0
    ensures KeepsApproved(s.history, ClaimStep(s, w).history)
  {
  }

  lemma {:induction false} FinishKeepsSpec(s: State, w: nat)
    requires |s.history| > 0
    ensures KeepsApproved(s.history, FinishStep(s, w).history)
  {
    hide FinalPhase;
  }

  lemma {:induction false} ApprovalStays(s: State, step: Step)
    requires Inv(s) && s.history[Latest(s)].Some? && !step.Edit? && !step.Delete?
    ensures KeepsApproved(s.history, Apply(s, step).history)
  {
    hide Inv, ClaimStep, FinishStep;
    InvHasHistory(s);
    match step {
      case Read(_, _) =>
      case Claim(w) => ClaimKeepsSpec(s, w);
      case Act(_, _) =>
      case Finish(w) => FinishKeepsSpec(s, w);
      case Crash(_) =>
      case Propose(v, spec, lands) => ReplacementsAreUnapproved(s, v, spec, lands);
    }
  }

  // ----- The pending phase that does not land -----

  lemma {:induction false} AfterCreation(s: State, spec: PlanSpec, lands: bool)
    requires |s.history| > 0 && s.history[Latest(s)].None?
    ensures var status := if lands then PlanStatus(PendingApproval, []) else EMPTY_STATUS;
            Apply(s, Propose(Latest(s), spec, lands)) == s.(history := s.history + [Some(Plan(spec, status))])
  {
  }

  lemma {:induction false} AfterEdit(s: State, spec: PlanSpec)
    requires |s.history| > 0 && s.history[Latest(s)].Some?
    ensures Apply(s, Edit(spec)) == s.(history := s.history + [Some(Plan(spec, s.history[Latest(s)].value.status))])
  {
  }

  /** A new plan that its user has edited, say approved, outlives the next proposal exactly when its pending
      phase was stored. Otherwise it has no phase, and the proposal takes its place, unapproved. */
  lemma {:induction false} PendingPlanOutlivesIffPhaseLands(s: State, spec: PlanSpec, lands: bool, edited: PlanSpec,
                                                            next: PlanSpec, nextLands: bool)
    requires |s.history| > 0 && s.history[Latest(s)].None?
    ensures var s1 := Apply(s, Propose(Latest(s), spec, lands));
            |s1.history| > 0
            && var s2 := Apply(s1, Edit(edited));
            |s2.history| > 0 && s2.history[Latest(s2)].Some? && s2.history[Latest(s2)].value.spec == edited
            && var s3 := Apply(s2, Propose(Latest(s2), next, nextLands));
            && (s3 == s2 <==> lands)
            && (!lands ==>
                  |s3.history| > 0 && s3.history[Latest(s3)] == Some(Plan(next.(approved := false), EMPTY_STATUS)))
  {
    AfterCreation(s, spec, lands);
    var s1 := Apply(s, Propose(Latest(s), spec, lands));
    AfterEdit(s1, edited);
    var s2 := Apply(s1, Edit(edited));
    assert |s2.history| == |s1.history| + 1;
    assert Apply(s2, Propose(Latest(s2), next, nextLands)) == ProposeStep(s2, Latest(s2), next, nextLands);
  }

  // ----- The reset that does not land -----

  lemma {:induction false} FinishedStays(s: State, steps: seq<Step>)
    requires Inv(s) && s.history[Latest(s)].Some? && IsFinished(s.history[Latest(s)].value.status.phase)
    requires forall i :: 0 <= i < |steps| ==> KeepsStatus(steps[i])
    ensures var r := Run(s, steps);
            && r.history[Latest(r)].Some? && r.history[Latest(r)].value.status == s.history[Latest(s)].value.status
            && forall c: nat :: c >= |s.history| ==> !ClaimedAt(r.history, c)
  {
    hide Inv;
    if steps == [] {
    } else {
      var before := steps[..|steps| - 1];
      var q := Run(s, before);
      InvHasHistory(s);
      FinishedStays(s, before);
      RunKeeps(s, before);
      RunNext(s, steps);
      FinishedStep(q, steps[|steps| - 1]);
      ApplyGrows(q, steps[|steps| - 1]);
      hide Run, Apply, KeepsStatus, IsClaim;
      forall c: nat | c >= |s.history| ensures !ClaimedAt(Run(s, steps).history, c) {
        assert !ClaimedAt(q.history, c);
        if c < |q.history| {
          assert Run(s, steps).history[c] == q.history[c];
        }
      }
    }
  }

  lemma {:induction false} FinishedStep(s: State, step: Step)
    requires Inv(s) && s.history[Latest(s)].Some? && IsFinished(s.history[Latest(s)].value.status.phase)
    requires KeepsStatus(step)
    ensures var r := Apply(s, step);
            && |r.history| > 0
            && r.history[Latest(r)].Some? && r.history[Latest(r)].value.status == s.history[Latest(s)].value.status
            && forall c: nat :: c >= |s.history| ==> !ClaimedAt(r.history, c)
  {
    hide Inv, Apply, KeepsStatus;
    InvHasHistory(s);
    QuietStep(s, step);
  }

  /** The steps of a replacement that is then approved, read and claimed. */
  function ReplaceAndClaim(v: nat, spec: PlanSpec, lands: bool, w: nat): seq<Step> {
    [Propose(v, spec, lands), Edit(spec.(approved := true)), Read(w, v + 2), Claim(w)]
  }

  lemma {:induction false} RunFour(s: State, a: Step, b: Step, c: Step, d: Step)
    requires |s.history| > 0
    ensures |Apply(s, a).history| > 0 && |Apply(Apply(s, a), b).history| > 0
    ensures |Apply(Apply(Apply(s, a), b), c).history| > 0
    ensures Run(s, [a, b, c, d]) == Apply(Apply(Apply(Apply(s, a), b), c), d)
  {
    ApplyGrows(s, a);
    ApplyGrows(Apply(s, a), b);
    ApplyGrows(Apply(Apply(s, a), b), c);
    assert [a, b, c, d][..3] == [a, b, c] && [a, b, c][..2] == [a, b] && [a, b][..1] == [a] && [a][..0] == [];
    assert Run(s, [a]) == Apply(Run(s, []), a);
    assert Run(s, [a, b]) == Apply(Run(s, [a]), b);
    assert Run(s, [a, b, c]) == Apply(Run(s, [a, b]), c);
  }

  /** A finished plan that is replaced can run again exactly when the emptied status of the replacement is
      stored. The status subresource keeps it from being stored: then the replacement, although approved by
      the user, is never claimed by any later run that does not delete the plan. */
  lemma {:induction false} ReplacedPlanRunsIffResetLands(s: State, spec: PlanSpec, lands: bool, w: nat)
    requires Inv(s) && s.history[Latest(s)].Some? && IsFinished(s.history[Latest(s)].value.status.phase)
    requires WorkerAt(s, w).Idle?
    ensures var r := Run(s, ReplaceAndClaim(Latest(s), spec, lands, w));
            ClaimedAt(r.history, |s.history| + 2) <==> lands
    ensures !lands ==> forall steps: seq<Step>, c: nat ::
              (forall i :: 0 <= i < |steps| ==> KeepsStatus(steps[i])) && c >= |s.history|
              ==> !ClaimedAt(Run(s, [Propose(Latest(s), spec, lands)] + steps).history, c)
  {
    ReplaceAndClaimEnds(s, spec, lands, w);
    if !lands {
      hide Inv, KeepsStatus, Run, ClaimedAt;
      forall steps: seq<Step>, c: nat | (forall i :: 0 <= i < |steps| ==> KeepsStatus(steps[i])) && c >= |s.history|
        ensures !ClaimedAt(Run(s, [Propose(Latest(s), spec, lands)] + steps).history, c) {
        UnlandedKeepsStatus(Latest(s), spec);
        FinishedStays(s, [Propose(Latest(s), spec, lands)] + steps);
      }
    }
  }

  lemma {:induction false} UnlandedKeepsStatus(v: nat, spec: PlanSpec)
    ensures KeepsStatus(Propose(v, spec, false))
  {
  }

  lemma {:induction false} ReplaceAndClaimEnds(s: State, spec: PlanSpec, lands: bool, w: nat)
    requires |s.history| > 0 && s.history[Latest(s)].Some? && IsFinished(s.history[Latest(s)].value.status.phase)
    requires WorkerAt(s, w).Idle?
    ensures var r := Run(s, ReplaceAndClaim(Latest(s), spec, lands, w));
            ClaimedAt(r.history, |s.history| + 2) <==> lands
  {
    hide Apply, Run;
    var v := Latest(s);
    RunFour(s, Propose(v, spec, lands), Edit(spec.(approved := true)), Read(w, v + 2), Claim(w));
    AfterReplacement(s, spec, lands);
    AfterApproval(s, spec, lands, w);
  }

  /** The status a replaced plan has. */
  function ReplacedStatus(s: State, lands: bool): PlanStatus
    requires |s.history| > 0 && s.history[Latest(s)].Some?
  {
    if lands then EMPTY_STATUS else s.history[Latest(s)].value.status
  }

  lemma {:induction false} AfterReplacement(s: State, spec: PlanSpec, lands: bool)
    requires |s.history| > 0 && s.history[Latest(s)].Some? && IsFinished(s.history[Latest(s)].value.status.phase)
    ensures Apply(s, Propose(Latest(s), spec, lands))
         == s.(history := s.history + [Some(Plan(spec.(approved := false), ReplacedStatus(s, lands)))])
  {
  }

  lemma {:induction false} AfterApproval(s: State, spec: PlanSpec, lands: bool, w: nat)
    requires |s.history| > 0 && s.history[Latest(s)].Some? && IsFinished(s.history[Latest(s)].value.status.phase)
    requires WorkerAt(s, w).Idle?
    ensures var status := ReplacedStatus(s, lands);
            var s1 := s.(history := s.history + [Some(Plan(spec.(approved := false), status))]);
            var r := Apply(Apply(Apply(s1, Edit(spec.(approved := true))), Read(w, |s.history| + 1)), Claim(w));
            ClaimedAt(r.history, |s.history| + 2) <==> lands
  {
    var status := ReplacedStatus(s, lands);
    var plan := Plan(spec.(approved := true), status);
    var s1 := s.(history := s.history + [Some(Plan(spec.(approved := false), status))]);
    var s2 := s1.(history := s1.history + [Some(plan)]);
    assert Apply(s1, Edit(spec.(approved := true))) == s2;
    var s3 := s2.(workers := s.workers[w := Holding(|s.history| + 1, plan)]);
    assert Apply(s2, Read(w, |s.history| + 1)) == s3;
    hide Apply;
    AfterClaim(s3, w, |s.history| + 1, plan);
  }

  lemma {:induction false} AfterClaim(s: State, w: nat, v: nat, plan: Plan)
    requires WorkerAt(s, w) == Holding(v, plan) && v + 1 == |s.history| && s.history[v] == Some(plan)
    requires plan.spec.approved && (IsFinished(plan.status.phase) || plan.status.phase == Unset)
    ensures ClaimedAt(Apply(s, Claim(w)).history, v + 1) <==> plan.status.phase == Unset
  {
  }

  // ----- The finish that does not land -----

  /** A worker that is done records its results exactly when nobody has written the plan since its claim. */
  lemma {:induction false} FinishLandsIffUntouched(s: State, w: nat)
    requires Inv(s) && WorkerAt(s, w).Executing?
    requires |WorkerAt(s, w).results| == |WorkerAt(s, w).plan.spec.actions|
    ensures var s' := Apply(s, Finish(w));
            FinishedAt(s'.history, |s.history|) <==> WorkerAt(s, w).claim == Latest(s)
    ensures Apply(s, Finish(w)).history == s.history <==> WorkerAt(s, w).claim != Latest(s)
  {
    assert WorkerOk(s, s.workers[w]);
    if WorkerAt(s, w).claim == Latest(s) {
      FinishLands(s, w, WorkerAt(s, w).claim, WorkerAt(s, w).plan, WorkerAt(s, w).results);
    }
  }

  /** The stored plan is running and no worker holds a claim it could still finish. */
  ghost predicate IsStuck(s: State) {
    && |s.history| > 0
    && s.history[Latest(s)].Some? && s.history[Latest(s)].value.status.phase == Running
    && forall w :: w in s.workers && s.workers[w].Executing? ==> s.workers[w].claim != Latest(s)
  }

  lemma {:induction false} StuckWrite(s: State, n: Option<Plan>)
    requires Inv(s) && IsStuck(s) && IsEdit(s.history[Latest(s)], n)
    ensures IsStuck(s.(history := s.history + [n]))
  {
    hide IsHistory, ExecutionsOk, FinishesOk, ClaimsApart, Progress;
    forall w | w in s.workers && s.workers[w].Executing? ensures s.workers[w].claim != |s.history| {
      assert WorkerOk(s, s.workers[w]);
    }
  }

  /** Worker steps write nothing while the plan is stuck. */
  lemma {:induction false} StuckWorker(s: State, step: Step)
    requires Inv(s) && IsStuck(s) && !step.Delete? && !step.Edit? && !step.Propose?
    ensures IsStuck(Apply(s, step)) && Apply(s, step).history == s.history
  {
    hide IsHistory, ExecutionsOk, FinishesOk, ClaimsApart, Progress, ClaimedAt, FinishedAt;
    match step {
      case Read(_, _) =>
      case Claim(w) => if WorkerAt(s, w).Holding? { assert WorkerOk(s, s.workers[w]); }
      case Act(w, _) => hide WorkerOk;
      case Finish(w) => hide WorkerOk;
      case Crash(_) => hide WorkerOk;
    }
  }

  lemma {:induction false} StuckPropose(s: State, v: nat, spec: PlanSpec, lands: bool)
    requires IsStuck(s)
    ensures Apply(s, Propose(v, spec, lands)) == s
  {
  }

  lemma {:induction false} StuckEdit(s: State, spec: PlanSpec)
    requires Inv(s) && IsStuck(s)
    ensures IsStuck(Apply(s, Edit(spec)))
    ensures LastStatus(Apply(s, Edit(spec))) == LastStatus(s)
  {
    StuckWrite(s, Some(s.history[Latest(s)].value.(spec := spec)));
    hide Inv, IsStuck;
  }

  function LastStatus(s: State): (status: Option<PlanStatus>) {
    if |s.history| > 0 && s.history[Latest(s)].Some? then Some(s.history[Latest(s)].value.status) else None
  }

  lemma {:induction false} StuckStep(s: State, step: Step)
    requires Inv(s) && IsStuck(s) && !step.Delete?
    ensures IsStuck(Apply(s, step))
    ensures LastStatus(Apply(s, step)) == LastStatus(s)
  {
    hide Inv, Apply;
    if step.Propose? {
      StuckPropose(s, step.version, step.spec, step.statusLands);
    } else if step.Edit? {
      StuckEdit(s, step.spec);
    } else {
      StuckWorker(s, step);
    }
  }

  /** Running for ever: only a deletion ends it. Later reads see a running plan and leave it, a proposal
      does not replace it, and no finish lands. */
  lemma {:induction false} StuckForever(s: State, steps: seq<Step>)
    requires Inv(s) && IsStuck(s) && forall i :: 0 <= i < |steps| ==> !steps[i].Delete?
    ensures IsStuck(Run(s, steps))
    ensures LastStatus(Run(s, steps)) == LastStatus(s)
  {
    hide Inv, Apply;
    if steps != [] {
      var before := steps[..|steps| - 1];
      StuckForever(s, before);
      RunKeeps(s, before);
      RunNext(s, steps);
      StuckStep(Run(s, before), steps[|steps| - 1]);
    }
  }

  /** It takes one spec edit, or a crash, while the actions run. */
  lemma {:induction false} EditOrCrashSticks(s: State, w: nat, spec: PlanSpec)
    requires Inv(s) && WorkerAt(s, w).Executing? && WorkerAt(s, w).claim == Latest(s)
    ensures IsStuck(Apply(s, Edit(spec))) && IsStuck(Apply(s, Crash(w)))
  {
    assert WorkerOk(s, s.workers[w]);
    forall x | x in s.workers && s.workers[x].Executing? ensures s.workers[x].claim < |s.history| {
      assert WorkerOk(s, s.workers[x]);
    }
  }

  /** Such a run from the beginning: propose, approve, read, claim, and one more edit of the spec. */
  lemma {:induction false} StuckIsReachable(spec: PlanSpec, edited: PlanSpec)
    ensures var s := Run(INITIAL, [Propose(0, spec, false), Edit(spec.(approved := true)), Read(0, 2), Claim(0)]);
            Reachable(s) && IsStuck(Apply(s, Edit(edited)))
  {
    var steps := [Propose(0, spec, false), Edit(spec.(approved := true)), Read(0, 2), Claim(0)];
    var approved := Plan(spec.(approved := true), EMPTY_STATUS);
    RunFour(INITIAL, Propose(0, spec, false), Edit(spec.(approved := true)), Read(0, 2), Claim(0));
    hide Run;
    var s1 := Apply(INITIAL, Propose(0, spec, false));
    assert s1 == INITIAL.(history := [None, Some(Plan(spec, EMPTY_STATUS))]);
    var s2 := Apply(s1, Edit(spec.(approved := true)));
    assert s2 == INITIAL.(history := s1.history + [Some(approved)]);
    var s3 := Apply(s2, Read(0, 2));
    assert s3 == s2.(workers := map[0 := Holding(2, approved)]);
    var s4 := Apply(s3, Claim(0));
    assert WorkerAt(s4, 0).Executing? && WorkerAt(s4, 0).claim == Latest(s4);
    assert s4 == Run(INITIAL, steps);
    assert Reachable(s4);
    ReachableHolds(s4);
    EditOrCrashSticks(s4, 0, edited);
  }
}
