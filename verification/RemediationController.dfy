/** The two controllers that touch remediation plans, step by step, with whatever else happens between
    their calls to the API server. */
module RemediationController {
  import opened Collections
  import opened RemediationPlans
  import opened RemediationProtocol
  import opened RemediationTheorems

  predicate IsBy(step: Step, w: nat) {
    match step
    case Read(x, _) => x == w
    case Claim(x) => x == w
    case Act(x, _) => x == w
    case Finish(x) => x == w
    case Crash(x) => x == w
    case _ => false
  }

  /** Steps of everyone but w. */
  predicate IsAside(steps: seq<Step>, w: nat) {
    forall i :: 0 <= i < |steps| ==> !IsBy(steps[i], w)
  }

  lemma {:induction false} AsideKeepsWorker(s: State, steps: seq<Step>, w: nat)
    requires |s.history| > 0 && IsAside(steps, w)
    ensures WorkerAt(Run(s, steps), w) == WorkerAt(s, w)
  {
    if steps != [] {
      AsideKeepsWorker(s, steps[..|steps| - 1], w);
    }
  }

  lemma {:induction false} RunOne(s: State, step: Step)
    requires |s.history| > 0
    ensures Run(s, [step]) == Apply(s, step)
  {
    hide Apply;
    assert [step][..0] == [];
    assert Run(s, []) == s;
  }

  /** What happens around one reconcile: the version its read returns, the steps of others between its API
      calls, and the outcome of each action it runs. */
  datatype Schedule = Schedule(read: nat, beforeClaim: seq<Step>, during: nat -> seq<Step>, outcome: nat -> bool,
                               beforeFinish: seq<Step>)

  ghost predicate IsScheduleFor(sched: Schedule, w: nat) {
    && IsAside(sched.beforeClaim, w) && IsAside(sched.beforeFinish, w)
    && forall i :: IsAside(sched.during(i), w)
  }

  datatype Outcome = NotFound | NotRunnable | Conflict | Lost | Finished(phase: Phase)

  /** The acting part of a run: before each action others may step. */
  function ActTrace(w: nat, sched: Schedule, n: nat): seq<Step> {
    if n == 0 then [] else ActTrace(w, sched, n - 1) + sched.during(n - 1) + [Act(w, sched.outcome(n - 1))]
  }

  /** Which outcome a reconcile has: it finds no plan; or one that is unapproved, running or finished; or one
      that was written before its claim; or it claims it, and its finish is lost exactly when the plan was
      written once more since. */
  ghost predicate Ends(s: State, w: nat, sched: Schedule, outcome: Outcome, trace: seq<Step>)
    requires |s.history| > 0
  {
    var v := sched.read;
    if v >= |s.history| || s.history[v].None? then outcome.NotFound?
    else
      var plan := s.history[v].value;
      var runnable := plan.spec.approved && (plan.status.phase.Unset? || plan.status.phase.PendingApproval?);
      var atClaim := Run(s, [Read(w, v)] + sched.beforeClaim).history;
      if !runnable then outcome.NotRunnable?
      else if |atClaim| != v + 1 then outcome.Conflict?
      else
        |trace| > 0
        && var atFinish := Run(s, trace[..|trace| - 1]).history;
           if |atFinish| != v + 2 then outcome.Lost? else outcome.Finished?
  }

  /** What a proposal makes of the stored versions h, having read the plan existing as version read. It creates
      a plan if it read none and there is none; it puts an unapproved one in place of a plan it read without
      phase or finished and nobody wrote since; and otherwise it changes nothing. */
  ghost predicate IsProposed(h: seq<Option<Plan>>, existing: Option<Plan>, read: nat, analysisRef: string,
                             autoApprove: bool, planned: seq<Action>, statusLands: bool, h': seq<Option<Plan>>)
    requires |h| > 0
  {
    if existing.None? then
      if h[|h| - 1].None? then
        var phase := if statusLands then PendingApproval else Unset;
        h' == h + [Some(Plan(PlanSpec(analysisRef, autoApprove, planned), PlanStatus(phase, [])))]
      else h' == h
    else
      var phase := existing.value.status.phase;
      if (phase.Unset? || phase.Completed? || phase.Failed?) && read == |h| - 1 then
        var status := if statusLands then PlanStatus(Unset, []) else existing.value.status;
        h' == h + [Some(Plan(PlanSpec(analysisRef, false, planned), status))]
      else h' == h
  }

  lemma {:induction false} NotFoundEnds(s: State, w: nat, sched: Schedule, trace: seq<Step>)
    requires |s.history| > 0 && (sched.read >= |s.history| || s.history[sched.read].None?)
    ensures Ends(s, w, sched, NotFound, trace)
  {
  }

  lemma {:induction false} ClaimEnds(s: State, w: nat, sched: Schedule, outcome: Outcome, trace: seq<Step>)
    requires |s.history| > 0 && sched.read < |s.history| && s.history[sched.read].Some?
    requires var plan := s.history[sched.read].value;
             var atClaim := Run(s, [Read(w, sched.read)] + sched.beforeClaim).history;
             || (outcome.NotRunnable? && !MayClaim(plan))
             || (outcome.Conflict? && MayClaim(plan) && |atClaim| != sched.read + 1)
    ensures Ends(s, w, sched, outcome, trace)
  {
    hide Run;
  }

  lemma {:induction false} FinishEnds(s: State, w: nat, sched: Schedule, outcome: Outcome, trace: seq<Step>)
    requires |s.history| > 0 && sched.read < |s.history| && s.history[sched.read].Some?
    requires MayClaim(s.history[sched.read].value) && |trace| > 0
    requires |Run(s, [Read(w, sched.read)] + sched.beforeClaim).history| == sched.read + 1
    requires var atFinish := Run(s, trace[..|trace| - 1]).history;
             (outcome.Lost? && |atFinish| != sched.read + 2) || (outcome.Finished? && |atFinish| == sched.read + 2)
    ensures Ends(s, w, sched, outcome, trace)
  {
    hide Run;
  }

  class Cluster {
    var state: State

    /** Everything that is proved of reachable states holds before and after each call of a controller. */
    ghost predicate Valid()
      reads this
    {
      Reachable(state)
    }

    constructor ()
      ensures Valid() && state == INITIAL
    {
      state := INITIAL;
      assert INITIAL == Run(INITIAL, []);
    }

    /** Others step. */
    method Interfere(steps: seq<Step>, ghost before: State, ghost trace: seq<Step>)
      requires |before.history| > 0 && state == Run(before, trace)
      modifies this
      ensures state == Run(before, trace + steps)
    {
      RunConcat(before, trace, steps);
      state := Run(state, steps);
    }

    /** One reconcile of a worker, whatever happens meanwhile: it is the protocol's read, claim, one act per
        action in spec order and finish, each at most once and in that order. */
    method Reconcile(w: nat, sched: Schedule) returns (outcome: Outcome, ghost trace: seq<Step>)
      requires Valid() && WorkerAt(state, w).Idle? && IsScheduleFor(sched, w)
      modifies this
      ensures Valid() && |old(state).history| > 0 && |state.history| > 0 && state == Run(old(state), trace)
      ensures Ends(old(state), w, sched, outcome, trace)
      ensures outcome.NotFound? ==> trace == [Read(w, sched.read)]
      ensures outcome.NotRunnable? || outcome.Conflict? ==>
                trace == [Read(w, sched.read)] + sched.beforeClaim + [Claim(w)]
      ensures outcome.Lost? || outcome.Finished? ==>
                && sched.read < |old(state.history)| && old(state).history[sched.read].Some?
                && trace == [Read(w, sched.read)] + sched.beforeClaim + [Claim(w)]
                            + ActTrace(w, sched, |old(state).history[sched.read].value.spec.actions|)
                            + sched.beforeFinish + [Finish(w)]
      ensures outcome.Finished? ==>
                && FinishedAt(state.history, |state.history| - 1)
                && state.history[|state.history| - 1].value.status.phase == outcome.phase
      ensures WorkerAt(state, w).Idle?
    {
      hide Run, Apply, Reachable, Inv, FinishedAt, Ends;
      ghost var before := state;
      ReachableExtends(before, []);
      trace := [Read(w, sched.read)];
      RunOne(before, Read(w, sched.read));
      var plan := Get(w, sched.read);
      if plan.None? {
        ReachableExtends(before, trace);
        NotFoundEnds(before, w, sched, trace);
        return NotFound, trace;
      }
      var mine := plan.value;
      Interfere(sched.beforeClaim, before, trace);
      AsideKeepsWorker(Run(before, trace), sched.beforeClaim, w);
      RunConcat(before, trace, sched.beforeClaim);
      trace := trace + sched.beforeClaim;
      RunGrows(before, trace);
      RunConcat(before, trace, [Claim(w)]);
      RunOne(state, Claim(w));
      if !mine.spec.approved
         || mine.status.phase == Completed || mine.status.phase == Failed || mine.status.phase == Running {
        LeaveIs(state, w, sched.read, mine);
        state := state.(workers := state.workers[w := Idle]);
        trace := trace + [Claim(w)];
        ReachableExtends(before, trace);
        ClaimEnds(before, w, sched, NotRunnable, trace);
        return NotRunnable, trace;
      }
      mine := mine.(status := mine.status.(phase := Running));
      var claim := |state.history|;
      ClaimIs(state, w, sched.read, plan.value);
      var written := StatusUpdate(state.history, sched.read, mine.status);
      trace := trace + [Claim(w)];
      if written.None? {
        state := state.(workers := state.workers[w := Idle]);
        ReachableExtends(before, trace);
        ClaimEnds(before, w, sched, Conflict, trace);
        return Conflict, trace;
      }
      state := state.(history := written.value, workers := state.workers[w := Executing(claim, mine, [])]);
      outcome, trace := ExecuteAndFinish(w, sched, claim, mine, before, trace);
      FinishEnds(before, w, sched, outcome, trace);
    }

    /** The rest of a reconcile that has claimed its plan. */
    method ExecuteAndFinish(w: nat, sched: Schedule, claim: nat, plan: Plan, ghost before: State,
                            ghost claimed: seq<Step>)
      returns (outcome: Outcome, ghost trace: seq<Step>)
      requires |before.history| > 0 && Reachable(before) && state == Run(before, claimed) && IsScheduleFor(sched, w)
      requires WorkerAt(state, w) == Executing(claim, plan, [])
      modifies this
      ensures Valid() && |state.history| > 0 && state == Run(before, trace) && WorkerAt(state, w).Idle?
      ensures trace == claimed + ActTrace(w, sched, |plan.spec.actions|) + sched.beforeFinish + [Finish(w)]
      ensures var atFinish := Run(before, trace[..|trace| - 1]).history;
              if |atFinish| != claim + 1 then outcome.Lost? else outcome.Finished?
      ensures outcome.Finished? ==>
                && FinishedAt(state.history, |state.history| - 1)
                && state.history[|state.history| - 1].value.status.phase == outcome.phase
    {
      hide Run, Apply, Reachable, Inv, FinishedAt;
      var results, allOK := Execute(w, sched, claim, plan, before, claimed);
      trace := claimed + ActTrace(w, sched, |plan.spec.actions|);
      Interfere(sched.beforeFinish, before, trace);
      AsideKeepsWorker(Run(before, trace), sched.beforeFinish, w);
      RunConcat(before, trace, sched.beforeFinish);
      trace := trace + sched.beforeFinish;
      ReachableExtends(before, trace);
      ReachableHolds(state);
      FinishLandsIffUntouched(state, w);
      ghost var atFinish := trace;
      RunConcat(before, trace, [Finish(w)]);
      RunOne(state, Finish(w));
      FinishIs(state, w, claim, plan, results);
      var phase := if allOK then Completed else Failed;
      var done := StatusUpdate(state.history, claim, PlanStatus(phase, results));
      trace := trace + [Finish(w)];
      assert trace[..|trace| - 1] == atFinish;
      ReachableExtends(before, trace);
      if done.None? {
        state := state.(workers := state.workers[w := Idle]);
        return Lost, trace;
      }
      state := state.(history := done.value, workers := state.workers[w := Idle]);
      return Finished(phase), trace;
    }

    /** A read that may return any version the object ever had. */
    method Get(w: nat, version: nat) returns (plan: Option<Plan>)
      requires |state.history| > 0 && WorkerAt(state, w).Idle?
      modifies this
      ensures state == Apply(old(state), Read(w, version))
      ensures plan.None? ==>
                state == old(state) && (version >= |old(state).history| || old(state).history[version].None?)
      ensures plan.Some? ==> WorkerAt(state, w) == Holding(version, plan.value)
      ensures plan.Some? ==> version < |old(state).history| && old(state).history[version] == plan
    {
      if version >= |state.history| || state.history[version].None? {
        return None;
      }
      plan := state.history[version];
      state := state.(workers := state.workers[w := Holding(version, plan.value)]);
    }

    /** The action loop: results grow by one entry per action; a skipped action is recorded and not run. */
    method Execute(w: nat, sched: Schedule, claim: nat, plan: Plan, ghost before: State, ghost trace: seq<Step>)
      returns (results: seq<ActionResult>, allOK: bool)
      requires |before.history| > 0 && state == Run(before, trace) && IsScheduleFor(sched, w)
      requires WorkerAt(state, w) == Executing(claim, plan, [])
      modifies this
      ensures |state.history| > 0
      ensures state == Run(before, trace + ActTrace(w, sched, |plan.spec.actions|))
      ensures WorkerAt(state, w) == Executing(claim, plan, results) && |results| == |plan.spec.actions|
      ensures allOK <==> FinalPhase(results) == Completed
    {
      hide Run, Apply;
      results, allOK := [], true;
      assert trace + ActTrace(w, sched, 0) == trace;
      for i := 0 to |plan.spec.actions|
        invariant state == Run(before, trace + ActTrace(w, sched, i))
        invariant WorkerAt(state, w) == Executing(claim, plan, results) && |results| == i
        invariant allOK <==> FinalPhase(results) == Completed
      {
        var action := plan.spec.actions[i];
        ghost var soFar := trace + ActTrace(w, sched, i);
        Interfere(sched.during(i), before, soFar);
        AsideKeepsWorker(Run(before, soFar), sched.during(i), w);
        RunConcat(before, soFar, sched.during(i));
        RunConcat(before, soFar + sched.during(i), [Act(w, sched.outcome(i))]);
        RunOne(state, Act(w, sched.outcome(i)));
        assert trace + ActTrace(w, sched, i + 1) == soFar + sched.during(i) + [Act(w, sched.outcome(i))];
        ActIs(state, w, claim, plan, results, sched.outcome(i));
        if action.skip {
          results := results + [ActionResult(action.id, Skipped)];
          state := state.(workers := state.workers[w := Executing(claim, plan, results)]);
          continue;
        }
        var ok := sched.outcome(i);
        state := state.(executed := state.executed + [Execution(claim, i, action, ok)]);
        results := results + [ActionResult(action.id, if ok then Succeeded else FailedResult)];
        state := state.(workers := state.workers[w := Executing(claim, plan, results)]);
        if !ok {
          allOK := false;
        }
      }
    }

    /** Turns the AI's actions into a plan: filtered by risk, created if the read finds none, put in place of
        a finished or phaseless one, and otherwise dropped. The read may be stale by the time of the write. An
        existing plan is changed only if it is finished or has no phase, and is left unapproved. */
    method CreateRemediationPlan(analysisRef: string, maxRisk: string, autoApprove: bool, actions: seq<AIAction>,
                                 read: nat, meanwhile: seq<Step>, statusLands: bool)
      returns (planned: seq<Action>)
      requires Valid() && read < |state.history|
      modifies this
      ensures Valid() && |old(state).history| > 0 && |state.history| > 0
      ensures IsPlanOf(actions, maxRisk, planned)
      ensures planned == [] ==> state == old(state)
      ensures var spec := PlanSpec(analysisRef, autoApprove, planned);
              planned != [] ==> state == Run(old(state), meanwhile + [Propose(read, spec, statusLands)])
      ensures planned != [] ==>
                && |Run(old(state), meanwhile).history| > 0
                && IsProposed(Run(old(state), meanwhile).history, old(state).history[read], read, analysisRef,
                              autoApprove, planned, statusLands, state.history)
    {
      hide Run, Apply, ArePlanActions, IsPlanOf, Reachable;
      ReachableExtends(state, []);
      planned := PlanActions(actions, maxRisk);
      if |planned| == 0 {
        return;
      }
      var spec := PlanSpec(analysisRef, autoApprove, planned);
      ghost var before := state;
      var existing := state.history[read];
      RunGrows(before, meanwhile);
      state := Run(state, meanwhile);
      ReachableExtends(before, meanwhile + [Propose(read, spec, statusLands)]);
      RunConcat(before, meanwhile, [Propose(read, spec, statusLands)]);
      RunOne(state, Propose(read, spec, statusLands));
      assert state.history[read] == existing;
      ProposeIs(state, read, spec, statusLands);
      if existing.Some? {
        var phase := existing.value.status.phase;
        if phase == Completed || phase == Failed || phase == Unset {
          spec := spec.(approved := false);
          if read == |state.history| - 1 {
            var status := if statusLands then EMPTY_STATUS else existing.value.status;
            state := state.(history := state.history + [Some(Plan(spec, status))]);
          }
        }
        return;
      }
      if state.history[|state.history| - 1].None? {
        var status := if statusLands then PlanStatus(PendingApproval, []) else EMPTY_STATUS;
        state := state.(history := state.history + [Some(Plan(spec, status))]);
      }
    }
  }

  // The steps a worker takes, in terms of its copy of the plan.

  lemma {:induction false} LeaveIs(s: State, w: nat, v: nat, plan: Plan)
    requires |s.history| > 0 && WorkerAt(s, w) == Holding(v, plan) && !MayClaim(plan)
    ensures Apply(s, Claim(w)) == s.(workers := s.workers[w := Idle])
  {
  }

  lemma {:induction false} ClaimIs(s: State, w: nat, v: nat, plan: Plan)
    requires |s.history| > 0 && WorkerAt(s, w) == Holding(v, plan) && MayClaim(plan)
    ensures var running := plan.(status := plan.status.(phase := Running));
            var written := StatusUpdate(s.history, v, running.status);
            Apply(s, Claim(w))
            == if written.None? then s.(workers := s.workers[w := Idle])
               else s.(history := written.value, workers := s.workers[w := Executing(|s.history|, running, [])])
  {
  }

  lemma {:induction false} ActIs(s: State, w: nat, claim: nat, plan: Plan, results: seq<ActionResult>, ok: bool)
    requires |s.history| > 0 && WorkerAt(s, w) == Executing(claim, plan, results) && |results| < |plan.spec.actions|
    ensures var a := plan.spec.actions[|results|];
            var r := ActionResult(a.id, if a.skip then Skipped else if ok then Succeeded else FailedResult);
            && Apply(s, Act(w, ok))
               == State(s.history, s.workers[w := Executing(claim, plan, results + [r])],
                        s.executed + if a.skip then [] else [Execution(claim, |results|, a, ok)])
            && (FinalPhase(results + [r]) == Completed <==> FinalPhase(results) == Completed && (a.skip || ok))
  {
    assert s.executed + [] == s.executed;
    var a := plan.spec.actions[|results|];
    var r := ActionResult(a.id, if a.skip then Skipped else if ok then Succeeded else FailedResult);
    assert (results + [r])[|results|] == r;
    if x :| x in results && x.status == FailedResult {
      assert x in results + [r];
    }
  }

  lemma {:induction false} FinishIs(s: State, w: nat, claim: nat, plan: Plan, results: seq<ActionResult>)
    requires |s.history| > 0 && WorkerAt(s, w) == Executing(claim, plan, results) && |results| == |plan.spec.actions|
    ensures var written := StatusUpdate(s.history, claim, PlanStatus(FinalPhase(results), results));
            Apply(s, Finish(w))
            == if written.None? then s.(workers := s.workers[w := Idle])
               else s.(history := written.value, workers := s.workers[w := Idle])
  {
  }

  lemma {:induction false} ProposeIs(s: State, v: nat, spec: PlanSpec, lands: bool)
    requires |s.history| > 0
    ensures Apply(s, Propose(v, spec, lands)) == ProposeStep(s, v, spec, lands)
  {
  }
}
