/** The life of a remediation plan under concurrent workers: reads that may be stale, a claim and a finish
    by optimistic writes, crashes, user edits, deletion, and replacement by the analysis controller. */
module RemediationProtocol {
  import opened Collections
  import opened RemediationPlans

  /** A worker has nothing, a copy of a version it read, or a claim it is executing. */
  datatype Worker =
    | Idle
    | Holding(version: nat, plan: Plan)
    | Executing(claim: nat, plan: Plan, results: seq<ActionResult>)

  /** An action that was run against the cluster under a claim, and whether it succeeded. */
  datatype Execution = Execution(claim: nat, index: nat, action: Action, ok: bool)

  /** history[v] is the stored object after write v, None while there is none: the version is the
      resource version, which no later object reuses. */
  datatype State = State(history: seq<Option<Plan>>, workers: map<nat, Worker>, executed: seq<Execution>)

  const INITIAL := State([None], map[], [])

  function Latest(s: State): nat
    requires |s.history| > 0
  {
    |s.history| - 1
  }

  function WorkerAt(s: State, w: nat): Worker {
    if w in s.workers then s.workers[w] else Idle
  }

  datatype Step =
    | Read(w: nat, version: nat)
    | Claim(w: nat)
    | Act(w: nat, ok: bool)
    | Finish(w: nat)
    | Crash(w: nat)
    | Edit(spec: PlanSpec)
    | Delete
    | Propose(version: nat, spec: PlanSpec, statusLands: bool)

  /** Approved, and neither running nor finished. */
  predicate MayClaim(p: Plan) {
    p.spec.approved && p.status.phase != Completed && p.status.phase != Failed && p.status.phase != Running
  }

  function FinalPhase(results: seq<ActionResult>): Phase {
    if exists r :: r in results && r.status == FailedResult then Failed else Completed
  }

  /** A write through the status subresource: it lands only on the version it was made from, and keeps the
      stored spec. */
  function StatusUpdate(h: seq<Option<Plan>>, version: nat, status: PlanStatus): Option<seq<Option<Plan>>> {
    if |h| > 0 && version == |h| - 1 && h[version].Some?
    then Some(h + [Some(h[version].value.(status := status))])
    else None
  }

  /** What the worker does next with its copy. */
  function ClaimStep(s: State, w: nat): State {
    match WorkerAt(s, w)
    case Holding(v, plan) =>
      if !MayClaim(plan) then s.(workers := s.workers[w := Idle])
      else
        var running := plan.(status := plan.status.(phase := Running));
        (match StatusUpdate(s.history, v, running.status)
         case Some(h) => s.(history := h, workers := s.workers[w := Executing(|s.history|, running, [])])
         case None => s.(workers := s.workers[w := Idle]))
    case _ => s
  }

  function ActStep(s: State, w: nat, ok: bool): State {
    match WorkerAt(s, w)
    case Executing(c, plan, results) =>
      if |results| >= |plan.spec.actions| then s
      else
        var a := plan.spec.actions[|results|];
        if a.skip then
          s.(workers := s.workers[w := Executing(c, plan, results + [ActionResult(a.id, Skipped)])])
        else
          var r := ActionResult(a.id, if ok then Succeeded else FailedResult);
          State(s.history,
                s.workers[w := Executing(c, plan, results + [r])],
                s.executed + [Execution(c, |results|, a, ok)])
    case _ => s
  }

  function FinishStep(s: State, w: nat): State {
    match WorkerAt(s, w)
    case Executing(c, plan, results) =>
      if |results| < |plan.spec.actions| then s
      else
        (match StatusUpdate(s.history, c, PlanStatus(FinalPhase(results), results))
         case Some(h) => s.(history := h, workers := s.workers[w := Idle])
         case None => s.(workers := s.workers[w := Idle]))
    case _ => s
  }

  /** The analysis controller's proposal: it creates the plan if the read found none, replaces one that is
      finished or has no phase, and leaves any other alone. A replacement is unapproved and is a write of
      the spec made from the version read; statusLands says whether the status it carries is stored too. */
  function ProposeStep(s: State, version: nat, spec: PlanSpec, statusLands: bool): State {
    if version >= |s.history| then s
    else
      match s.history[version]
      case Some(existing) =>
        if IsFinished(existing.status.phase) || existing.status.phase == Unset then
          if version == Latest(s) then
            var status := if statusLands then EMPTY_STATUS else existing.status;
            s.(history := s.history + [Some(Plan(spec.(approved := false), status))])
          else s
        else s
      case None =>
        if s.history[Latest(s)].None? then
          var status := if statusLands then PlanStatus(PendingApproval, []) else EMPTY_STATUS;
          s.(history := s.history + [Some(Plan(spec, status))])
        else s
  }

  function Apply(s: State, step: Step): State
    requires |s.history| > 0
  {
    match step
    case Read(w, v) =>
      if WorkerAt(s, w).Idle? && v < |s.history| && s.history[v].Some?
      then s.(workers := s.workers[w := Holding(v, s.history[v].value)])
      else s
    case Claim(w) => ClaimStep(s, w)
    case Act(w, ok) => ActStep(s, w, ok)
    case Finish(w) => FinishStep(s, w)
    case Crash(w) => s.(workers := s.workers[w := Idle])
    case Edit(spec) =>
      if s.history[Latest(s)].Some?
      then s.(history := s.history + [Some(s.history[Latest(s)].value.(spec := spec))])
      else s
    case Delete => if s.history[Latest(s)].Some? then s.(history := s.history + [None]) else s
    case Propose(v, spec, lands) => ProposeStep(s, v, spec, lands)
  }

  function Run(s: State, steps: seq<Step>): (r: State)
    requires |s.history| > 0
    ensures |r.history| > 0
  {
    if steps == [] then s else
      var r := Run(s, steps[..|steps| - 1]);
      ApplyGrows(r, steps[|steps| - 1]);
      Apply(r, steps[|steps| - 1])
  }

  lemma {:induction false} RunNext(s: State, steps: seq<Step>)
    requires |s.history| > 0 && steps != []
    ensures Run(s, steps) == Apply(Run(s, steps[..|steps| - 1]), steps[|steps| - 1])
  {
  }

  /** Versions are only ever added. */
  lemma {:induction false} ApplyGrows(s: State, step: Step)
    requires |s.history| > 0
    ensures s.history <= Apply(s, step).history
  {
  }

  lemma {:induction false} RunGrows(s: State, steps: seq<Step>)
    requires |s.history| > 0
    ensures s.history <= Run(s, steps).history
  {
    if steps != [] {
      RunGrows(s, steps[..|steps| - 1]);
      ApplyGrows(Run(s, steps[..|steps| - 1]), steps[|steps| - 1]);
      hide Apply;
    }
  }

  lemma {:induction false} RunConcat(s: State, a: seq<Step>, b: seq<Step>)
    requires |s.history| > 0
    ensures Run(s, a + b) == Run(Run(s, a), b)
  {
    hide Apply;
    if b == [] {
      assert a + b == a;
    } else {
      assert (a + b)[..|a + b| - 1] == a + b[..|b| - 1];
      RunConcat(s, a, b[..|b| - 1]);
    }
  }

  // ----- How one version follows another -----

  /** The phase became running by a claim of an approved plan, whose spec it left alone. */
  ghost predicate IsClaim(p: Option<Plan>, n: Option<Plan>) {
    && p.Some? && n.Some? && p.value.spec == n.value.spec && p.value.spec.approved
    && (p.value.status.phase == Unset || p.value.status.phase == PendingApproval)
    && n.value.status.phase == Running
  }

  /** results records the first |results| actions in order: matching ids, skipped exactly where asked. */
  ghost predicate Records(actions: seq<Action>, results: seq<ActionResult>) {
    && |results| <= |actions|
    && forall i :: 0 <= i < |results| ==>
         results[i].id == actions[i].id && (results[i].status == Skipped <==> actions[i].skip)
  }

  /** A running plan was finished: one result per action, and completed exactly when none failed. */
  ghost predicate IsFinish(p: Option<Plan>, n: Option<Plan>) {
    && p.Some? && n.Some? && p.value.spec == n.value.spec && p.value.status.phase == Running
    && |n.value.status.results| == |p.value.spec.actions| && Records(p.value.spec.actions, n.value.status.results)
    && n.value.status.phase == FinalPhase(n.value.status.results)
  }

  /** The spec was written and the status kept. */
  ghost predicate IsEdit(p: Option<Plan>, n: Option<Plan>) {
    p.Some? && n.Some? && p.value.status == n.value.status
  }

  /** A finished plan was replaced by an unapproved one and its status was emptied. */
  ghost predicate IsReset(p: Option<Plan>, n: Option<Plan>) {
    && p.Some? && n.Some? && !n.value.spec.approved && n.value.status == EMPTY_STATUS
    && IsFinished(p.value.status.phase)
  }

  ghost predicate IsCreation(p: Option<Plan>, n: Option<Plan>) {
    && p.None? && n.Some? && n.value.status.results == []
    && (n.value.status.phase == Unset || n.value.status.phase == PendingApproval)
  }

  /** A plan without a phase was replaced, and its status emptied. */
  ghost predicate IsRenewal(p: Option<Plan>, n: Option<Plan>) {
    && p.Some? && n.Some? && !n.value.spec.approved && n.value.status == EMPTY_STATUS && p.value.status.phase == Unset
  }

  ghost predicate Legal(p: Option<Plan>, n: Option<Plan>) {
    IsClaim(p, n) || IsFinish(p, n) || IsEdit(p, n) || IsReset(p, n) || IsRenewal(p, n) || IsCreation(p, n) || n.None?
  }

  ghost predicate IsHistory(h: seq<Option<Plan>>) {
    && |h| > 0 && h[0].None?
    && forall i :: 0 < i < |h| ==> Legal(h[i - 1], h[i])
  }

  ghost predicate ClaimedAt(h: seq<Option<Plan>>, c: nat) {
    0 < c < |h| && IsClaim(h[c - 1], h[c])
  }

  ghost predicate FinishedAt(h: seq<Option<Plan>>, f: nat) {
    0 < f < |h| && IsFinish(h[f - 1], h[f])
  }

  // ----- What holds of every reachable state -----

  /** An execution belongs to a claim: the action is a non-skipped one of the very spec that was claimed. */
  ghost predicate IsOfClaim(h: seq<Option<Plan>>, e: Execution) {
    && ClaimedAt(h, e.claim)
    && e.index < |h[e.claim].value.spec.actions|
    && e.action == h[e.claim].value.spec.actions[e.index]
    && !e.action.skip
  }

  /** The first |results| actions of a claim have been dealt with: each non-skipped one was run, with the
      recorded outcome, and no later one was. */
  ghost predicate Progress(executed: seq<Execution>, claim: nat, actions: seq<Action>, results: seq<ActionResult>) {
    && Records(actions, results)
    && (forall e :: e in executed && e.claim == claim ==> e.index < |results|)
    && (forall i :: 0 <= i < |results| && !actions[i].skip ==>
          Execution(claim, i, actions[i], results[i].status == Succeeded) in executed)
  }

  ghost predicate WorkerOk(s: State, k: Worker) {
    match k
    case Idle => true
    case Holding(v, plan) => v < |s.history| && s.history[v] == Some(plan)
    case Executing(c, plan, results) =>
      && ClaimedAt(s.history, c) && s.history[c] == Some(plan) && !FinishedAt(s.history, c + 1)
      && Progress(s.executed, c, plan.spec.actions, results)
  }

  ghost predicate ExecutionsOk(s: State) {
    && (forall e :: e in s.executed ==> IsOfClaim(s.history, e))
    && (forall i, j :: 0 <= i < j < |s.executed| ==>
          s.executed[i].claim != s.executed[j].claim || s.executed[i].index != s.executed[j].index)
  }

  /** A finished version follows its claim directly, and what it records was run. */
  ghost predicate FinishesOk(s: State) {
    forall f: nat :: FinishedAt(s.history, f) ==>
      && ClaimedAt(s.history, f - 1)
      && Progress(s.executed, f - 1, s.history[f].value.spec.actions, s.history[f].value.status.results)
  }

  ghost predicate ClaimsApart(s: State) {
    forall w, w' :: w in s.workers && w' in s.workers && w != w' && s.workers[w].Executing? && s.workers[w'].Executing?
                    ==> s.workers[w].claim != s.workers[w'].claim
  }

  ghost predicate Inv(s: State) {
    && IsHistory(s.history)
    && (forall w :: w in s.workers ==> WorkerOk(s, s.workers[w]))
    && ClaimsApart(s)
    && ExecutionsOk(s)
    && FinishesOk(s)
  }

  lemma {:induction false} InitialHolds()
    ensures Inv(INITIAL)
  {
  }

  /** A write that is neither a claim nor a finish keeps everything. */
  lemma {:induction false} OtherWriteKeeps(s: State, n: Option<Plan>)
    requires Inv(s) && Legal(s.history[Latest(s)], n)
    requires !IsClaim(s.history[Latest(s)], n) && !IsFinish(s.history[Latest(s)], n)
    ensures Inv(s.(history := s.history + [n]))
  {
    hide IsClaim, IsFinish, IsEdit, IsReset, IsRenewal, IsCreation, Progress;
    var s' := s.(history := s.history + [n]);
    forall w | w in s.workers ensures WorkerOk(s', s'.workers[w]) {
      assert WorkerOk(s, s.workers[w]);
    }
    forall e | e in s.executed ensures IsOfClaim(s'.history, e) {
      assert IsOfClaim(s.history, e);
    }
    forall f: nat | FinishedAt(s'.history, f) ensures FinishedAt(s.history, f) {
    }
  }

  lemma {:induction false} ReadKeeps(s: State, w: nat, v: nat)
    requires Inv(s)
    ensures Inv(Apply(s, Read(w, v)))
  {
    hide IsClaim, IsFinish, Legal, Progress;
    var s' := Apply(s, Read(w, v));
    forall x | x in s'.workers ensures WorkerOk(s', s'.workers[x]) {
      if x in s.workers { assert WorkerOk(s, s.workers[x]); }
    }
  }

  lemma {:induction false} IdleKeeps(s: State, w: nat)
    requires Inv(s)
    ensures Inv(s.(workers := s.workers[w := Idle]))
  {
    hide IsClaim, IsFinish, Legal, Progress;
    var s' := s.(workers := s.workers[w := Idle]);
    forall x | x in s'.workers ensures WorkerOk(s', s'.workers[x]) {
      if x in s.workers { assert WorkerOk(s, s.workers[x]); }
    }
  }

  lemma {:induction false} ClaimKeeps(s: State, w: nat)
    requires Inv(s)
    ensures Inv(ClaimStep(s, w))
  {
    match WorkerAt(s, w) {
      case Idle =>
      case Executing(_, _, _) =>
      case Holding(v, plan) =>
        assert WorkerOk(s, s.workers[w]);
        if MayClaim(plan) && v == Latest(s) {
          ClaimLands(s, w, plan);
        } else {
          IdleKeeps(s, w);
        }
    }
  }

  lemma {:induction false} ClaimLands(s: State, w: nat, plan: Plan)
    requires Inv(s) && s.history[Latest(s)] == Some(plan) && MayClaim(plan)
    ensures var running := plan.(status := plan.status.(phase := Running));
            Inv(State(s.history + [Some(running)], s.workers[w := Executing(|s.history|, running, [])], s.executed))
  {
    var running := plan.(status := plan.status.(phase := Running));
    var n := Some(running);
    var c := |s.history|;
    var s' := State(s.history + [n], s.workers[w := Executing(c, running, [])], s.executed);
    assert IsClaim(s.history[Latest(s)], n) && !IsFinish(s.history[Latest(s)], n);
    hide IsClaim, IsFinish, IsEdit, IsReset, IsRenewal, IsCreation;
    forall e | e in s.executed ensures IsOfClaim(s'.history, e) && e.claim < c {
      assert IsOfClaim(s.history, e);
    }
    forall x | x in s'.workers ensures WorkerOk(s', s'.workers[x]) {
      if x != w {
        assert WorkerOk(s, s.workers[x]);
      }
    }
    forall f: nat | FinishedAt(s'.history, f) ensures FinishedAt(s.history, f) {
    }
  }

  lemma {:induction false} ActKeeps(s: State, w: nat, ok: bool)
    requires Inv(s)
    ensures Inv(ActStep(s, w, ok))
  {
    match WorkerAt(s, w) {
      case Idle =>
      case Holding(_, _) =>
      case Executing(c, plan, results) =>
        assert WorkerOk(s, s.workers[w]);
        if |results| < |plan.spec.actions| {
          if plan.spec.actions[|results|].skip {
            SkipKeeps(s, w, c, plan, results);
          } else {
            ExecuteKeeps(s, w, c, plan, results, ok);
          }
        }
    }
  }

  lemma {:induction false} SkipKeeps(s: State, w: nat, c: nat, plan: Plan, results: seq<ActionResult>)
    requires Inv(s) && WorkerAt(s, w) == Executing(c, plan, results)
    requires |results| < |plan.spec.actions| && plan.spec.actions[|results|].skip
    ensures var a := plan.spec.actions[|results|];
            Inv(s.(workers := s.workers[w := Executing(c, plan, results + [ActionResult(a.id, Skipped)])]))
  {
    hide IsClaim, IsFinish, Legal;
    assert WorkerOk(s, s.workers[w]);
    var a := plan.spec.actions[|results|];
    var s' := s.(workers := s.workers[w := Executing(c, plan, results + [ActionResult(a.id, Skipped)])]);
    assert WorkerOk(s', s'.workers[w]);
    forall x | x in s'.workers && x != w ensures WorkerOk(s', s'.workers[x]) {
      assert WorkerOk(s, s.workers[x]);
    }
  }

  /** One more execution belongs to the executing worker's claim and to no other. */
  lemma {:induction false} ProgressAside(executed: seq<Execution>, e: Execution, claim: nat, actions: seq<Action>,
                                         results: seq<ActionResult>)
    requires Progress(executed, claim, actions, results) && e.claim != claim
    ensures Progress(executed + [e], claim, actions, results)
  {
  }

  lemma {:induction false} ProgressOn(executed: seq<Execution>, claim: nat, actions: seq<Action>,
                                      results: seq<ActionResult>, ok: bool)
    requires Progress(executed, claim, actions, results) && |results| < |actions| && !actions[|results|].skip
    ensures var a := actions[|results|];
            Progress(executed + [Execution(claim, |results|, a, ok)], claim, actions,
                     results + [ActionResult(a.id, if ok then Succeeded else FailedResult)])
  {
    var a := actions[|results|];
    var e := Execution(claim, |results|, a, ok);
    var results' := results + [ActionResult(a.id, if ok then Succeeded else FailedResult)];
    var executed' := executed + [e];
    forall i | 0 <= i < |results'| && !actions[i].skip
      ensures Execution(claim, i, actions[i], results'[i].status == Succeeded) in executed' {
      if i < |results| {
        assert Execution(claim, i, actions[i], results[i].status == Succeeded) in executed;
      } else {
        assert executed'[|executed|] == e;
      }
    }
  }

  lemma {:induction false} ExecuteKeeps(s: State, w: nat, c: nat, plan: Plan, results: seq<ActionResult>, ok: bool)
    requires Inv(s) && WorkerAt(s, w) == Executing(c, plan, results)
    requires |results| < |plan.spec.actions| && !plan.spec.actions[|results|].skip
    ensures Inv(ActStep(s, w, ok))
  {
    hide IsClaim, Legal, Progress, Records, FinalPhase;
    assert WorkerOk(s, s.workers[w]);
    var a := plan.spec.actions[|results|];
    var e := Execution(c, |results|, a, ok);
    var s' := ActStep(s, w, ok);
    assert s'.executed == s.executed + [e] && s'.history == s.history;
    ProgressOn(s.executed, c, plan.spec.actions, results, ok);
    assert WorkerOk(s', s'.workers[w]);
    forall x | x in s'.workers && x != w ensures WorkerOk(s', s'.workers[x]) {
      assert WorkerOk(s, s.workers[x]);
      if s.workers[x].Executing? {
        ProgressAside(s.executed, e, s.workers[x].claim, s.workers[x].plan.spec.actions, s.workers[x].results);
      }
    }
    forall f: nat | FinishedAt(s.history, f)
      ensures Progress(s'.executed, f - 1, s.history[f].value.spec.actions, s.history[f].value.status.results) {
      assert f - 1 != c;
      ProgressAside(s.executed, e, f - 1, s.history[f].value.spec.actions, s.history[f].value.status.results);
    }
    NewExecution(s, c, results, plan, e);
  }

  lemma {:induction false} NewExecution(s: State, c: nat, results: seq<ActionResult>, plan: Plan, e: Execution)
    requires ExecutionsOk(s) && ClaimedAt(s.history, c) && s.history[c] == Some(plan)
    requires Progress(s.executed, c, plan.spec.actions, results)
    requires |results| < |plan.spec.actions| && !plan.spec.actions[|results|].skip
    requires e.claim == c && e.index == |results| && e.action == plan.spec.actions[|results|]
    ensures ExecutionsOk(s.(executed := s.executed + [e]))
  {
    hide IsClaim;
    forall i | 0 <= i < |s.executed| ensures s.executed[i].claim != c || s.executed[i].index != e.index {
      assert s.executed[i] in s.executed;
    }
  }

  lemma {:induction false} FinishKeeps(s: State, w: nat)
    requires Inv(s)
    ensures Inv(FinishStep(s, w))
  {
    match WorkerAt(s, w) {
      case Idle =>
      case Holding(_, _) =>
      case Executing(c, plan, results) =>
        assert WorkerOk(s, s.workers[w]);
        if |results| >= |plan.spec.actions| {
          if c == Latest(s) {
            FinishLands(s, w, c, plan, results);
          } else {
            IdleKeeps(s, w);
          }
        }
    }
  }

  lemma {:induction false} DoneIsFinish(h: seq<Option<Plan>>, executed: seq<Execution>, c: nat, plan: Plan,
                                         results: seq<ActionResult>)
    requires ClaimedAt(h, c) && h[c] == Some(plan)
    requires Progress(executed, c, plan.spec.actions, results) && |results| >= |plan.spec.actions|
    ensures var done := Some(plan.(status := PlanStatus(FinalPhase(results), results)));
            IsFinish(h[c], done) && !IsClaim(h[c], done)
  {
  }

  lemma {:induction false} FinishLands(s: State, w: nat, c: nat, plan: Plan, results: seq<ActionResult>)
    requires Inv(s) && WorkerAt(s, w) == Executing(c, plan, results) && c == Latest(s)
    requires |results| >= |plan.spec.actions|
    ensures var done := Some(plan.(status := PlanStatus(FinalPhase(results), results)));
            && FinishedAt(s.history + [done], |s.history|)
            && Inv(State(s.history + [done], s.workers[w := Idle], s.executed))
  {
    hide IsClaim, IsFinish, IsEdit, IsReset, IsRenewal, IsCreation, Progress, FinalPhase;
    assert WorkerOk(s, s.workers[w]);
    var done := Some(plan.(status := PlanStatus(FinalPhase(results), results)));
    var s' := State(s.history + [done], s.workers[w := Idle], s.executed);
    DoneIsFinish(s.history, s.executed, c, plan, results);
    forall e | e in s.executed ensures IsOfClaim(s'.history, e) {
      assert IsOfClaim(s.history, e);
    }
    forall x | x in s'.workers ensures WorkerOk(s', s'.workers[x]) {
      if x != w {
        assert WorkerOk(s, s.workers[x]);
        assert s.workers[x].Executing? ==> s.workers[x].claim != c;
      }
    }
    forall f: nat | FinishedAt(s'.history, f) && f < |s.history| ensures FinishedAt(s.history, f) {
    }
  }

  lemma {:induction false} ProposeKeeps(s: State, v: nat, spec: PlanSpec, lands: bool)
    requires Inv(s)
    ensures Inv(ProposeStep(s, v, spec, lands))
  {
    var s' := ProposeStep(s, v, spec, lands);
    if s' != s {
      var n := s'.history[|s.history|];
      assert Legal(s.history[Latest(s)], n) && !IsClaim(s.history[Latest(s)], n) && !IsFinish(s.history[Latest(s)], n);
      assert s' == s.(history := s.history + [n]);
      OtherWriteKeeps(s, n);
    }
  }

  lemma {:induction false} StepKeeps(s: State, step: Step)
    requires Inv(s)
    ensures Inv(Apply(s, step))
  {
    match step {
      case Read(w, v) => ReadKeeps(s, w, v);
      case Claim(w) => ClaimKeeps(s, w);
      case Act(w, ok) => ActKeeps(s, w, ok);
      case Finish(w) => FinishKeeps(s, w);
      case Crash(w) => IdleKeeps(s, w);
      case Edit(spec) =>
        var last := s.history[Latest(s)];
        if last.Some? {
          var n := Some(last.value.(spec := spec));
          assert IsEdit(last, n) && !IsClaim(last, n) && !IsFinish(last, n);
          OtherWriteKeeps(s, n);
        }
      case Delete =>
        if s.history[Latest(s)].Some? {
          OtherWriteKeeps(s, None);
        }
      case Propose(v, spec, lands) => ProposeKeeps(s, v, spec, lands);
    }
  }

  /** Every state of every run, whatever the workers, the environment and their interleaving. */
  lemma {:induction false} RunKeeps(s: State, steps: seq<Step>)
    requires Inv(s)
    ensures Inv(Run(s, steps))
  {
    hide Inv, Apply;
    InvHasHistory(s);
    if steps != [] {
      RunKeeps(s, steps[..|steps| - 1]);
      StepKeeps(Run(s, steps[..|steps| - 1]), steps[|steps| - 1]);
    }
  }

  lemma {:induction false} InvHasHistory(s: State)
    requires Inv(s)
    ensures |s.history| > 0
  {
  }
}
