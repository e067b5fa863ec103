/**
 The repair executor (internal/diagnose/repair_exec.go).

 The privileged executor is an oracle: every answer may depend on everything that
 happened before, and the state of the system after any history is whatever the
 executor made of it. The orchestration is the code; its trace of executor calls is
 proved to have the promised shape, its statuses to be truthful, and its restoration
 claims to be real.
 */
module RepairExec {
  import opened Optional
  import opened RepairCatalog

  // ---------------------------------------------------------------- data model

  /** One call to the executor and its answer. */
  datatype Event =
    | Captured(request: SnapshotRequest, data: Option<SnapshotData>)
    | Applied(step: Step, snaps: seq<SnapshotData>, ok: bool, forward: bool)
    | Checked(id: PostconditionID, snaps: seq<SnapshotData>, holds: bool)

  type History = seq<Event>

  /** System state, per snapshot kind. */
  type World = map<string, map<string, string>>

  /** An arbitrary executor: answers and state are functions of the history. */
  datatype Executor = Executor(
    capture: (History, SnapshotRequest) -> Option<SnapshotData>,
    apply: (History, Step, seq<SnapshotData>, bool) -> bool,
    check: (History, PostconditionID, seq<SnapshotData>) -> bool,
    expired: History -> bool,
    world: History -> World)

  datatype RepairStatus =
    | StatusApplied | RolledBack | PostconditionFailed | Uncertain | RollbackFailed | SnapshotFailed | Skipped

  datatype StepResult = StepResult(op: RepairOp, ok: bool)

  datatype RepairExecution = RepairExecution(
    action: ActionID, status: RepairStatus, applied: seq<StepResult>, rolledBack: seq<StepResult>,
    snapshotKinds: seq<string>)

  // ------------------------------------------------------------- trace shape

  /** The four phases of one repair, in the order their calls are made. */
  datatype Phases = Phases(captures: History, applies: History, checks: History, rollbacks: History) {
    ghost function Flat(): History { captures + applies + checks + rollbacks }
  }

  const NO_CALLS := Phases([], [], [], [])

  ghost function SnapsOf(captures: History): seq<SnapshotData>
    requires forall e :: e in captures ==> e.Captured? && e.data.Some?
  {
    seq(|captures|, i requires 0 <= i < |captures| => captures[i].data.value)
  }

  ghost predicate AllCaptured(captures: History) {
    forall e :: e in captures ==> e.Captured? && e.data.Some?
  }

  /** captures asks for a prefix of the requests, and only its last answer may be a failure. */
  ghost predicate CapturePrefix(captures: History, requests: seq<SnapshotRequest>) {
    && |captures| <= |requests|
    && (forall i :: 0 <= i < |captures| ==> captures[i].Captured? && captures[i].request == requests[i])
    && (forall i :: 0 <= i < |captures| - 1 ==> captures[i].data.Some?)
  }

  /** applies runs a prefix of the steps on the given snapshots, and only its last one may have failed. */
  ghost predicate ApplyPrefix(applies: History, steps: seq<Step>, snaps: seq<SnapshotData>) {
    && |applies| <= |steps|
    && (forall i :: 0 <= i < |applies| ==>
          applies[i].Applied? && applies[i].step == steps[i] && applies[i].snaps == snaps && applies[i].forward)
    && (forall i :: 0 <= i < |applies| - 1 ==> applies[i].ok)
  }

  ghost predicate CheckPrefix(checks: History, ids: seq<PostconditionID>, snaps: seq<SnapshotData>) {
    && |checks| <= |ids|
    && (forall i :: 0 <= i < |checks| ==> checks[i].Checked? && checks[i].id == ids[i] && checks[i].snaps == snaps)
    && (forall i :: 0 <= i < |checks| - 1 ==> checks[i].holds)
  }

  /** rollbacks runs steps first to last, whatever each answers. */
  ghost predicate RollbackRun(rollbacks: History, steps: seq<Step>, snaps: seq<SnapshotData>) {
    && |rollbacks| <= |steps|
    && (forall i :: 0 <= i < |rollbacks| ==>
          rollbacks[i].Applied? && rollbacks[i].step == steps[i] && rollbacks[i].snaps == snaps
          && !rollbacks[i].forward)
  }

  ghost predicate AllOK(events: History) {
    forall i :: 0 <= i < |events| ==> (events[i].Applied? ==> events[i].ok) && (events[i].Checked? ==> events[i].holds)
  }

  /** The calls of one repair follow the recipe, phase after phase. */
  ghost predicate FollowsRecipe(p: Phases, a: RepairAction, env: Env) {
    && CapturePrefix(p.captures, a.snapshots)
    && (p.applies != [] || p.checks != [] || p.rollbacks != [] ==>
          && |p.captures| == |a.snapshots| && AllCaptured(p.captures)
          && (a.executeGuard.Some? ==> a.executeGuard.value(env, a.apply, SnapsOf(p.captures)))
          && ApplyPrefix(p.applies, a.apply, SnapsOf(p.captures))
          && CheckPrefix(p.checks, a.postconditions, SnapsOf(p.captures))
          && RollbackRun(p.rollbacks, a.rollback, SnapsOf(p.captures)))
    && (p.checks != [] ==> |p.applies| == |a.apply| && AllOK(p.applies))
    && (p.rollbacks == [] || |p.rollbacks| == |a.rollback|)
  }

  /** What each status says about the calls that were made. */
  ghost predicate Truthful(status: RepairStatus, p: Phases, a: RepairAction, env: Env) {
    match status
    case Skipped =>
      && p.applies == p.checks == p.rollbacks == []
      && |p.captures| == |a.snapshots| && AllCaptured(p.captures)
      && a.executeGuard.Some? && !a.executeGuard.value(env, a.apply, SnapsOf(p.captures))
    case SnapshotFailed =>
      && p.applies == p.checks == p.rollbacks == []
      && p.captures != [] && p.captures[|p.captures| - 1].Captured? && p.captures[|p.captures| - 1].data.None?
    case StatusApplied =>
      && |p.applies| == |a.apply| && AllOK(p.applies)
      && |p.checks| == |a.postconditions| && AllOK(p.checks)
      && p.rollbacks == []
    case RolledBack =>
      && p.checks == [] && a.apply != []
      && if p.applies == [] then p.rollbacks == []
         else !(|p.applies| == |a.apply| && AllOK(p.applies)) && a.rollback != []
              && |p.rollbacks| == |a.rollback| && AllOK(p.rollbacks)
    case PostconditionFailed =>
      && |p.applies| == |a.apply| && p.checks != [] && !AllOK(p.checks)
      && a.rollback != [] && |p.rollbacks| == |a.rollback| && AllOK(p.rollbacks)
    case Uncertain =>
      && a.rollback == [] && p.rollbacks == []
      && (p.applies != [] || p.checks != [])
      && !(|p.applies| == |a.apply| && AllOK(p.applies) && |p.checks| == |a.postconditions| && AllOK(p.checks))
    case RollbackFailed =>
      && (p.applies != [] || p.checks != [])
      && |p.rollbacks| == |a.rollback| && !AllOK(p.rollbacks)
  }

  /** Every recorded answer is the executor's own, given everything before it. */
  ghost predicate Answered(exec: Executor, before: History, events: History) {
    forall i :: 0 <= i < |events| ==>
      match events[i]
      case Captured(request, data) => data == exec.capture(before + events[..i], request)
      case Applied(step, snaps, ok, forward) => ok == exec.apply(before + events[..i], step, snaps, forward)
      case Checked(id, snaps, holds) => holds == exec.check(before + events[..i], id, snaps)
  }

  lemma AnsweredOneMore(exec: Executor, before: History, events: History, e: Event)
    requires Answered(exec, before, events)
    requires match e
             case Captured(request, data) => data == exec.capture(before + events, request)
             case Applied(step, snaps, ok, forward) => ok == exec.apply(before + events, step, snaps, forward)
             case Checked(id, snaps, holds) => holds == exec.check(before + events, id, snaps)
    ensures Answered(exec, before, events + [e])
  {
    var longer := events + [e];
    assert longer[..|events|] == events;
    forall i | 0 <= i < |events|
      ensures longer[i] == events[i] && longer[..i] == events[..i]
    {
    }
  }

  lemma AnsweredAppend(exec: Executor, before: History, xs: History, ys: History)
    requires Answered(exec, before, xs) && Answered(exec, before + xs, ys)
    ensures Answered(exec, before, xs + ys)
  {
    var all := xs + ys;
    forall i | 0 <= i < |all|
      ensures i < |xs| ==> all[i] == xs[i] && all[..i] == xs[..i]
      ensures i >= |xs| ==> all[i] == ys[i - |xs|] && before + all[..i] == before + xs + ys[..i - |xs|]
    {
    }
  }

  // --------------------------------------------------------- plan admission

  method ParamsEqual(a: Params, b: Params) returns (equal: bool)
    ensures equal <==> a == b
  {
    if |a| != |b| { return false; }
    var keys := a.Keys;
    while keys != {}
      invariant keys <= a.Keys
      invariant forall k :: k in a.Keys - keys ==> k in b && b[k] == a[k]
      decreases |keys|
    {
      var k :| k in keys;
      if k !in b || b[k] != a[k] { return false; }
      keys := keys - {k};
    }
    SameSizeSubset(a.Keys, b.Keys);
    return true;
  }

  lemma SameSizeSubset(xs: set<string>, ys: set<string>)
    requires xs <= ys && |xs| == |ys|
    ensures xs == ys
  {
    if !(ys <= xs) {
      var y :| y in ys && y !in xs;
      SubsetIsNoLarger(xs, ys - {y});
    }
  }

  lemma {:induction false} SubsetIsNoLarger(xs: set<string>, ys: set<string>)
    requires xs <= ys
    ensures |xs| <= |ys|
  {
    if xs != {} {
      var x :| x in xs;
      SubsetIsNoLarger(xs - {x}, ys - {x});
    }
  }

  /** Same ops and parameters in the same order; descriptions are cosmetic. */
  ghost predicate SameSteps(a: seq<Step>, b: seq<Step>) {
    |a| == |b| && forall i :: 0 <= i < |a| ==> a[i].op == b[i].op && a[i].params == b[i].params
  }

  ghost predicate SameKinds(a: seq<SnapshotRequest>, b: seq<SnapshotRequest>) {
    |a| == |b| && forall i :: 0 <= i < |a| ==> a[i].kind == b[i].kind
  }

  /** The plan's copy is the authoritative recipe in everything the executor acts on. */
  ghost predicate MatchesRecipe(pr: PlannedRepair, a: RepairAction) {
    && SameKinds(pr.snapshots, a.snapshots) && SameSteps(pr.apply, a.apply)
    && SameSteps(pr.rollback, a.rollback) && pr.postconditions == a.postconditions
  }

  method StepsEqual(a: seq<Step>, b: seq<Step>) returns (equal: bool)
    ensures equal <==> SameSteps(a, b)
  {
    if |a| != |b| { return false; }
    for i := 0 to |a|
      invariant forall k :: 0 <= k < i ==> a[k].op == b[k].op && a[k].params == b[k].params
    {
      var same := ParamsEqual(a[i].params, b[i].params);
      if a[i].op != b[i].op || !same { return false; }
    }
    return true;
  }

  method SnapshotsEqual(a: seq<SnapshotRequest>, b: seq<SnapshotRequest>) returns (equal: bool)
    ensures equal <==> SameKinds(a, b)
  {
    if |a| != |b| { return false; }
    for i := 0 to |a|
      invariant forall k :: 0 <= k < i ==> a[k].kind == b[k].kind
    {
      if a[i].kind != b[i].kind { return false; }
    }
    return true;
  }

  method PostconditionsEqual(a: seq<PostconditionID>, b: seq<PostconditionID>) returns (equal: bool)
    ensures equal <==> a == b
  {
    if |a| != |b| { return false; }
    for i := 0 to |a|
      invariant forall k :: 0 <= k < i ==> a[k] == b[k]
    {
      if a[i] != b[i] { return false; }
    }
    return true;
  }

  method MatchesCatalog(pr: PlannedRepair, a: RepairAction) returns (ok: bool)
    ensures ok <==> MatchesRecipe(pr, a)
  {
    ok := SnapshotsEqual(pr.snapshots, a.snapshots);
    if !ok { return; }
    ok := StepsEqual(pr.apply, a.apply);
    if !ok { return; }
    ok := StepsEqual(pr.rollback, a.rollback);
    if !ok { return; }
    ok := PostconditionsEqual(pr.postconditions, a.postconditions);
  }

  method ValidateSteps(steps: seq<Step>) returns (ok: bool)
    ensures ok <==> forall s :: s in steps ==> !s.op.OtherOp?
  {
    for i := 0 to |steps|
      invariant forall k :: 0 <= k < i ==> !steps[k].op.OtherOp?
    {
      if !AllowedOp(steps[i].op) { assert steps[i] in steps; return false; }
    }
    return true;
  }

  /** The repair may reach the executor: what Execute checks of an untrusted plan, and nothing the plan claims. */
  ghost predicate Admitted(haveContext: bool, env: Option<Env>, pr: PlannedRepair, exec: Option<Executor>,
                           byID: map<ActionID, RepairAction>, seen: set<ActionID>) {
    && pr.action !in seen && exec.Some? && haveContext
    && (forall s :: s in pr.apply + pr.rollback ==> !s.op.OtherOp?)
    && pr.action in byID && MatchesRecipe(pr, byID[pr.action])
    && env.Some? && PreconditionsHold(byID[pr.action], env.value)
  }

  // ------------------------------------------------------------- the phases

  method CaptureAll(exec: Executor, before: History, a: RepairAction)
      returns (captures: History, snaps: seq<SnapshotData>, kinds: seq<string>, ok: bool)
    ensures CapturePrefix(captures, a.snapshots)
    ensures Answered(exec, before, captures)
    ensures ok ==> |captures| == |a.snapshots| && AllCaptured(captures) && snaps == SnapsOf(captures)
    ensures !ok ==> captures != [] && captures[|captures| - 1].data.None?
    ensures kinds == seq(|kinds|, i requires 0 <= i < |kinds| => if i < |a.snapshots| then a.snapshots[i].kind else "")
    ensures |kinds| == if ok then |captures| else |captures| - 1
  {
    captures, snaps, kinds, ok := [], [], [], true;
    for i := 0 to |a.snapshots|
      invariant |captures| == i == |snaps| == |kinds|
      invariant CapturePrefix(captures, a.snapshots) && AllCaptured(captures) && snaps == SnapsOf(captures)
      invariant Answered(exec, before, captures)
      invariant forall k :: 0 <= k < i ==> kinds[k] == a.snapshots[k].kind
    {
      var request := a.snapshots[i];
      var data := exec.capture(before + captures, request);
      AnsweredOneMore(exec, before, captures, Captured(request, data));
      captures := captures + [Captured(request, data)];
      if data.None? {
        ok := false;
        return;
      }
      snaps := snaps + [data.value];
      kinds := kinds + [request.kind];
    }
  }

  /** The results a list of apply calls leaves in the report. */
  ghost function Results(events: History): seq<StepResult>
    requires forall e :: e in events ==> e.Applied?
  {
    seq(|events|, i requires 0 <= i < |events| => StepResult(events[i].step.op, events[i].ok))
  }

  lemma ApplyOneMore(applies: History, steps: seq<Step>, snaps: seq<SnapshotData>, ok: bool, more: History)
    requires |applies| < |steps| && ApplyPrefix(applies, steps, snaps) && AllOK(applies)
    requires forall e :: e in applies ==> e.Applied?
    requires more == applies + [Applied(steps[|applies|], snaps, ok, true)]
    ensures ApplyPrefix(more, steps, snaps) && (AllOK(more) <==> ok)
    ensures forall e :: e in more ==> e.Applied?
    ensures Results(more) == Results(applies) + [StepResult(steps[|applies|].op, ok)]
  {
    assert forall i :: 0 <= i < |applies| ==> more[i] == applies[i];
    assert !more[|applies|].ok || ok;
  }

  /** The apply loop: stops at the first failure or as soon as the execution context has expired. */
  method ApplyAll(exec: Executor, before: History, a: RepairAction, snaps: seq<SnapshotData>)
      returns (applies: History, applied: seq<StepResult>, failed: bool, mutationAttempted: bool)
    ensures ApplyPrefix(applies, a.apply, snaps)
    ensures Answered(exec, before, applies)
    ensures mutationAttempted <==> applies != []
    ensures !failed <==> |applies| == |a.apply| && AllOK(applies)
    ensures failed ==> a.apply != []
    ensures ReportsApplies(applied, applies, a)
  {
    applies, applied, failed, mutationAttempted := [], [], false, false;
    for i := 0 to |a.apply|
      invariant |applies| == i && !failed
      invariant ApplyPrefix(applies, a.apply, snaps) && AllOK(applies)
      invariant Answered(exec, before, applies)
      invariant mutationAttempted <==> applies != []
      invariant (forall e :: e in applies ==> e.Applied?) && applied == Results(applies)
    {
      var step := a.apply[i];
      if exec.expired(before + applies) {
        applied := applied + [StepResult(step.op, false)];
        failed := true;
        return;
      }
      mutationAttempted := true;
      var ok := exec.apply(before + applies, step, snaps, true);
      AnsweredOneMore(exec, before, applies, Applied(step, snaps, ok, true));
      var more := applies + [Applied(step, snaps, ok, true)];
      ApplyOneMore(applies, a.apply, snaps, ok, more);
      applies, applied := more, applied + [StepResult(step.op, ok)];
      if !ok {
        failed := true;
        return;
      }
    }
  }

  method CheckPostconditions(exec: Executor, before: History, ids: seq<PostconditionID>, snaps: seq<SnapshotData>)
      returns (checks: History, hold: bool)
    ensures CheckPrefix(checks, ids, snaps)
    ensures Answered(exec, before, checks)
    ensures hold <==> |checks| == |ids| && AllOK(checks)
    ensures !hold ==> checks != [] && !AllOK(checks)
  {
    checks := [];
    for i := 0 to |ids|
      invariant |checks| == i && CheckPrefix(checks, ids, snaps) && AllOK(checks)
      invariant Answered(exec, before, checks)
    {
      var holds := exec.check(before + checks, ids[i], snaps);
      AnsweredOneMore(exec, before, checks, Checked(ids[i], snaps, holds));
      checks := checks + [Checked(ids[i], snaps, holds)];
      if !holds {
        assert !checks[i].holds;
        return checks, false;
      }
    }
    return checks, true;
  }

  method Rollback(exec: Executor, before: History, a: RepairAction, snaps: seq<SnapshotData>)
      returns (rollbacks: History, out: seq<StepResult>)
    ensures RollbackRun(rollbacks, a.rollback, snaps) && |rollbacks| == |a.rollback|
    ensures Answered(exec, before, rollbacks)
    ensures out == Results(rollbacks)
  {
    rollbacks, out := [], [];
    for i := 0 to |a.rollback|
      invariant |rollbacks| == i && RollbackRun(rollbacks, a.rollback, snaps)
      invariant Answered(exec, before, rollbacks)
      invariant out == Results(rollbacks)
    {
      var step := a.rollback[i];
      var ok := exec.apply(before + rollbacks, step, snaps, false);
      AnsweredOneMore(exec, before, rollbacks, Applied(step, snaps, ok, false));
      rollbacks := rollbacks + [Applied(step, snaps, ok, false)];
      out := out + [StepResult(step.op, ok)];
    }
  }

  method SomeFailed(steps: seq<StepResult>) returns (failed: bool)
    ensures failed <==> exists i :: 0 <= i < |steps| && !steps[i].ok
  {
    for i := 0 to |steps|
      invariant forall k :: 0 <= k < i ==> steps[k].ok
    {
      if !steps[i].ok { return true; }
    }
    return false;
  }

  // ------------------------------------------------------ one repair, a plan

  /** A repair refused before the executor was ever called. */
  ghost predicate RefusedUntouched(ex: RepairExecution, p: Phases) {
    ex.status == Skipped && p == NO_CALLS && ex.applied == [] && ex.rolledBack == [] && ex.snapshotKinds == []
  }

  /** A repair that ran: its calls follow the recipe, its status and step results tell the truth about them. */
  ghost predicate RanTruthfully(ex: RepairExecution, p: Phases, a: RepairAction, env: Env) {
    && FollowsRecipe(p, a, env)
    && Truthful(ex.status, p, a, env)
    && (forall e :: e in p.rollbacks ==> e.Applied?) && ex.rolledBack == Results(p.rollbacks)
    && ReportsApplies(ex.applied, p.applies, a)
  }

  /** The status chosen after rollback ran: never claims restoration that was not observed. */
  method AfterRollback(a: RepairAction, rolledBack: seq<StepResult>, restored: RepairStatus)
      returns (status: RepairStatus)
    ensures (exists i :: 0 <= i < |rolledBack| && !rolledBack[i].ok) ==> status == RollbackFailed
    ensures (forall i :: 0 <= i < |rolledBack| ==> rolledBack[i].ok) ==>
              status == if a.rollback == [] then Uncertain else restored
  {
    var failed := SomeFailed(rolledBack);
    if failed {
      return RollbackFailed;
    } else if |a.rollback| == 0 {
      return Uncertain;
    }
    return restored;
  }

  lemma RollbackResults(rollbacks: History, steps: seq<Step>, snaps: seq<SnapshotData>)
    requires RollbackRun(rollbacks, steps, snaps)
    ensures forall e :: e in rollbacks ==> e.Applied?
    ensures AllOK(rollbacks) <==> forall i :: 0 <= i < |rollbacks| ==> Results(rollbacks)[i].ok
    ensures !AllOK(rollbacks) <==> exists i :: 0 <= i < |rollbacks| && !Results(rollbacks)[i].ok
  {
    assert forall i :: 0 <= i < |rollbacks| ==> Results(rollbacks)[i].ok == rollbacks[i].ok;
  }

  /** All captures succeeded and the guard, if any, let the repair through. */
  ghost predicate Cleared(captures: History, a: RepairAction, env: Env, snaps: seq<SnapshotData>) {
    && CapturePrefix(captures, a.snapshots) && |captures| == |a.snapshots| && AllCaptured(captures)
    && snaps == SnapsOf(captures)
    && (a.executeGuard.Some? ==> a.executeGuard.value(env, a.apply, snaps))
  }

  /** The report's apply results: one per call, plus the step the expired context stopped. */
  ghost predicate ReportsApplies(applied: seq<StepResult>, applies: History, a: RepairAction) {
    && (forall e :: e in applies ==> e.Applied?)
    && (applied == Results(applies) ||
        (|applies| < |a.apply| && applied == Results(applies) + [StepResult(a.apply[|applies|].op, false)]))
  }

  /** No mutation was attempted, or everything was applied and verified: there is nothing to roll back. */
  lemma ConcludeWithoutRollback(ex: RepairExecution, p: Phases, a: RepairAction, env: Env, snaps: seq<SnapshotData>)
    requires Cleared(p.captures, a, env, snaps) && p.rollbacks == []
    requires ApplyPrefix(p.applies, a.apply, snaps) && CheckPrefix(p.checks, a.postconditions, snaps)
    requires ReportsApplies(ex.applied, p.applies, a) && ex.rolledBack == []
    requires || (ex.status == RolledBack && p.applies == [] && p.checks == [] && a.apply != [])
             || (ex.status == StatusApplied && |p.applies| == |a.apply| && AllOK(p.applies)
                 && |p.checks| == |a.postconditions| && AllOK(p.checks))
    ensures RanTruthfully(ex, p, a, env)
  {
  }

  /** A mutation was attempted and the repair failed: the rollback recipe ran, and the status says how it went. */
  lemma ConcludeWithRollback(ex: RepairExecution, p: Phases, a: RepairAction, env: Env, snaps: seq<SnapshotData>,
                             failed: bool)
    requires Cleared(p.captures, a, env, snaps)
    requires ApplyPrefix(p.applies, a.apply, snaps) && CheckPrefix(p.checks, a.postconditions, snaps)
    requires RollbackRun(p.rollbacks, a.rollback, snaps) && |p.rollbacks| == |a.rollback|
    requires ReportsApplies(ex.applied, p.applies, a)
    requires (forall e :: e in p.rollbacks ==> e.Applied?) && ex.rolledBack == Results(p.rollbacks)
    requires !failed <==> |p.applies| == |a.apply| && AllOK(p.applies)
    requires if failed then p.applies != [] && p.checks == [] && a.apply != [] else p.checks != [] && !AllOK(p.checks)
    requires ex.status == if !AllOK(p.rollbacks) then RollbackFailed
                          else if a.rollback == [] then Uncertain
                          else if failed then RolledBack else PostconditionFailed
    ensures RanTruthfully(ex, p, a, env)
  {
  }

  /** executeRepair once the plan is admitted: capture, guard, apply, verify, roll back. */
  method RunRecipe(exec: Executor, before: History, a: RepairAction, env: Env)
      returns (ex: RepairExecution, events: History, ghost p: Phases)
    ensures ex.action == a.id
    ensures events == p.Flat() && Answered(exec, before, events)
    ensures RanTruthfully(ex, p, a, env)
  {
    var captures, snaps, kinds, captured := CaptureAll(exec, before, a);
    if !captured {
      p, events := Phases(captures, [], [], []), captures;
      ex := RepairExecution(a.id, SnapshotFailed, [], [], kinds);
      return;
    }
    if a.executeGuard.Some? && !a.executeGuard.value(env, a.apply, snaps) {
      p, events := Phases(captures, [], [], []), captures;
      ex := RepairExecution(a.id, Skipped, [], [], kinds);
      return;
    }
    ex, events, p := Mutate(exec, before, a, env, captures, snaps, kinds);
  }

  /** The mutating half of executeRepair: apply, verify, roll back on failure. */
  method Mutate(exec: Executor, before: History, a: RepairAction, env: Env,
                captures: History, snaps: seq<SnapshotData>, kinds: seq<string>)
      returns (ex: RepairExecution, events: History, ghost p: Phases)
    requires Answered(exec, before, captures) && Cleared(captures, a, env, snaps)
    ensures ex.action == a.id && p.captures == captures
    ensures events == p.Flat() && Answered(exec, before, events)
    ensures RanTruthfully(ex, p, a, env)
  {
    var applies, applied, failed, mutationAttempted := ApplyAll(exec, before + captures, a, snaps);
    var events1 := captures + applies;
    AnsweredAppend(exec, before, captures, applies);
    if failed && !mutationAttempted {
      p, events := Phases(captures, applies, [], []), events1;
      ex := RepairExecution(a.id, RolledBack, applied, [], kinds);
      ConcludeWithoutRollback(ex, p, a, env, snaps);
      return;
    }
    var checks: History := [];
    if !failed {
      var hold;
      checks, hold := CheckPostconditions(exec, before + events1, a.postconditions, snaps);
      if hold {
        AnsweredAppend(exec, before, events1, checks);
        p, events := Phases(captures, applies, checks, []), events1 + checks;
        ex := RepairExecution(a.id, StatusApplied, applied, [], kinds);
        ConcludeWithoutRollback(ex, p, a, env, snaps);
        return;
      }
    }
    var events2 := events1 + checks;
    AnsweredAppend(exec, before, events1, checks);
    var rollbacks, rolledBack := Rollback(exec, before + events2, a, snaps);
    AnsweredAppend(exec, before, events2, rollbacks);
    RollbackResults(rollbacks, a.rollback, snaps);
    var status := AfterRollback(a, rolledBack, if failed then RolledBack else PostconditionFailed);
    p, events := Phases(captures, applies, checks, rollbacks), events2 + rollbacks;
    ex := RepairExecution(a.id, status, applied, rolledBack, kinds);
    ConcludeWithRollback(ex, p, a, env, snaps, failed);
  }

  /**
   executeRepair: an untrusted planned repair reaches the executor only when admitted, and then runs the catalogue's
   recipe.
   */
  method ExecuteRepair(haveContext: bool, env: Option<Env>, pr: PlannedRepair, exec: Option<Executor>,
                       byID: map<ActionID, RepairAction>, seen: set<ActionID>, before: History)
      returns (ex: RepairExecution, seen': set<ActionID>, events: History, ghost p: Phases)
    requires forall id :: id in byID ==> byID[id].id == id
    ensures ex.action == pr.action && seen' == seen + {pr.action}
    ensures events == p.Flat()
    ensures if Admitted(haveContext, env, pr, exec, byID, seen)
            then Answered(exec.value, before, events) && RanTruthfully(ex, p, byID[pr.action], env.value)
            else RefusedUntouched(ex, p)
  {
    seen' := seen + {pr.action};
    p, events := NO_CALLS, [];
    ex := RepairExecution(pr.action, Skipped, [], [], []);
    if pr.action in seen || exec.None? || !haveContext {
      return;
    }
    var allowed := ValidateSteps(pr.apply + pr.rollback);
    if !allowed || pr.action !in byID {
      return;
    }
    var action := byID[pr.action];
    var matching := MatchesCatalog(pr, action);
    if !matching || env.None? {
      return;
    }
    var ready := CheckPreconditions(action, env.value);
    if !ready {
      return;
    }
    ex, events, p := RunRecipe(exec.value, before, action, env.value);
  }

  /** What one entry of a plan did, given what came before it. */
  ghost predicate Outcome(haveContext: bool, env: Option<Env>, pr: PlannedRepair, exec: Option<Executor>,
                          byID: map<ActionID, RepairAction>, seen: set<ActionID>, before: History,
                          ex: RepairExecution, p: Phases) {
    && ex.action == pr.action
    && if Admitted(haveContext, env, pr, exec, byID, seen)
       then Answered(exec.value, before, p.Flat()) && RanTruthfully(ex, p, byID[pr.action], env.value)
       else RefusedUntouched(ex, p)
  }

  ghost function Named(plan: seq<PlannedRepair>): set<ActionID> {
    set pr | pr in plan :: pr.action
  }

  lemma NamedOneMore(plan: seq<PlannedRepair>, pr: PlannedRepair)
    ensures Named(plan + [pr]) == Named(plan) + {pr.action}
  {
    assert forall x :: x in plan + [pr] <==> x in plan || x == pr;
  }

  ghost function Concat(ps: seq<Phases>): History {
    if ps == [] then [] else Concat(ps[..|ps| - 1]) + ps[|ps| - 1].Flat()
  }

  /** Every entry of the plan had the outcome its position allows. */
  ghost predicate PlanOutcome(haveContext: bool, env: Option<Env>, plan: seq<PlannedRepair>, exec: Option<Executor>,
                              byID: map<ActionID, RepairAction>, reports: seq<RepairExecution>, phases: seq<Phases>) {
    && |reports| == |phases| == |plan|
    && forall i :: 0 <= i < |plan| ==>
         Outcome(haveContext, env, plan[i], exec, byID, Named(plan[..i]), Concat(phases[..i]), reports[i], phases[i])
  }

  lemma PlanOutcomeOneMore(haveContext: bool, env: Option<Env>, plan: seq<PlannedRepair>, exec: Option<Executor>,
                           byID: map<ActionID, RepairAction>, reports: seq<RepairExecution>, phases: seq<Phases>,
                           pr: PlannedRepair, ex: RepairExecution, p: Phases)
    requires PlanOutcome(haveContext, env, plan, exec, byID, reports, phases)
    requires Outcome(haveContext, env, pr, exec, byID, Named(plan), Concat(phases), ex, p)
    ensures PlanOutcome(haveContext, env, plan + [pr], exec, byID, reports + [ex], phases + [p])
  {
    var plan', reports', phases' := plan + [pr], reports + [ex], phases + [p];
    forall i | 0 <= i < |plan'|
      ensures Outcome(haveContext, env, plan'[i], exec, byID, Named(plan'[..i]), Concat(phases'[..i]), reports'[i],
                      phases'[i])
    {
      if i < |plan| {
        assert plan'[..i] == plan[..i] && phases'[..i] == phases[..i];
      } else {
        assert plan'[..i] == plan && phases'[..i] == phases;
      }
    }
  }

  lemma PlanStep(haveContext: bool, env: Option<Env>, plan: seq<PlannedRepair>, exec: Option<Executor>,
                 byID: map<ActionID, RepairAction>, reports: seq<RepairExecution>, phases: seq<Phases>,
                 i: nat, ex: RepairExecution, p: Phases)
    requires i < |plan| && PlanOutcome(haveContext, env, plan[..i], exec, byID, reports, phases)
    requires Outcome(haveContext, env, plan[i], exec, byID, Named(plan[..i]), Concat(phases), ex, p)
    ensures PlanOutcome(haveContext, env, plan[..i + 1], exec, byID, reports + [ex], phases + [p])
    ensures Named(plan[..i + 1]) == Named(plan[..i]) + {plan[i].action}
    ensures Concat(phases + [p]) == Concat(phases) + p.Flat()
  {
    assert plan[..i + 1] == plan[..i] + [plan[i]];
    PlanOutcomeOneMore(haveContext, env, plan[..i], exec, byID, reports, phases, plan[i], ex, p);
    NamedOneMore(plan[..i], plan[i]);
    assert (phases + [p])[..|phases|] == phases;
  }

  /** Execute: one report per planned repair, and a trace that is the repairs' own traces in order. */
  method Execute(haveContext: bool, env: Option<Env>, plan: seq<PlannedRepair>, exec: Option<Executor>,
                 byID: map<ActionID, RepairAction>)
      returns (reports: seq<RepairExecution>, events: History)
    requires forall id :: id in byID ==> byID[id].id == id
    ensures |reports| == |plan| && forall i :: 0 <= i < |plan| ==> reports[i].action == plan[i].action
    ensures exists phases ::
              PlanOutcome(haveContext, env, plan, exec, byID, reports, phases) && events == Concat(phases)
  {
    reports, events := [], [];
    ghost var phases := [];
    var seen: set<ActionID> := {};
    for i := 0 to |plan|
      invariant events == Concat(phases) && seen == Named(plan[..i])
      invariant |reports| == i && forall k :: 0 <= k < i ==> reports[k].action == plan[k].action
      invariant PlanOutcome(haveContext, env, plan[..i], exec, byID, reports, phases)
    {
      var ex, seen', calls;
      ghost var p;
      ex, seen', calls, p := ExecuteRepair(haveContext, env, plan[i], exec, byID, seen, events);
      PlanStep(haveContext, env, plan, exec, byID, reports, phases, i, ex, p);
      reports, events, phases := reports + [ex], events + calls, phases + [p];
      seen := seen';
    }
    assert plan[..|plan|] == plan;
  }
}
