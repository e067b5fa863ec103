/**
 What a repair run guarantees, for every plan and every executor: the shape of the
 trace, the meaning of the statuses, the bound on the MTU, and real restoration.
 */
module RepairGuarantees {
  import opened Optional
  import opened Decimal
  import opened RepairCatalog
  import opened RepairExec

  // ------------------------------------------------------------- trace shape

  /** In the flat trace the captures come first, in recipe order, and all succeed before anything else happens. */
  lemma CapturesComeFirst(p: Phases, a: RepairAction, env: Env, i: nat)
    requires FollowsRecipe(p, a, env) && i < |p.Flat()|
    ensures p.Flat()[i].Captured? ==> i < |a.snapshots| && p.Flat()[i].request == a.snapshots[i]
    ensures !p.Flat()[i].Captured? ==>
              && i >= |a.snapshots|
              && forall k :: 0 <= k < |a.snapshots| ==>
                   p.Flat()[k].Captured? && p.Flat()[k].request == a.snapshots[k] && p.Flat()[k].data.Some?
  {
    FlatAt(p, i);
    if i >= |p.captures| {
      var f := p.Flat();
      forall k | 0 <= k < |a.snapshots| ensures f[k].Captured? && f[k].request == a.snapshots[k] && f[k].data.Some? {
        FlatAt(p, k);
        assert p.captures[k] in p.captures;
      }
    }
  }

  /** Forward applies are a prefix of the recipe, and only its postconditions are checked. */
  lemma AppliesFollowRecipe(p: Phases, a: RepairAction, env: Env, i: nat)
    requires FollowsRecipe(p, a, env) && i < |p.Flat()|
    ensures p.Flat()[i].Applied? && p.Flat()[i].forward ==>
              |a.snapshots| <= i < |a.snapshots| + |a.apply| && p.Flat()[i].step == a.apply[i - |a.snapshots|]
    ensures p.Flat()[i].Checked? ==> p.Flat()[i].id in a.postconditions
  {
    FlatAt(p, i);
  }

  /** Rollback is all of the recipe's rollback steps, at the end of the trace, or none of them. */
  lemma RollbackIsWhole(p: Phases, a: RepairAction, env: Env, i: nat)
    requires FollowsRecipe(p, a, env) && i < |p.Flat()|
    requires p.Flat()[i].Applied? && !p.Flat()[i].forward
    ensures |p.Flat()| >= |a.rollback|
    ensures forall k :: |p.Flat()| - |a.rollback| <= k < |p.Flat()| ==>
              && p.Flat()[k].Applied? && !p.Flat()[k].forward
              && p.Flat()[k].step == a.rollback[k - (|p.Flat()| - |a.rollback|)]
  {
    RollbackAt(p, a, env, i);
    forall k | |p.Flat()| - |a.rollback| <= k < |p.Flat()|
      ensures p.Flat()[k].Applied? && !p.Flat()[k].forward
              && p.Flat()[k].step == a.rollback[k - (|p.Flat()| - |a.rollback|)]
    {
      FlatAt(p, k);
    }
  }

  lemma RollbackAt(p: Phases, a: RepairAction, env: Env, i: nat)
    requires FollowsRecipe(p, a, env) && i < |p.Flat()| && p.Flat()[i].Applied? && !p.Flat()[i].forward
    ensures |p.rollbacks| == |a.rollback| && RollbackRun(p.rollbacks, a.rollback, SnapsOf(p.captures))
  {
    FlatAt(p, i);
  }

  /** Which phase the i-th call belongs to. */
  ghost function CallAt(p: Phases, i: nat): Event
    requires i < |p.Flat()|
  {
    var c, m, q := |p.captures|, |p.captures| + |p.applies|, |p.captures| + |p.applies| + |p.checks|;
    if i < c then p.captures[i]
    else if i < m then p.applies[i - c]
    else if i < q then p.checks[i - m]
    else p.rollbacks[i - q]
  }

  lemma FlatAt(p: Phases, i: nat)
    requires i < |p.Flat()|
    ensures p.Flat()[i] == CallAt(p, i)
  {
  }

  /** A plan runs each action at most once: a repeat is refused without a single executor call. */
  lemma EachActionRunsOnce(haveContext: bool, env: Option<Env>, plan: seq<PlannedRepair>, exec: Option<Executor>,
                           byID: map<ActionID, RepairAction>, reports: seq<RepairExecution>, phases: seq<Phases>,
                           i: nat, j: nat)
    requires PlanOutcome(haveContext, env, plan, exec, byID, reports, phases)
    requires i < j < |plan| && plan[i].action == plan[j].action
    ensures reports[j].status == Skipped && phases[j] == NO_CALLS
  {
    assert plan[..j][i].action == plan[j].action;
    assert plan[j].action in Named(plan[..j]);
  }

  lemma CopyIsAdmitted(haveContext: bool, env: Option<Env>, pr: PlannedRepair, exec: Option<Executor>,
                       a: RepairAction, byID: map<ActionID, RepairAction>, seen: set<ActionID>)
    requires ValidAction(a) && CopiesRecipe(pr, a) && a.id in byID && byID[a.id] == a
    ensures Admitted(haveContext, env, pr, exec, byID, seen) <==>
            (pr.action !in seen && exec.Some? && haveContext && env.Some? && PreconditionsHold(a, env.value))
  {
    assert forall s :: s in pr.apply + pr.rollback ==> s in a.apply || s in a.rollback;
    assert MatchesRecipe(pr, a);
  }

  /** A plan made by the planner from a valid catalogue is never mistaken for a tampered one. */
  lemma PlannedRepairIsAdmitted(haveContext: bool, env: Option<Env>, pr: PlannedRepair, exec: Option<Executor>,
                                catalog: seq<RepairAction>, n: nat, seen: set<ActionID>)
    requires ValidCatalog(catalog) && n < |catalog| && CopiesRecipe(pr, catalog[n])
    ensures Admitted(haveContext, env, pr, exec, Index(catalog), seen) <==>
            (pr.action !in seen && exec.Some? && haveContext && env.Some? && PreconditionsHold(catalog[n], env.value))
  {
    IndexIsCatalog(catalog);
    CopyIsAdmitted(haveContext, env, pr, exec, catalog[n], Index(catalog), seen);
  }

  /**
   Whatever an untrusted plan says, an executor call is made for an entry only if its action is new in the plan, is in
   the catalogue, is spelled out in the entry exactly as there, and its preconditions hold now.
   */
  lemma OnlyFaithfulCopiesRun(haveContext: bool, env: Option<Env>, plan: seq<PlannedRepair>, exec: Option<Executor>,
                              byID: map<ActionID, RepairAction>, reports: seq<RepairExecution>, phases: seq<Phases>,
                              n: nat)
    requires PlanOutcome(haveContext, env, plan, exec, byID, reports, phases) && n < |plan|
    requires phases[n].Flat() != [] || reports[n].status != Skipped
    ensures haveContext && env.Some? && exec.Some? && plan[n].action in byID
    ensures forall m :: 0 <= m < n ==> plan[m].action != plan[n].action
    ensures var a, pr := byID[plan[n].action], plan[n];
            && |pr.snapshots| == |a.snapshots| && |pr.apply| == |a.apply| && |pr.rollback| == |a.rollback|
            && (forall i :: 0 <= i < |a.snapshots| ==> pr.snapshots[i].kind == a.snapshots[i].kind)
            && (forall i :: 0 <= i < |a.apply| ==>
                  && pr.apply[i].op == a.apply[i].op && pr.apply[i].params == a.apply[i].params
                  && !pr.apply[i].op.OtherOp?)
            && (forall i :: 0 <= i < |a.rollback| ==>
                  pr.rollback[i].op == a.rollback[i].op && pr.rollback[i].params == a.rollback[i].params)
            && pr.postconditions == a.postconditions
            && (forall i :: 0 <= i < |a.preconditions| ==> a.preconditions[i].check(env.value))
  {
    EntryOutcome(haveContext, env, plan, exec, byID, reports, phases, n);
    assert forall m :: 0 <= m < n ==> plan[..n][m].action == plan[m].action && plan[m].action in Named(plan[..n]);
    assert forall i :: 0 <= i < |plan[n].apply| ==> plan[n].apply[i] in plan[n].apply + plan[n].rollback;
  }

  // ------------------------------------------------------------ status meaning

  /** Which statuses a valid recipe can end in, and what an applied one proves. */
  lemma StatusesOfValidActions(ex: RepairExecution, p: Phases, a: RepairAction, env: Env)
    requires ValidAction(a) && RanTruthfully(ex, p, a, env)
    ensures !a.idempotent ==> ex.status != Uncertain
    ensures a.idempotent ==> ex.status !in {RollbackFailed, PostconditionFailed, SnapshotFailed}
    ensures a.idempotent && ex.status == RolledBack ==> p.applies == [] && p.rollbacks == []
    ensures ex.status == StatusApplied ==>
              && |p.applies| == |a.apply| >= 1 && AllOK(p.applies)
              && |p.checks| == |a.postconditions| >= 1 && AllOK(p.checks)
  {
  }

  /** The same for any entry of any plan run from a catalogue that validateCatalog accepts. */
  lemma StatusesOfValidCatalog(haveContext: bool, env: Option<Env>, plan: seq<PlannedRepair>, exec: Option<Executor>,
                               catalog: seq<RepairAction>, reports: seq<RepairExecution>, phases: seq<Phases>, n: nat)
    requires ValidCatalog(catalog) && PlanOutcome(haveContext, env, plan, exec, Index(catalog), reports, phases)
    requires n < |plan| && reports[n].status != Skipped
    ensures plan[n].action in Index(catalog)
    ensures var a, status, p := Index(catalog)[plan[n].action], reports[n].status, phases[n];
            && (!a.idempotent ==> status != Uncertain)
            && (a.idempotent ==> status !in {RollbackFailed, PostconditionFailed, SnapshotFailed})
            && (a.idempotent && status == RolledBack ==> p.applies == [] && p.rollbacks == [])
            && (status == StatusApplied ==>
                  && |p.applies| == |a.apply| >= 1 && AllOK(p.applies)
                  && |p.checks| == |a.postconditions| >= 1 && AllOK(p.checks))
  {
    IndexIsCatalog(catalog);
    EntryOutcome(haveContext, env, plan, exec, Index(catalog), reports, phases, n);
    var a := Index(catalog)[plan[n].action];
    assert a in catalog;
    StatusesOfValidActions(reports[n], phases[n], a, env.value);
  }

  /** What a plan's outcome says of one entry. */
  lemma EntryOutcome(haveContext: bool, env: Option<Env>, plan: seq<PlannedRepair>, exec: Option<Executor>,
                     byID: map<ActionID, RepairAction>, reports: seq<RepairExecution>, phases: seq<Phases>, n: nat)
    requires PlanOutcome(haveContext, env, plan, exec, byID, reports, phases) && n < |plan|
    ensures Outcome(haveContext, env, plan[n], exec, byID, Named(plan[..n]), Concat(phases[..n]), reports[n], phases[n])
  {
  }

  // --------------------------------------------------------------- restoration

  /** The part of the system an op changes, named by the snapshot kind that records it. */
  function StateKind(op: RepairOp): string {
    match op
    case SetMTU => MTU_KIND
    case ReapplyRoutes | RestoreRoutes => ROUTES_KIND
    case RestartWireGuard | RestoreWGConfig => WIREGUARD_KIND
    case ClearExit | SetExit => EXIT_KIND
    case FlushDNS => "dns-cache"
    case ReconnectCoord => "coordinator-session"
    case ReselectRelay => "relay-selection"
    case RearmKillSwitch => "killswitch"
    case OtherOp(name) => name
  }

  ghost predicate SameAt(w: World, v: World, kind: string) {
    (kind in w <==> kind in v) && (kind in w ==> w[kind] == v[kind])
  }

  /** e is a call the executor answered after history h. */
  ghost predicate Happens(exec: Executor, h: History, e: Event) {
    Answered(exec, h, [e])
  }

  /** Captures read the state, report it as it is, and change nothing; checks change nothing. */
  ghost predicate ObservesFaithfully(exec: Executor) {
    forall h: History, e: Event {:trigger Happens(exec, h, e)} :: Happens(exec, h, e) && !e.Applied? ==>
      && exec.world(h + [e]) == exec.world(h)
      && (e.Captured? && e.data.Some? ==>
            && e.data.value.kind == e.request.kind && e.request.kind in exec.world(h)
            && exec.world(h)[e.request.kind] == e.data.value.values)
  }

  /** An op changes at most its own kind, even when it fails part-way. */
  ghost predicate StaysInKind(exec: Executor) {
    forall h: History, e: Event, kind: string
      {:trigger Happens(exec, h, e), SameAt(exec.world(h), exec.world(h + [e]), kind)} ::
      Happens(exec, h, e) && e.Applied? && kind != StateKind(e.step.op) ==>
        SameAt(exec.world(h), exec.world(h + [e]), kind)
  }

  /** The state after a restore holds one of the captured values of that kind. */
  ghost predicate WroteBack(w: World, kind: string, snaps: seq<SnapshotData>) {
    exists i :: 0 <= i < |snaps| && snaps[i].kind == kind && kind in w && w[kind] == snaps[i].values
  }

  /** A restore that reports success wrote a captured value of its kind back. */
  ghost predicate RestoresCaptured(exec: Executor) {
    forall h: History, e: Event {:trigger Happens(exec, h, e)} ::
      Happens(exec, h, e) && e.Applied? && e.ok && e.step.Source() == StateKind(e.step.op) ==>
        WroteBack(exec.world(h + [e]), StateKind(e.step.op), e.snaps)
  }

  ghost predicate Honest(exec: Executor) {
    ObservesFaithfully(exec) && StaysInKind(exec) && RestoresCaptured(exec)
  }

  ghost predicate Undone(rollback: seq<Step>, kind: string) {
    exists t :: t in rollback && StateKind(t.op) == kind
  }

  /** The rollback recipe restores, from its own snapshot, every kind the apply recipe touches. */
  ghost predicate RollbackUndoesApply(a: RepairAction) {
    && (forall t :: t in a.rollback ==> t.Source() == StateKind(t.op))
    && (a.rollback != [] ==> forall s :: s in a.apply ==> Undone(a.rollback, StateKind(s.op)))
  }

  /** The last of a list of answered calls happened right after the others. */
  lemma LastHappens(exec: Executor, before: History, events: History)
    requires events != [] && Answered(exec, before, events)
    ensures var n := |events| - 1;
            && Answered(exec, before, events[..n])
            && Happens(exec, before + events[..n], events[n])
            && before + events == (before + events[..n]) + [events[n]]
  {
    var n := |events| - 1;
    assert forall i :: 0 <= i < n ==> events[..n][..i] == events[..i];
    assert [events[n]][..0] == [];
    assert (before + events[..n]) + [events[n]][..0] == before + events[..n];
  }

  /** Captures leave the world alone and record it. */
  lemma {:induction false} CapturesKeepWorld(exec: Executor, before: History, captures: History)
    requires Honest(exec) && Answered(exec, before, captures)
    requires forall i :: 0 <= i < |captures| ==> captures[i].Captured?
    ensures exec.world(before + captures) == exec.world(before)
    ensures forall i :: 0 <= i < |captures| && captures[i].data.Some? ==>
              Records([captures[i].data.value], exec.world(before))
  {
    if captures == [] {
      assert before + captures == before;
    } else {
      var n := |captures| - 1;
      LastHappens(exec, before, captures);
      CapturesKeepWorld(exec, before, captures[..n]);
      forall i | 0 <= i < |captures| && captures[i].data.Some?
        ensures Records([captures[i].data.value], exec.world(before))
      {
        if i < n { assert captures[..n][i] == captures[i]; }
      }
    }
  }

  lemma {:induction false} ChecksKeepWorld(exec: Executor, before: History, checks: History)
    requires Honest(exec) && Answered(exec, before, checks)
    requires forall i :: 0 <= i < |checks| ==> checks[i].Checked?
    ensures exec.world(before + checks) == exec.world(before)
  {
    if checks == [] {
      assert before + checks == before;
    } else {
      LastHappens(exec, before, checks);
      ChecksKeepWorld(exec, before, checks[..|checks| - 1]);
    }
  }

  /** Applied steps leave every kind they do not touch alone. */
  lemma {:induction false} AppliesStayInKind(exec: Executor, before: History, applies: History, kind: string)
    requires Honest(exec) && Answered(exec, before, applies)
    requires forall i :: 0 <= i < |applies| ==> applies[i].Applied? && StateKind(applies[i].step.op) != kind
    ensures SameAt(exec.world(before), exec.world(before + applies), kind)
  {
    if applies == [] {
      assert before + applies == before;
    } else {
      var n := |applies| - 1;
      var h := before + applies[..n];
      LastHappens(exec, before, applies);
      AppliesStayInKind(exec, before, applies[..n], kind);
      assert SameAt(exec.world(h), exec.world(h + [applies[n]]), kind);
    }
  }

  /** Every snapshot holds the world's value of its kind. */
  ghost predicate Records(snaps: seq<SnapshotData>, w: World) {
    forall i :: 0 <= i < |snaps| ==> snaps[i].kind in w && w[snaps[i].kind] == snaps[i].values
  }

  /** After a successful rollback every kind it names holds its captured value again. */
  lemma {:induction false} RollbackRestores(exec: Executor, before: History, rollbacks: History, steps: seq<Step>,
                                            snaps: seq<SnapshotData>, w: World, kind: string)
    requires Honest(exec) && Records(snaps, w) && Answered(exec, before, rollbacks)
    requires |rollbacks| == |steps| && RollbackRun(rollbacks, steps, snaps) && AllOK(rollbacks)
    requires forall t :: t in steps ==> t.Source() == StateKind(t.op)
    requires Undone(steps, kind) || SameAt(w, exec.world(before), kind)
    ensures SameAt(w, exec.world(before + rollbacks), kind)
  {
    if rollbacks == [] {
      assert before + rollbacks == before;
    } else {
      var n := |rollbacks| - 1;
      var e := rollbacks[n];
      var h := before + rollbacks[..n];
      LastHappens(exec, before, rollbacks);
      assert steps[n] in steps;
      if StateKind(e.step.op) == kind {
        assert WroteBack(exec.world(h + [e]), kind, e.snaps);
      } else {
        assert Undone(steps, kind) ==> Undone(steps[..n], kind);
        assert AllOK(rollbacks[..n]);
        RollbackRestores(exec, before, rollbacks[..n], steps[..n], snaps, w, kind);
        assert SameAt(exec.world(h), exec.world(h + [e]), kind);
      }
    }
  }

  /** The answers of a repair are the answers of its phases, each after the ones before it. */
  lemma AnsweredByPhase(exec: Executor, before: History, p: Phases)
    requires Answered(exec, before, p.Flat())
    ensures Answered(exec, before, p.captures)
    ensures Answered(exec, before + p.captures, p.applies)
    ensures Answered(exec, before + p.captures + p.applies, p.checks)
    ensures Answered(exec, before + p.captures + p.applies + p.checks, p.rollbacks)
  {
    AnsweredSplit(exec, before, p.captures + p.applies + p.checks, p.rollbacks);
    AnsweredSplit(exec, before, p.captures + p.applies, p.checks);
    AnsweredSplit(exec, before, p.captures, p.applies);
    assert before + (p.captures + p.applies) == before + p.captures + p.applies;
    assert before + (p.captures + p.applies + p.checks) == before + p.captures + p.applies + p.checks;
  }

  lemma AnsweredSplit(exec: Executor, before: History, xs: History, ys: History)
    requires Answered(exec, before, xs + ys)
    ensures Answered(exec, before, xs) && Answered(exec, before + xs, ys)
  {
    var all := xs + ys;
    forall i | 0 <= i < |xs|
      ensures all[i] == xs[i] && all[..i] == xs[..i]
    {
    }
    forall i | 0 <= i < |ys|
      ensures all[|xs| + i] == ys[i] && before + all[..|xs| + i] == before + xs + ys[..i]
    {
    }
  }

  ghost predicate ClaimsRestored(status: RepairStatus) {
    status in {RolledBack, PostconditionFailed, SnapshotFailed, Skipped}
  }

  /** A repair that was rolled back left every kind as it found it. */
  lemma RolledBackKind(exec: Executor, before: History, p: Phases, a: RepairAction, env: Env, kind: string)
    requires Honest(exec) && Answered(exec, before, p.Flat()) && FollowsRecipe(p, a, env) && RollbackUndoesApply(a)
    requires p.rollbacks != [] && |p.rollbacks| == |a.rollback| && AllOK(p.rollbacks)
    ensures SameAt(exec.world(before), exec.world(before + p.Flat()), kind)
  {
    var w := exec.world(before);
    var snaps := SnapsOf(p.captures);
    AnsweredByPhase(exec, before, p);
    CapturesKeepWorld(exec, before, p.captures);
    assert Records(snaps, w) by {
      forall i | 0 <= i < |snaps| ensures snaps[i].kind in w && w[snaps[i].kind] == snaps[i].values {
        assert p.captures[i] in p.captures && Records([p.captures[i].data.value], w);
        assert [p.captures[i].data.value][0] == snaps[i];
      }
    }
    var h1 := before + p.captures;
    var h2 := h1 + p.applies;
    var h3 := h2 + p.checks;
    if !Undone(a.rollback, kind) {
      forall i | 0 <= i < |p.applies| ensures StateKind(p.applies[i].step.op) != kind {
        assert a.apply[i] in a.apply;
      }
      AppliesStayInKind(exec, h1, p.applies, kind);
    }
    ChecksKeepWorld(exec, h2, p.checks);
    RollbackRestores(exec, h3, p.rollbacks, a.rollback, snaps, w, kind);
    assert before + p.Flat() == h3 + p.rollbacks;
  }

  /** The restoration theorem: a status that claims no lasting change means the state is the one before the repair. */
  lemma RepairRestores(exec: Executor, before: History, ex: RepairExecution, p: Phases, a: RepairAction, env: Env)
    requires Honest(exec) && RollbackUndoesApply(a) && Answered(exec, before, p.Flat())
    requires RanTruthfully(ex, p, a, env) && ClaimsRestored(ex.status)
    ensures exec.world(before + p.Flat()) == exec.world(before)
  {
    if p.rollbacks == [] {
      assert p.applies == [] && p.checks == [];
      AnsweredByPhase(exec, before, p);
      CapturesKeepWorld(exec, before, p.captures);
      assert before + p.Flat() == before + p.captures;
    } else {
      var w, v := exec.world(before), exec.world(before + p.Flat());
      forall kind: string ensures SameAt(w, v, kind) {
        RolledBackKind(exec, before, p, a, env, kind);
      }
      assert w.Keys == v.Keys by {
        assert forall kind :: kind in w.Keys <==> kind in v.Keys by {
          forall kind: string ensures kind in w.Keys <==> kind in v.Keys { assert SameAt(w, v, kind); }
        }
      }
      forall kind | kind in w ensures w[kind] == v[kind] { assert SameAt(w, v, kind); }
    }
  }

  lemma PlanOutcomePrefix(haveContext: bool, env: Option<Env>, plan: seq<PlannedRepair>, exec: Option<Executor>,
                          byID: map<ActionID, RepairAction>, reports: seq<RepairExecution>, phases: seq<Phases>, n: nat)
    requires PlanOutcome(haveContext, env, plan, exec, byID, reports, phases) && n <= |plan|
    ensures PlanOutcome(haveContext, env, plan[..n], exec, byID, reports[..n], phases[..n])
  {
    forall i | 0 <= i < n
      ensures Outcome(haveContext, env, plan[..n][i], exec, byID, Named(plan[..n][..i]), Concat(phases[..n][..i]),
                      reports[..n][i], phases[..n][i])
    {
      assert plan[..n][..i] == plan[..i] && phases[..n][..i] == phases[..i];
    }
  }

  /** A whole plan whose reports all claim no lasting change left the system as it was. */
  lemma {:induction false} PlanRestores(haveContext: bool, env: Option<Env>, plan: seq<PlannedRepair>, exec: Executor,
                                        byID: map<ActionID, RepairAction>, reports: seq<RepairExecution>,
                                        phases: seq<Phases>)
    requires Honest(exec) && forall id :: id in byID ==> RollbackUndoesApply(byID[id])
    requires PlanOutcome(haveContext, env, plan, Some(exec), byID, reports, phases)
    requires forall i :: 0 <= i < |reports| ==> ClaimsRestored(reports[i].status)
    ensures exec.world(Concat(phases)) == exec.world([])
  {
    if plan != [] {
      var n := |plan| - 1;
      PlanOutcomePrefix(haveContext, env, plan, Some(exec), byID, reports, phases, n);
      PlanRestores(haveContext, env, plan[..n], exec, byID, reports[..n], phases[..n]);
      var before := Concat(phases[..n]);
      if Admitted(haveContext, env, plan[n], Some(exec), byID, Named(plan[..n])) {
        RepairRestores(exec, before, reports[n], phases[n], byID[plan[n].action], env.value);
      } else {
        assert before + phases[n].Flat() == before;
      }
    }
  }

  // The assumptions on the executor can be met: one that really writes and restores.

  ghost function SimulatedWorld(h: History): World {
    if h == [] then map[MTU_KIND := map[], ROUTES_KIND := map[], WIREGUARD_KIND := map[], EXIT_KIND := map[]]
    else
      var w, e := SimulatedWorld(h[..|h| - 1]), h[|h| - 1];
      if !e.Applied? || !e.ok then w
      else if e.step.Source() == StateKind(e.step.op) && HasKind(e.snaps, e.step.Source())
      then w[StateKind(e.step.op) := ValueOf(e.snaps, e.step.Source())]
      else w[StateKind(e.step.op) := map["changed" := "yes"]]
  }

  ghost predicate HasKind(snaps: seq<SnapshotData>, kind: string) {
    exists i :: 0 <= i < |snaps| && snaps[i].kind == kind
  }

  ghost function ValueOf(snaps: seq<SnapshotData>, kind: string): map<string, string>
    requires HasKind(snaps, kind)
  {
    var i :| 0 <= i < |snaps| && snaps[i].kind == kind;
    snaps[i].values
  }

  ghost function SimulatedExecutor(): Executor {
    Executor(
      (h: History, r: SnapshotRequest) =>
        if r.kind in SimulatedWorld(h) then Some(SnapshotData(r.kind, SimulatedWorld(h)[r.kind])) else None,
      (h: History, s: Step, snaps: seq<SnapshotData>, forward: bool) =>
        s.Source() == StateKind(s.op) ==> HasKind(snaps, s.Source()),
      (h: History, id: PostconditionID, snaps: seq<SnapshotData>) => true,
      (h: History) => false,
      SimulatedWorld)
  }

  lemma HonestExecutorExists()
    ensures Honest(SimulatedExecutor())
  {
    var exec := SimulatedExecutor();
    forall h: History, e: Event | Happens(exec, h, e)
      ensures (h + [e])[..|h|] == h
      ensures e.Captured? ==> e.data == exec.capture(h, e.request)
      ensures e.Applied? ==> e.ok == exec.apply(h, e.step, e.snaps, e.forward)
    {
      assert [e][0] == e && h + [e][..0] == h;
    }
  }

  lemma RollbackUndoesLowerMTU() ensures RollbackUndoesApply(LOWER_MTU) {
    assert LOWER_MTU.rollback[0] in LOWER_MTU.rollback;
  }

  lemma RollbackUndoesReapplyRoutes() ensures RollbackUndoesApply(REAPPLY_ROUTES) {
    assert REAPPLY_ROUTES.rollback[0] in REAPPLY_ROUTES.rollback;
  }

  lemma RollbackUndoesRestartWireGuard() ensures RollbackUndoesApply(RESTART_WIREGUARD) {
    assert RESTART_WIREGUARD.rollback[0] in RESTART_WIREGUARD.rollback;
  }

  lemma RollbackUndoesRebuildExit() ensures RollbackUndoesApply(REBUILD_EXIT) {
    assert REBUILD_EXIT.rollback[0] in REBUILD_EXIT.rollback;
  }

  lemma NoRollbackUndoes(a: RepairAction)
    requires a.rollback == []
    ensures RollbackUndoesApply(a)
  {
  }

  /** A shipped recipe is one of the eight. */
  lemma ShippedRecipes(id: ActionID)
    requires id in Index(REPAIR_CATALOG)
    ensures var a := Index(REPAIR_CATALOG)[id];
            a in {FLUSH_DNS, RECONNECT, RESELECT_RELAY, REARM, LOWER_MTU, REAPPLY_ROUTES, RESTART_WIREGUARD,
                  REBUILD_EXIT}
  {
    ShippedCatalogIsValid();
    IndexIsCatalog(REPAIR_CATALOG);
  }

  /** Every shipped recipe undoes what it applies. */
  lemma ShippedRollbacksUndo(id: ActionID)
    requires id in Index(REPAIR_CATALOG)
    ensures RollbackUndoesApply(Index(REPAIR_CATALOG)[id])
  {
    ShippedRecipes(id);
    var a := Index(REPAIR_CATALOG)[id];
    if a.rollback == [] {
      NoRollbackUndoes(a);
    } else if a == LOWER_MTU {
      RollbackUndoesLowerMTU();
    } else if a == REAPPLY_ROUTES {
      RollbackUndoesReapplyRoutes();
    } else if a == RESTART_WIREGUARD {
      RollbackUndoesRestartWireGuard();
    } else {
      RollbackUndoesRebuildExit();
    }
  }

  /** The world after the first n entries of a plan. */
  ghost function WorldAfter(exec: Executor, phases: seq<Phases>, n: nat): World
    requires n <= |phases|
  {
    exec.world(Concat(phases[..n]))
  }

  /**
   Restoration, for the shipped catalogue, any plan and any pattern of failures: an entry whose report claims no
   lasting change left the system as it found it.
   */
  lemma ShippedRepairsRestore(haveContext: bool, env: Option<Env>, plan: seq<PlannedRepair>, exec: Executor,
                              reports: seq<RepairExecution>, phases: seq<Phases>, n: nat)
    requires Honest(exec)
    requires PlanOutcome(haveContext, env, plan, Some(exec), Index(REPAIR_CATALOG), reports, phases)
    requires n < |plan| && ClaimsRestored(reports[n].status)
    ensures WorldAfter(exec, phases, n + 1) == WorldAfter(exec, phases, n)
  {
    var byID, before := Index(REPAIR_CATALOG), Concat(phases[..n]);
    EntryOutcome(haveContext, env, plan, Some(exec), byID, reports, phases, n);
    assert phases[..n + 1][..n] == phases[..n];
    assert Concat(phases[..n + 1]) == before + phases[n].Flat();
    if Admitted(haveContext, env, plan[n], Some(exec), byID, Named(plan[..n])) {
      ShippedRollbacksUndo(plan[n].action);
      RepairRestores(exec, before, reports[n], phases[n], byID[plan[n].action], env.value);
    } else {
      assert before + phases[n].Flat() == before;
    }
  }

  // ----------------------------------------------------------------- MTU bound

  /** In the shipped catalogue only lower-mtu sets an MTU going forward, and it is guarded. */
  lemma OnlyLowerMTUSetsMTU(id: ActionID, s: Step)
    requires id in Index(REPAIR_CATALOG) && s in Index(REPAIR_CATALOG)[id].apply && s.op == SetMTU
    ensures Index(REPAIR_CATALOG)[id] == LOWER_MTU && s == LOWER_MTU.apply[0]
  {
    ShippedRecipes(id);
    var a := Index(REPAIR_CATALOG)[id];
    if a != LOWER_MTU {
      OthersSetNoMTU(a, s);
    }
  }

  lemma OthersSetNoMTU(a: RepairAction, s: Step)
    requires a in {FLUSH_DNS, RECONNECT, RESELECT_RELAY, REARM, REAPPLY_ROUTES, RESTART_WIREGUARD, REBUILD_EXIT}
    requires s in a.apply
    ensures s.op != SetMTU
  {
  }

  /** Some snapshot captured in the same execution shows room, on the link and on the path, for what the step asks. */
  ghost predicate WithinCapturedMTU(captures: History, step: Step) {
    && "mtu" in step.params && Atoi(step.params["mtu"]).Some?
    && exists i :: 0 <= i < |captures| && captures[i].Captured? && captures[i].data.Some?
                   && ShowsRoom(captures[i].data.value, Atoi(step.params["mtu"]).value)
  }

  /** In any plan run from the shipped catalogue a forward mtu.set stays within the MTUs captured just before it. */
  lemma ForwardMTUIsBounded(haveContext: bool, env: Option<Env>, plan: seq<PlannedRepair>, exec: Option<Executor>,
                            reports: seq<RepairExecution>, phases: seq<Phases>, n: nat)
    requires PlanOutcome(haveContext, env, plan, exec, Index(REPAIR_CATALOG), reports, phases) && n < |plan|
    ensures forall i :: 0 <= i < |phases[n].applies| ==>
              && phases[n].applies[i].Applied?
              && (phases[n].applies[i].step.op == SetMTU ==>
                    WithinCapturedMTU(phases[n].captures, phases[n].applies[i].step))
  {
    EntryOutcome(haveContext, env, plan, exec, Index(REPAIR_CATALOG), reports, phases, n);
    forall i | 0 <= i < |phases[n].applies|
      ensures phases[n].applies[i].Applied?
      ensures phases[n].applies[i].step.op == SetMTU ==>
                WithinCapturedMTU(phases[n].captures, phases[n].applies[i].step)
    {
      if phases[n].applies[i].step.op == SetMTU {
        EntryMTUIsBounded(env.value, plan[n].action, phases[n], i);
      }
    }
  }

  lemma EntryMTUIsBounded(env: Env, id: ActionID, p: Phases, i: nat)
    requires id in Index(REPAIR_CATALOG) && FollowsRecipe(p, Index(REPAIR_CATALOG)[id], env)
    requires i < |p.applies| && p.applies[i].Applied? && p.applies[i].step.op == SetMTU
    ensures WithinCapturedMTU(p.captures, p.applies[i].step)
  {
    var a := Index(REPAIR_CATALOG)[id];
    assert p.applies[i].step == a.apply[i] && a.apply[i] in a.apply;
    OnlyLowerMTUSetsMTU(id, a.apply[i]);
    LowerMTURequestsFloor();
    assert |p.captures| == |LOWER_MTU.snapshots| == 1 && p.captures[0] in p.captures;
    var d := p.captures[0].data.value;
    assert SnapsOf(p.captures) == [d];
    assert MTULowerExecuteGuard(env, a.apply, [d]);
    GuardPassesExactly(env, d);
  }
}
