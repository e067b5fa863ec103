/**
 One-use repair plans (NetworkDoctor in internal/daemon/doctor_api.go).

 Calls of Run and Repair interleave freely; each method below is one atomic section of such
 a call (a channel operation or a section under the mutex), so any order of them is a
 possible execution. The log records the sections that matter, in the order they happened.
 */
module DoctorPlans {
  import opened Optional

  type CallID = nat
  type Time = int
  type Action = string

  const PLAN_TTL: Time := 300_000

  /** SHA-256 of the token bytes, taken as injective. */
  datatype Digest = Digest(of: string)

  datatype Authorization = Authorization(digest: Digest, actions: set<Action>, expiresAt: Time)

  datatype PlanError = PlanRequired | PlanMismatch | PlanExpired | RepairNotApplicable | NoEntropy

  datatype Outcome = Granted | Refused(error: PlanError)

  /** Where a call that has acquired the slot stands. */
  datatype Phase =
    | RunStarting
    | RunDiagnosing
    | RunFinished
    | RepairStarting
    | RepairGranted(token: string, action: Action, at: Time)
    | RepairFinished

  datatype Event =
    | Took(call: CallID, run: bool)
    | Left(call: CallID)
    | PlanIssued(call: CallID, token: string, actions: set<Action>, expiresAt: Time)
    | GrantedUse(call: CallID, token: string, action: Action, at: Time)
    | Executed(call: CallID, token: string, action: Action)

  // ------------------------------------------------------------------ what a log must look like

  /** The call whose body is open after the log. */
  ghost function Holder(log: seq<Event>): (holder: Option<CallID>) {
    if log == [] then None
    else
      match log[|log| - 1]
      case Took(call, _) => Some(call)
      case Left(_) => None
      case _ => Holder(log[..|log| - 1])
  }

  /** Ends the life of every plan issued before it. */
  ghost predicate Supersedes(e: Event) {
    (e.Took? && e.run) || e.PlanIssued? || e.GrantedUse?
  }

  /** log[i] issued a plan that nothing has superseded. */
  ghost predicate LatestIssue(log: seq<Event>, i: nat) {
    i < |log| && log[i].PlanIssued? && forall k :: i < k < |log| ==> !Supersedes(log[k])
  }

  ghost predicate Authorises(issue: Event, use: Event) {
    issue.PlanIssued? && use.GrantedUse? && issue.token == use.token && use.action in issue.actions
    && use.at < issue.expiresAt
  }

  /** e may follow the log before. */
  ghost predicate Allowed(before: seq<Event>, e: Event) {
    && (if e.Took? then Holder(before).None? else Holder(before) == Some(e.call))
    && (e.GrantedUse? ==> exists i: nat :: LatestIssue(before, i) && Authorises(before[i], e))
    && (e.Executed? ==> before != [] && before[|before| - 1].GrantedUse? && before[|before| - 1].call == e.call
                        && before[|before| - 1].token == e.token && before[|before| - 1].action == e.action)
  }

  ghost predicate AllowedAt(log: seq<Event>, j: nat)
    requires j < |log|
  {
    Allowed(log[..j], log[j])
  }

  ghost predicate Sound(log: seq<Event>) {
    forall j: nat :: j < |log| ==> AllowedAt(log, j)
  }

  lemma SoundOneMore(log: seq<Event>, e: Event)
    requires Sound(log) && Allowed(log, e)
    ensures Sound(log + [e])
    ensures Holder(log + [e]) == match e { case Took(call, _) => Some(call) case Left(_) => None case _ => Holder(log) }
  {
    var longer := log + [e];
    assert longer[..|log|] == log;
    forall j: nat | j < |longer| ensures AllowedAt(longer, j) {
      assert longer[..j] == log[..j];
      assert j < |log| ==> AllowedAt(log, j);
    }
  }

  /**
   Every execution stands right behind its grant, and the grant uses the latest plan issued, for an action of it,
   before it expired.
   */
  lemma ExecutionIsAuthorised(log: seq<Event>, j: nat)
    requires Sound(log) && j < |log| && log[j].Executed?
    ensures j > 0 && log[j - 1].GrantedUse? && log[j - 1].action == log[j].action && log[j - 1].token == log[j].token
    ensures exists i: nat ::
              && i < j - 1 && log[i].PlanIssued? && log[i].token == log[j].token && log[j].action in log[i].actions
              && log[j - 1].at < log[i].expiresAt
              && forall m :: i < m < j - 1 ==>
                   !log[m].PlanIssued? && !log[m].GrantedUse? && !(log[m].Took? && log[m].run)
  {
    assert AllowedAt(log, j);
    assert log[..j][j - 1] == log[j - 1];
    var i := IssueOf(log, j - 1);
    assert forall m :: i < m < j - 1 ==> !Supersedes(log[m]);
  }

  /** The tokens drawn are all different. */
  ghost predicate TokensDiffer(log: seq<Event>) {
    forall i, k :: 0 <= i < k < |log| && log[i].PlanIssued? && log[k].PlanIssued? ==> log[i].token != log[k].token
  }

  /** No token is granted twice, so no token executes twice. */
  lemma TokenGrantsOnce(log: seq<Event>, j: nat, k: nat)
    requires Sound(log) && TokensDiffer(log)
    requires j < k < |log| && log[j].GrantedUse? && log[k].GrantedUse?
    ensures log[j].token != log[k].token
  {
    var first := IssueOf(log, j);
    var second := IssueOf(log, k);
    assert Supersedes(log[j]);
    assert first < j < second;
    assert log[first].PlanIssued? && log[second].PlanIssued?;
  }

  /** The plan a grant uses: nothing superseded it before the grant. */
  lemma IssueOf(log: seq<Event>, j: nat) returns (i: nat)
    requires Sound(log) && j < |log| && log[j].GrantedUse?
    ensures i < j && Authorises(log[i], log[j])
    ensures forall m :: i < m < j ==> !Supersedes(log[m])
  {
    assert AllowedAt(log, j);
    i :| LatestIssue(log[..j], i) && Authorises(log[..j][i], log[j]);
    forall m | i < m < j ensures !Supersedes(log[m]) {
      assert log[..j][m] == log[m];
    }
  }

  lemma TokenExecutesOnce(log: seq<Event>, j: nat, k: nat)
    requires Sound(log) && TokensDiffer(log)
    requires j < k < |log| && log[j].Executed? && log[k].Executed?
    ensures log[j].token != log[k].token
  {
    ExecutionIsAuthorised(log, j);
    ExecutionIsAuthorised(log, k);
    TokenGrantsOnce(log, j - 1, k - 1);
  }

  /** Bodies never overlap: between two acquisitions the first call has left. */
  lemma {:induction false} BodiesAreDisjoint(log: seq<Event>, j: nat, k: nat)
    requires Sound(log) && j < k < |log| && log[j].Took? && log[k].Took?
    ensures exists m :: j < m < k && log[m] == Left(log[j].call)
  {
    assert AllowedAt(log, k);
    HeldUntilLeft(log, j, k);
  }

  /** A call that took the slot at j still holds it before k, or has left in between. */
  lemma {:induction false} HeldUntilLeft(log: seq<Event>, j: nat, k: nat)
    requires Sound(log) && j < k <= |log| && log[j].Took?
    ensures Holder(log[..k]) == Some(log[j].call) || exists m :: j < m < k && log[m] == Left(log[j].call)
  {
    var last := log[k - 1];
    assert log[..k][k - 1] == last && log[..k][..k - 1] == log[..k - 1];
    if k - 1 > j {
      HeldUntilLeft(log, j, k - 1);
      assert AllowedAt(log, k - 1);
    }
  }

  /** plan is the latest one issued. */
  ghost predicate PlanIsLatest(plan: Authorization, log: seq<Event>) {
    exists i: nat :: LatestIssue(log, i) && IssuedAs(log[i], plan)
  }

  ghost predicate IssuedAs(e: Event, plan: Authorization) {
    e.PlanIssued? && e.token == plan.digest.of && e.actions == plan.actions && e.expiresAt == plan.expiresAt
  }

  lemma StillLatest(plan: Authorization, log: seq<Event>, e: Event)
    requires PlanIsLatest(plan, log) && !Supersedes(e)
    ensures PlanIsLatest(plan, log + [e])
  {
    var i: nat :| LatestIssue(log, i) && IssuedAs(log[i], plan);
    assert LatestIssue(log + [e], i);
  }

  class NetworkDoctor {
    var slot: bool
    var plan: Option<Authorization>
    /** Program counters of the calls that acquired the slot and have not released it. */
    var calls: map<CallID, Phase>
    ghost var log: seq<Event>

    /** The plan held is the latest issued, except that a Run which has just taken the slot has yet to clear it. */
    ghost predicate PlanValid()
      reads this
    {
      plan.Some? ==>
        if exists c :: c in calls && calls[c] == RunStarting
        then log != [] && PlanIsLatest(plan.value, log[..|log| - 1])
        else PlanIsLatest(plan.value, log)
    }

    ghost predicate PhaseValid(call: CallID, phase: Phase)
      reads this
    {
      && Holder(log) == Some(call)
      && (phase == RunDiagnosing ==> plan.None?)
      && (phase.RepairGranted? ==> log != [] && log[|log| - 1] == GrantedUse(call, phase.token, phase.action, phase.at))
    }

    ghost predicate Valid()
      reads this
    {
      && Sound(log)
      && (slot <==> calls != map[])
      && (!slot ==> Holder(log).None?)
      && (forall c :: c in calls ==> PhaseValid(c, calls[c]))
      && PlanValid()
    }

    /** At most one call is inside its body. */
    lemma MutualExclusion(c: CallID, d: CallID)
      requires Valid() && c in calls && d in calls
      ensures c == d
    {
      assert PhaseValid(c, calls[c]) && PhaseValid(d, calls[d]);
    }

    constructor ()
      ensures Valid() && !slot && plan.None? && log == [] && calls == map[]
    {
      slot, plan, calls, log := false, None, map[], [];
    }

    /** acquire, by a call of Run or Repair: takes the slot if it is free, and never waits. */
    method Acquire(call: CallID, run: bool) returns (ok: bool)
      requires Valid() && call !in calls
      modifies this
      ensures Valid() && plan == old(plan)
      ensures ok == !old(slot)
      ensures !ok ==> slot == old(slot) && calls == old(calls) && log == old(log)
      ensures ok ==> slot && calls == map[call := if run then RunStarting else RepairStarting]
      ensures ok ==> log == old(log) + [Took(call, run)]
    {
      if slot {
        return false;
      }
      slot := true;
      calls := calls[call := if run then RunStarting else RepairStarting];
      SoundOneMore(log, Took(call, run));
      if plan.Some? && !run {
        StillLatest(plan.value, log, Took(call, run));
      }
      ghost var before := log;
      log := log + [Took(call, run)];
      assert log[..|log| - 1] == before;
      assert call in calls;
      return true;
    }

    /** release, deferred by both kinds of call; the only way out of the slot. */
    method Release(call: CallID)
      requires Valid() && call in calls && calls[call] != RunStarting
      modifies this
      ensures Valid() && !slot && calls == map[] && plan == old(plan) && log == old(log) + [Left(call)]
    {
      assert PhaseValid(call, calls[call]);
      forall c | c in calls ensures c == call { MutualExclusion(c, call); }
      SoundOneMore(log, Left(call));
      if plan.Some? {
        StillLatest(plan.value, log, Left(call));
      }
      slot := false;
      calls := calls - {call};
      log := log + [Left(call)];
    }

    /** Run, first section after acquire: clearPlan, before any probe runs. */
    method BeginDiagnosis(call: CallID)
      requires Valid() && call in calls && calls[call] == RunStarting
      modifies this
      ensures Valid() && plan.None? && calls == old(calls)[call := RunDiagnosing] && log == old(log)
              && slot == old(slot)
    {
      assert PhaseValid(call, calls[call]);
      forall c | c in calls ensures c == call { MutualExclusion(c, call); }
      plan := None;
      calls := calls[call := RunDiagnosing];
    }

    /** The supported actions of a plan. */
    static method Supported(actions: seq<Action>, supported: Action -> bool) returns (allowed: set<Action>)
      ensures allowed == set a | a in actions && supported(a)
    {
      allowed := {};
      for i := 0 to |actions|
        invariant allowed == set a | a in actions[..i] && supported(a)
      {
        assert actions[..i + 1] == actions[..i] + [actions[i]];
        if supported(actions[i]) {
          allowed := allowed + {actions[i]};
        }
      }
      assert actions[..|actions|] == actions;
    }

    /** Run, last section: issuePlan when some repair is available, clearPlan otherwise. */
    method FinishDiagnosis(call: CallID, available: seq<Action>, supported: Action -> bool, token: string,
                           entropyOK: bool, now: Time)
        returns (r: Outcome)
      requires Valid() && call in calls && calls[call] == RunDiagnosing
      modifies this
      ensures Valid() && calls == old(calls)[call := RunFinished] && slot == old(slot)
      ensures r == Granted && available != [] ==>
                var allowed := set a | a in available && supported(a);
                && allowed != {} && plan == Some(Authorization(Digest(token), allowed, now + 300_000))
                && log == old(log) + [PlanIssued(call, token, allowed, now + 300_000)]
      ensures r.Refused? || available == [] ==> plan.None? && log == old(log)
      ensures r.Refused? <==> available != [] && (!entropyOK || forall a :: a in available ==> !supported(a))
    {
      assert PhaseValid(call, calls[call]);
      forall c | c in calls ensures c == call { MutualExclusion(c, call); }
      calls := calls[call := RunFinished];
      if |available| == 0 {
        plan := None;
        return Granted;
      }
      if !entropyOK {
        return Refused(NoEntropy);
      }
      var allowed := Supported(available, supported);
      if allowed == {} {
        assert forall a :: a in available && supported(a) ==> a in allowed;
        return Refused(RepairNotApplicable);
      }
      plan := Some(Authorization(Digest(token), allowed, now + PLAN_TTL));
      ghost var issue := PlanIssued(call, token, allowed, now + PLAN_TTL);
      SoundOneMore(log, issue);
      log := log + [issue];
      assert LatestIssue(log, |log| - 1) && IssuedAs(log[|log| - 1], plan.value);
      return Granted;
    }

    /**
     consumePlan: the plan is used up by the execution it grants, and by expiry; a wrong token or action leaves it
     alone.
     */
    method ConsumePlan(call: CallID, token: string, wellFormed: bool, action: Action, now: Time, contextLive: bool)
        returns (r: Outcome)
      requires Valid() && call in calls && calls[call] == RepairStarting
      modifies this
      ensures Valid() && slot == old(slot)
      ensures r == Granted <==> && token != "" && wellFormed && contextLive && old(plan).Some?
                                && old(plan).value.digest == Digest(token) && action in old(plan).value.actions
                                && now < old(plan).value.expiresAt
      ensures r == Granted ==> plan.None? && log == old(log) + [GrantedUse(call, token, action, now)]
      ensures r == Granted ==> calls == old(calls)[call := RepairGranted(token, action, now)]
      ensures r.Refused? ==> log == old(log) && calls == old(calls)[call := RepairFinished]
      ensures r == Refused(PlanRequired) <==> token == "" || (wellFormed && old(plan).None?)
      ensures r == Refused(PlanExpired) <==> token != "" && wellFormed && old(plan).Some? && plan.None? && r != Granted
      ensures r.Refused? ==>
                plan == if token != "" && wellFormed && old(plan).Some?
                           && (now >= old(plan).value.expiresAt || !contextLive)
                        then None else old(plan)
    {
      assert PhaseValid(call, calls[call]);
      forall c | c in calls ensures c == call { MutualExclusion(c, call); }
      calls := calls[call := RepairFinished];
      if token == "" {
        return Refused(PlanRequired);
      }
      if !wellFormed {
        return Refused(PlanMismatch);
      }
      if plan.None? {
        return Refused(PlanRequired);
      }
      var current := plan.value;
      if now >= current.expiresAt || !contextLive {
        plan := None;
        return Refused(PlanExpired);
      }
      if current.digest != Digest(token) || action !in current.actions {
        return Refused(PlanMismatch);
      }
      plan := None;
      ghost var use := GrantedUse(call, token, action, now);
      ghost var i: nat :| LatestIssue(log, i) && IssuedAs(log[i], current);
      assert Authorises(log[i], use);
      SoundOneMore(log, use);
      log := log + [use];
      calls := calls[call := RepairGranted(token, action, now)];
      return Granted;
    }

    /** Repair, after the plan is consumed: the freshly made plan is executed if the action still applies. */
    method ExecuteGranted(call: CallID, stillApplicable: bool) returns (r: Outcome)
      requires Valid() && call in calls && calls[call].RepairGranted?
      modifies this
      ensures Valid() && plan == old(plan) && slot == old(slot) && calls == old(calls)[call := RepairFinished]
      ensures r == if stillApplicable then Granted else Refused(RepairNotApplicable)
      ensures var granted := old(calls)[call];
              log == if stillApplicable then old(log) + [Executed(call, granted.token, granted.action)] else old(log)
    {
      var phase := calls[call];
      assert PhaseValid(call, phase);
      forall c | c in calls ensures c == call { MutualExclusion(c, call); }
      calls := calls[call := RepairFinished];
      if !stillApplicable {
        return Refused(RepairNotApplicable);
      }
      ghost var done := Executed(call, phase.token, phase.action);
      SoundOneMore(log, done);
      if plan.Some? {
        StillLatest(plan.value, log, done);
      }
      log := log + [done];
      return Granted;
    }

    /** A section that its call is not ready for does not happen. */
    method Perform(op: Section)
      requires Valid()
      modifies this
      ensures Valid() && old(log) <= log
    {
      match op {
        case Enter(call, run) =>
          if call !in calls { var ok := Acquire(call, run); }
        case Leave(call) =>
          if call in calls && calls[call] != RunStarting { Release(call); }
        case Begin(call) =>
          if call in calls && calls[call] == RunStarting { BeginDiagnosis(call); }
        case Finish(call, available, supported, token, entropyOK, now) =>
          if call in calls && calls[call] == RunDiagnosing {
            var r := FinishDiagnosis(call, available, supported, token, entropyOK, now);
          }
        case Consume(call, token, wellFormed, action, now, contextLive) =>
          if call in calls && calls[call] == RepairStarting {
            var r := ConsumePlan(call, token, wellFormed, action, now, contextLive);
          }
        case Execute(call, stillApplicable) =>
          if call in calls && calls[call].RepairGranted? { var r := ExecuteGranted(call, stillApplicable); }
      }
    }

    /** Any interleaving of the sections of any calls leaves a sound log that only grew. */
    method Interleave(sections: seq<Section>)
      requires Valid()
      modifies this
      ensures Valid() && old(log) <= log && Sound(log)
    {
      for i := 0 to |sections|
        invariant Valid() && old(log) <= log
      {
        Perform(sections[i]);
      }
    }
  }

  datatype Section =
    | Enter(call: CallID, run: bool)
    | Leave(call: CallID)
    | Begin(call: CallID)
    | Finish(call: CallID, available: seq<Action>, supported: Action -> bool, token: string, entropyOK: bool, now: Time)
    | Consume(call: CallID, token: string, wellFormed: bool, action: Action, now: Time, contextLive: bool)
    | Execute(call: CallID, stillApplicable: bool)
}
