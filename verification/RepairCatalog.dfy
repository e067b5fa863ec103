/**
 The declarative repair catalogue (internal/diagnose/repair.go): recipes as data, the
 invariants validateCatalog enforces, the read-only planner and the shipped recipes.
 */
module RepairCatalog {
  import opened Optional
  import opened Decimal

  // ---------------------------------------------------------------- data model

  datatype RepairOp =
    | FlushDNS | ReconnectCoord | ReselectRelay | RearmKillSwitch
    | SetMTU | ReapplyRoutes | RestartWireGuard | ClearExit
    | RestoreRoutes | RestoreWGConfig | SetExit
    | OtherOp(name: string)

  predicate AllowedOp(op: RepairOp) { !op.OtherOp? }

  datatype PostconditionID =
    | DNSResolves | CoordinatorConnected | RelayReachable | KillSwitchArmed
    | MTUPathSafe | DefaultRoutePresent | WireGuardUp | ExitRoutePresent
    | OtherPostcondition(name: string)

  predicate AllowedPostcondition(id: PostconditionID) { !id.OtherPostcondition? }

  datatype ActionID =
    | ActionFlushDNS | ActionReconnectCoordinator | ActionReselectRelay | ActionLowerMTU
    | ActionReapplyRoutes | ActionRestartWireGuard | ActionRearmKillSwitch | ActionRebuildExit
    | OtherAction(name: string)

  predicate AllowedAction(id: ActionID) { !id.OtherAction? }

  /** The registered finding codes the catalogue names, any other registered one, and unregistered text. */
  datatype Code =
    | DNSPoisonSuspected | DNSTimeout | DNSNoAnswer
    | CoordinatorUnreachable | CoordinatorUnhealthy | CoordinatorTLSError
    | RelayNoneReachable | RelayUnreachable | IPv6LeakRisk | MTUSuboptimal
    | RoutesDefaultMissing | RoutesExitDefaultAbsent | RoutesPhysicalFallback
    | WireGuardInterfaceDown | WireGuardHandshakeStale | ExitHandshakeStale
    | ExitEgressBlocked | ExitRouteMissing
    | RegisteredCode(name: string)
    | UnregisteredCode(text: string)
  {
    predicate Known() { !UnregisteredCode? }
  }

  type Params = map<string, string>

  const FROM_SNAPSHOT := "from_snapshot"
  const MTU_PARAM := "mtu"

  datatype Step = Step(op: RepairOp, params: Params, desc: string) {
    /** The snapshot kind a restore step reads; "" when it reads none. */
    function Source(): string {
      if FROM_SNAPSHOT in params then params[FROM_SNAPSHOT] else ""
    }
  }

  datatype SnapshotRequest = SnapshotRequest(kind: string, desc: string)

  datatype SnapshotData = SnapshotData(kind: string, values: map<string, string>)

  /** The part of the execution environment that preconditions and guards read. */
  datatype Env = Env(hasResolver: bool, dnsServers: nat, wgInterface: string, exitSelected: bool,
                     relays: nat, coordHost: string, observedPathMTU: int, linkMTU: int)

  datatype Precondition = Precondition(id: string, check: Env -> bool)

  type Guard = (Env, seq<Step>, seq<SnapshotData>) -> bool

  datatype RepairAction = RepairAction(
    id: ActionID,
    fixes: seq<Code>,
    idempotent: bool,
    preconditions: seq<Precondition>,
    snapshots: seq<SnapshotRequest>,
    apply: seq<Step>,
    rollback: seq<Step>,
    postconditions: seq<PostconditionID>,
    executeGuard: Option<Guard>)

  datatype PlannedRepair = PlannedRepair(
    action: ActionID,
    addresses: seq<Code>,
    applicable: bool,
    snapshots: seq<SnapshotRequest>,
    apply: seq<Step>,
    rollback: seq<Step>,
    postconditions: seq<PostconditionID>)

  // ------------------------------------------------- preconditions and the guard

  const REPAIR_FLOOR_MTU := 1280
  const MTU_KIND := "mtu"
  const LINK_MTU_KEY := "link_mtu"
  const PATH_MTU_KEY := "path_mtu"

  predicate PcDNSCapable(env: Env) { env.hasResolver || env.dnsServers > 0 }
  predicate PcWireGuardConfigured(env: Env) { env.wgInterface != "" }
  predicate PcExitSelected(env: Env) { env.exitSelected }
  predicate PcRelayConfigured(env: Env) { env.relays > 0 }
  predicate PcCoordConfigured(env: Env) { env.coordHost != "" }

  predicate PcMTULowerSafe(env: Env) {
    && env.observedPathMTU > 0 && env.linkMTU > 0
    && REPAIR_FLOOR_MTU <= env.observedPathMTU && REPAIR_FLOOR_MTU <= env.linkMTU
  }

  function PositiveInt(s: string): Option<int> {
    match Atoi(s)
    case None => None
    case Some(n) => if n <= 0 then None else Some(n)
  }

  /** The MTU the first mtu.set step with an "mtu" parameter asks for. */
  function RequestedSetMTU(apply: seq<Step>): Option<int> {
    if apply == [] then None
    else if apply[0].op == SetMTU && MTU_PARAM in apply[0].params then PositiveInt(apply[0].params[MTU_PARAM])
    else RequestedSetMTU(apply[1..])
  }

  /** A positive MTU in the first captured snapshot of the kind. */
  function CapturedMTU(snaps: seq<SnapshotData>, kind: string, key: string): Option<int> {
    if snaps == [] then None
    else if snaps[0].kind == kind then
      if key in snaps[0].values then PositiveInt(snaps[0].values[key]) else None
    else CapturedMTU(snaps[1..], kind, key)
  }

  predicate MTULowerExecuteGuard(env: Env, apply: seq<Step>, snaps: seq<SnapshotData>) {
    match (RequestedSetMTU(apply), CapturedMTU(snaps, MTU_KIND, LINK_MTU_KEY),
           CapturedMTU(snaps, MTU_KIND, PATH_MTU_KEY))
    case (Some(requested), Some(link), Some(path)) => requested <= link && requested <= path
    case _ => false
  }

  // --------------------------------------------------------- catalogue validity

  ghost predicate CapturesKind(a: RepairAction, kind: string) {
    exists i :: 0 <= i < |a.snapshots| && a.snapshots[i].kind == kind
  }

  /** A step is allowlisted and reads only a snapshot its action captures. */
  ghost predicate ValidStep(a: RepairAction, s: Step) {
    && !s.op.OtherOp?
    && ("from_snapshot" in s.params && s.params["from_snapshot"] != "" ==> CapturesKind(a, s.params["from_snapshot"]))
  }

  ghost predicate ValidAction(a: RepairAction) {
    && !a.id.OtherAction?
    && a.fixes != [] && (forall c :: c in a.fixes ==> !c.UnregisteredCode?)
    && (forall s :: s in a.snapshots ==> s.kind != "")
    && (a.idempotent ==> a.snapshots == [] && a.rollback == [])
    && (!a.idempotent ==> a.snapshots != [] && a.rollback != [])
    && a.apply != []
    && (forall s :: s in a.apply ==> ValidStep(a, s))
    && (forall s :: s in a.rollback ==> ValidStep(a, s))
    && a.postconditions != []
    && (forall id :: id in a.postconditions ==> !id.OtherPostcondition?)
    && (forall i, j :: 0 <= i < j < |a.postconditions| ==> a.postconditions[i] != a.postconditions[j])
  }

  ghost predicate ValidCatalog(catalog: seq<RepairAction>) {
    && (forall i :: 0 <= i < |catalog| ==> ValidAction(catalog[i]))
    && (forall i, j :: 0 <= i < j < |catalog| ==> catalog[i].id != catalog[j].id)
  }

  /** The per-action half of validateCatalog. */
  method CheckAction(a: RepairAction) returns (ok: bool)
    ensures ok <==> ValidAction(a)
  {
    if !AllowedAction(a.id) || |a.fixes| == 0 { return false; }
    for i := 0 to |a.fixes|
      invariant forall k :: 0 <= k < i ==> !a.fixes[k].UnregisteredCode?
    {
      if !a.fixes[i].Known() { assert a.fixes[i] in a.fixes; return false; }
    }
    var kinds: set<string> := {};
    for i := 0 to |a.snapshots|
      invariant forall k :: 0 <= k < i ==> a.snapshots[k].kind != "" && a.snapshots[k].kind in kinds
      invariant forall kind :: kind in kinds ==> CapturesKind(a, kind)
    {
      if a.snapshots[i].kind == "" { assert a.snapshots[i] in a.snapshots; return false; }
      kinds := kinds + {a.snapshots[i].kind};
    }
    assert forall kind :: kind in kinds <==> CapturesKind(a, kind);
    if a.idempotent {
      if |a.snapshots| != 0 || |a.rollback| != 0 { return false; }
    } else {
      if |a.snapshots| == 0 || |a.rollback| == 0 { return false; }
    }
    ok := CheckSteps(a, a.apply + a.rollback, kinds);
    assert forall s :: s in a.apply + a.rollback <==> s in a.apply || s in a.rollback;
    if !ok { return false; }
    if |a.apply| == 0 || |a.postconditions| == 0 { return false; }
    ok := CheckPostconditionIDs(a.postconditions);
  }

  method CheckSteps(a: RepairAction, steps: seq<Step>, kinds: set<string>) returns (ok: bool)
    requires forall kind :: kind in kinds <==> CapturesKind(a, kind)
    ensures ok <==> forall s :: s in steps ==> ValidStep(a, s)
  {
    for i := 0 to |steps|
      invariant forall k :: 0 <= k < i ==> ValidStep(a, steps[k])
    {
      var s := steps[i];
      assert s in steps;
      if !AllowedOp(s.op) { return false; }
      if s.Source() != "" && s.Source() !in kinds { return false; }
    }
    return true;
  }

  method CheckPostconditionIDs(ids: seq<PostconditionID>) returns (ok: bool)
    ensures ok <==> (forall id :: id in ids ==> !id.OtherPostcondition?)
                    && (forall i, j :: 0 <= i < j < |ids| ==> ids[i] != ids[j])
  {
    var seen: set<PostconditionID> := {};
    for i := 0 to |ids|
      invariant seen == set k | 0 <= k < i :: ids[k]
      invariant forall k :: 0 <= k < i ==> !ids[k].OtherPostcondition?
      invariant forall j, k :: 0 <= j < k < i ==> ids[j] != ids[k]
    {
      if !AllowedPostcondition(ids[i]) { assert ids[i] in ids; return false; }
      if ids[i] in seen { return false; }
      seen := seen + {ids[i]};
    }
    return true;
  }

  /** validateCatalog accepts exactly the valid catalogues. */
  method ValidateCatalog(catalog: seq<RepairAction>) returns (ok: bool)
    ensures ok <==> ValidCatalog(catalog)
  {
    var seen: set<ActionID> := {};
    for i := 0 to |catalog|
      invariant seen == set k | 0 <= k < i :: catalog[k].id
      invariant forall k :: 0 <= k < i ==> ValidAction(catalog[k])
      invariant forall j, k :: 0 <= j < k < i ==> catalog[j].id != catalog[k].id
    {
      if catalog[i].id in seen { return false; }
      var good := CheckAction(catalog[i]);
      if !good { return false; }
      seen := seen + {catalog[i].id};
    }
    return true;
  }

  /** repairByID: the index built once from the catalogue, later entries winning. */
  function Index(catalog: seq<RepairAction>): (m: map<ActionID, RepairAction>) {
    if catalog == [] then map[]
    else
      var last := catalog[|catalog| - 1];
      Index(catalog[..|catalog| - 1])[last.id := last]
  }

  /** In a catalogue without duplicate ids the index holds exactly the recipes. */
  lemma {:induction false} IndexIsCatalog(catalog: seq<RepairAction>)
    requires forall i, j :: 0 <= i < j < |catalog| ==> catalog[i].id != catalog[j].id
    ensures forall i :: 0 <= i < |catalog| ==>
              catalog[i].id in Index(catalog) && Index(catalog)[catalog[i].id] == catalog[i]
    ensures forall id :: id in Index(catalog) ==> Index(catalog)[id] in catalog && Index(catalog)[id].id == id
  {
    if catalog != [] {
      IndexIsCatalog(catalog[..|catalog| - 1]);
    }
  }

  // ------------------------------------------------------------------ planning

  /** The planner's copy of a recipe. */
  ghost predicate CopiesRecipe(pr: PlannedRepair, a: RepairAction) {
    && pr.action == a.id && pr.snapshots == a.snapshots && pr.apply == a.apply
    && pr.rollback == a.rollback && pr.postconditions == a.postconditions
  }

  ghost predicate PreconditionsHold(a: RepairAction, env: Env) {
    forall i :: 0 <= i < |a.preconditions| ==> a.preconditions[i].check(env)
  }

  method CheckPreconditions(a: RepairAction, env: Env) returns (ok: bool)
    ensures ok <==> PreconditionsHold(a, env)
  {
    for i := 0 to |a.preconditions|
      invariant forall k :: 0 <= k < i ==> a.preconditions[k].check(env)
    {
      if !a.preconditions[i].check(env) { return false; }
    }
    return true;
  }

  /** The findings an action addresses. */
  method Addressed(fixes: seq<Code>, present: set<Code>) returns (addressed: seq<Code>)
    ensures forall c :: c in addressed <==> c in fixes && c in present
  {
    addressed := [];
    for i := 0 to |fixes|
      invariant forall c :: c in addressed <==> c in fixes[..i] && c in present
    {
      assert fixes[..i + 1] == fixes[..i] + [fixes[i]];
      if fixes[i] in present { addressed := addressed + [fixes[i]]; }
    }
    assert fixes[..|fixes|] == fixes;
  }

  /**
   The repairs are made from the catalogue entries origin[0] < origin[1] < ..., which are all that address a present
   finding.
   */
  ghost predicate PlannedFrom(repairs: seq<PlannedRepair>, origin: seq<nat>, catalog: seq<RepairAction>, n: nat,
                              env: Env, present: set<Code>)
    requires n <= |catalog|
  {
    && |origin| == |repairs|
    && (forall k :: 0 <= k < |repairs| ==> origin[k] < n && PlannedAs(repairs[k], catalog[origin[k]], env, present))
    && (forall j, k :: 0 <= j < k < |origin| ==> origin[j] < origin[k])
    && (forall i :: 0 <= i < n ==> (i in origin <==> exists c :: c in catalog[i].fixes && c in present))
  }

  ghost predicate PlannedAs(pr: PlannedRepair, a: RepairAction, env: Env, present: set<Code>) {
    && CopiesRecipe(pr, a) && (pr.applicable <==> PreconditionsHold(a, env))
    && pr.addresses != [] && (forall c :: c in pr.addresses <==> c in a.fixes && c in present)
  }

  /** Plan: one entry, copied from the catalogue, for exactly the actions that address a present finding. */
  method Plan(catalog: seq<RepairAction>, env: Env, present: set<Code>) returns (repairs: seq<PlannedRepair>)
    ensures exists origin :: PlannedFrom(repairs, origin, catalog, |catalog|, env, present)
  {
    repairs := [];
    ghost var origin: seq<nat> := [];
    for i := 0 to |catalog|
      invariant PlannedFrom(repairs, origin, catalog, i, env, present)
    {
      var a := catalog[i];
      var addressed := Addressed(a.fixes, present);
      if |addressed| != 0 {
        assert addressed[0] in addressed;
        var applicable := CheckPreconditions(a, env);
        repairs := repairs +
          [PlannedRepair(a.id, addressed, applicable, a.snapshots, a.apply, a.rollback, a.postconditions)];
        origin := origin + [i];
      } else {
        assert forall c :: c in a.fixes && c in present ==> c in addressed;
      }
    }
  }

  // -------------------------------------------------------- the shipped catalogue

  function RestoreStep(op: RepairOp, kind: string, desc: string): Step {
    Step(op, map[FROM_SNAPSHOT := kind], desc)
  }

  function PlainStep(op: RepairOp, desc: string): Step {
    Step(op, map[], desc)
  }

  const ROUTES_KIND := "routes"
  const WIREGUARD_KIND := "wireguard-config"
  const EXIT_KIND := "exit-selection"

  const PRE_DNS := Precondition("dns_capable", PcDNSCapable)
  const PRE_WIREGUARD := Precondition("wireguard_configured", PcWireGuardConfigured)
  const PRE_EXIT := Precondition("exit_selected", PcExitSelected)
  const PRE_RELAY := Precondition("relay_configured", PcRelayConfigured)
  const PRE_COORD := Precondition("coordinator_configured", PcCoordConfigured)
  const PRE_MTU := Precondition("mtu_lower_safe", PcMTULowerSafe)

  function Idempotent(id: ActionID, fixes: seq<Code>, pre: Precondition, op: RepairOp, desc: string,
                      post: PostconditionID): RepairAction
  {
    RepairAction(id, fixes, true, [pre], [], [PlainStep(op, desc)], [], [post], None)
  }

  const FLUSH_DNS := Idempotent(
    ActionFlushDNS, [DNSPoisonSuspected, DNSTimeout, DNSNoAnswer], PRE_DNS,
    FlushDNS, "flush cached DNS answers", DNSResolves)

  const RECONNECT := Idempotent(
    ActionReconnectCoordinator, [CoordinatorUnreachable, CoordinatorUnhealthy, CoordinatorTLSError], PRE_COORD,
    ReconnectCoord, "re-establish the coordinator connection", CoordinatorConnected)

  const RESELECT_RELAY := Idempotent(
    ActionReselectRelay, [RelayNoneReachable, RelayUnreachable], PRE_RELAY,
    ReselectRelay, "choose a reachable relay from the configured set", RelayReachable)

  const REARM := Idempotent(
    ActionRearmKillSwitch, [IPv6LeakRisk], PRE_EXIT,
    RearmKillSwitch, "re-apply fail-closed filtering including IPv6", KillSwitchArmed)

  const LOWER_MTU := RepairAction(
    ActionLowerMTU, [MTUSuboptimal], false, [PRE_WIREGUARD, PRE_MTU],
    [SnapshotRequest(MTU_KIND, "current interface MTU")],
    [Step(SetMTU, map[MTU_PARAM := "1280"], "set the tunnel MTU to the path-safe floor")],
    [RestoreStep(SetMTU, MTU_KIND, "restore the prior MTU")],
    [MTUPathSafe], Some(MTULowerExecuteGuard))

  const REAPPLY_ROUTES := RepairAction(
    ActionReapplyRoutes, [RoutesDefaultMissing, RoutesExitDefaultAbsent, RoutesPhysicalFallback],
    false, [PRE_WIREGUARD],
    [SnapshotRequest(ROUTES_KIND, "current routing table")],
    [PlainStep(ReapplyRoutes, "recompute and install tunnel routes from the netmap")],
    [RestoreStep(RestoreRoutes, ROUTES_KIND, "restore the captured routing table")],
    [DefaultRoutePresent], None)

  const RESTART_WIREGUARD := RepairAction(
    ActionRestartWireGuard, [WireGuardInterfaceDown, WireGuardHandshakeStale, ExitHandshakeStale],
    false, [PRE_WIREGUARD],
    [SnapshotRequest(WIREGUARD_KIND, "current WireGuard configuration")],
    [PlainStep(RestartWireGuard, "tear down and rebuild the WireGuard interface")],
    [RestoreStep(RestoreWGConfig, WIREGUARD_KIND, "restore the captured WireGuard configuration")],
    [WireGuardUp], None)

  const REBUILD_EXIT := RepairAction(
    ActionRebuildExit, [ExitEgressBlocked, ExitRouteMissing], false, [PRE_EXIT],
    [SnapshotRequest(EXIT_KIND, "currently selected exit")],
    [PlainStep(ClearExit, "withdraw the current exit routes"),
     RestoreStep(SetExit, EXIT_KIND, "re-select the same exit to rebuild its path")],
    [RestoreStep(SetExit, EXIT_KIND, "re-select the captured exit")],
    [ExitRoutePresent], None)

  const REPAIR_CATALOG: seq<RepairAction> :=
    [FLUSH_DNS, RECONNECT, RESELECT_RELAY, REARM, LOWER_MTU, REAPPLY_ROUTES, RESTART_WIREGUARD, REBUILD_EXIT]

  /** A recipe with one snapshot whose steps read at most that snapshot is valid. */
  lemma SnapshottedIsValid(a: RepairAction, kind: string, desc: string)
    requires AllowedAction(a.id) && !a.idempotent && kind != ""
    requires a.fixes != [] && forall c :: c in a.fixes ==> c.Known()
    requires a.snapshots == [SnapshotRequest(kind, desc)]
    requires a.apply != [] && a.rollback != []
    requires forall s :: s in a.apply + a.rollback ==> AllowedOp(s.op) && (s.Source() == "" || s.Source() == kind)
    requires |a.postconditions| == 1 && AllowedPostcondition(a.postconditions[0])
    ensures ValidAction(a)
  {
    assert a.snapshots[0].kind == kind;
    assert CapturesKind(a, kind);
    assert forall s :: s in a.apply ==> s in a.apply + a.rollback;
    assert forall s :: s in a.rollback ==> s in a.apply + a.rollback;
  }

  lemma LowerMTUIsValid()
    ensures ValidAction(LOWER_MTU)
  {
    SnapshottedIsValid(LOWER_MTU, MTU_KIND, "current interface MTU");
  }

  lemma ReapplyRoutesIsValid()
    ensures ValidAction(REAPPLY_ROUTES)
  {
    SnapshottedIsValid(REAPPLY_ROUTES, ROUTES_KIND, "current routing table");
  }

  lemma RestartWireGuardIsValid()
    ensures ValidAction(RESTART_WIREGUARD)
  {
    SnapshottedIsValid(RESTART_WIREGUARD, WIREGUARD_KIND, "current WireGuard configuration");
  }

  lemma RebuildExitIsValid()
    ensures ValidAction(REBUILD_EXIT)
  {
    SnapshottedIsValid(REBUILD_EXIT, EXIT_KIND, "currently selected exit");
  }

  lemma IdempotentRecipesAreValid()
    ensures ValidAction(FLUSH_DNS) && ValidAction(RECONNECT) && ValidAction(RESELECT_RELAY) && ValidAction(REARM)
  {
  }

  /** The shipped catalogue satisfies every invariant validateCatalog checks. */
  lemma ShippedCatalogIsValid()
    ensures ValidCatalog(REPAIR_CATALOG)
  {
    ShippedRecipesAreValid();
    ListIsValid(FLUSH_DNS, RECONNECT, RESELECT_RELAY, REARM, LOWER_MTU, REAPPLY_ROUTES, RESTART_WIREGUARD,
                REBUILD_EXIT);
  }

  lemma ListIsValid(a: RepairAction, b: RepairAction, c: RepairAction, d: RepairAction,
                    e: RepairAction, f: RepairAction, g: RepairAction, h: RepairAction)
    requires ValidAction(a) && ValidAction(b) && ValidAction(c) && ValidAction(d)
    requires ValidAction(e) && ValidAction(f) && ValidAction(g) && ValidAction(h)
    requires a.id == ActionFlushDNS && b.id == ActionReconnectCoordinator && c.id == ActionReselectRelay
    requires d.id == ActionRearmKillSwitch && e.id == ActionLowerMTU && f.id == ActionReapplyRoutes
    requires g.id == ActionRestartWireGuard && h.id == ActionRebuildExit
    ensures ValidCatalog([a, b, c, d, e, f, g, h])
  {
    var catalog := [a, b, c, d, e, f, g, h];
    forall i | 0 <= i < |catalog| ensures Place(catalog[i].id) == i {
    }
  }

  ghost function Place(id: ActionID): int {
    match id
    case ActionFlushDNS => 0
    case ActionReconnectCoordinator => 1
    case ActionReselectRelay => 2
    case ActionRearmKillSwitch => 3
    case ActionLowerMTU => 4
    case ActionReapplyRoutes => 5
    case ActionRestartWireGuard => 6
    case ActionRebuildExit => 7
    case OtherAction(_) => 8
  }

  lemma ShippedRecipesAreValid()
    ensures ValidAction(FLUSH_DNS) && ValidAction(RECONNECT) && ValidAction(RESELECT_RELAY) && ValidAction(REARM)
    ensures ValidAction(LOWER_MTU) && ValidAction(REAPPLY_ROUTES)
    ensures ValidAction(RESTART_WIREGUARD) && ValidAction(REBUILD_EXIT)
  {
    IdempotentRecipesAreValid();
    LowerMTUIsValid();
    ReapplyRoutesIsValid();
    RestartWireGuardIsValid();
    RebuildExitIsValid();
  }

  /** What each shipped recipe needs of the environment before it may run. */
  lemma ShippedRepairsNeed(env: Env)
    ensures PreconditionsHold(FLUSH_DNS, env) <==> env.hasResolver || env.dnsServers > 0
    ensures PreconditionsHold(RECONNECT, env) <==> env.coordHost != ""
    ensures PreconditionsHold(RESELECT_RELAY, env) <==> env.relays > 0
    ensures PreconditionsHold(REARM, env) <==> env.exitSelected
    ensures PreconditionsHold(LOWER_MTU, env) <==>
            env.wgInterface != "" && env.observedPathMTU >= 1280 && env.linkMTU >= 1280
    ensures PreconditionsHold(REAPPLY_ROUTES, env) <==> env.wgInterface != ""
    ensures PreconditionsHold(RESTART_WIREGUARD, env) <==> env.wgInterface != ""
    ensures PreconditionsHold(REBUILD_EXIT, env) <==> env.exitSelected
  {
    OnlyNeeds(FLUSH_DNS, env);
    OnlyNeeds(RECONNECT, env);
    OnlyNeeds(RESELECT_RELAY, env);
    OnlyNeeds(REARM, env);
    OnlyNeeds(REAPPLY_ROUTES, env);
    OnlyNeeds(RESTART_WIREGUARD, env);
    OnlyNeeds(REBUILD_EXIT, env);
    assert LOWER_MTU.preconditions[0] == PRE_WIREGUARD && LOWER_MTU.preconditions[1] == PRE_MTU;
  }

  lemma OnlyNeeds(a: RepairAction, env: Env)
    requires |a.preconditions| == 1
    ensures PreconditionsHold(a, env) <==> a.preconditions[0].check(env)
  {
  }

  /** A captured snapshot shows, under both keys, an MTU of at least the one asked for. */
  ghost predicate ShowsRoom(d: SnapshotData, mtu: int) {
    && d.kind == "mtu" && "link_mtu" in d.values && "path_mtu" in d.values
    && (match (Atoi(d.values["link_mtu"]), Atoi(d.values["path_mtu"]))
        case (Some(link), Some(path)) => mtu <= link && mtu <= path
        case _ => false)
  }

  /** The guard of the shipped MTU repair passes exactly on a snapshot with room for 1280. */
  lemma GuardPassesExactly(env: Env, d: SnapshotData)
    ensures MTULowerExecuteGuard(env, LOWER_MTU.apply, [d]) <==> ShowsRoom(d, 1280)
  {
    LowerMTURequestsFloor();
    assert CapturedMTU([], MTU_KIND, LINK_MTU_KEY) == None && CapturedMTU([], MTU_KIND, PATH_MTU_KEY) == None;
    assert [d][1..] == [];
  }

  /** The floor the shipped MTU repair asks for is the constant the precondition tests. */
  lemma LowerMTURequestsFloor()
    ensures RequestedSetMTU(LOWER_MTU.apply) == Some(1280)
    ensures "mtu" in LOWER_MTU.apply[0].params && Atoi(LOWER_MTU.apply[0].params["mtu"]) == Some(1280)
  {
    assert Digits("", 1280) == Some(1280);
    assert "1280"[1..] == "280" && "280"[1..] == "80" && "80"[1..] == "0" && "0"[1..] == "";
    assert Digits("1280", 0) == Digits("280", 1) == Digits("80", 12) == Digits("0", 128) == Digits("", 1280);
  }
}
