# RatelMesh: a verified model of its hard core

RatelMesh is a WireGuard mesh VPN: a daemon that applies network maps, switches peers between relay and
direct paths, keeps post-quantum sessions, diagnoses and repairs the network, and a macOS client that updates
itself. This project models the parts of it where a mistake leaks traffic, loses state or accepts the wrong
thing, and proves what they promise for every input, every run and every pattern of failures.

| file | component |
|---|---|
| `Routes.dfy` | does a routing table contain all traffic: the prefix walk against address-by-address longest match |
| `RepairCatalog.dfy`, `RepairExec.dfy`, `RepairGuarantees.dfy` | repair recipes, the executor that runs an untrusted plan, and what a run guarantees |
| `PathSwitch.dfy`, `PathSwitchProofs.dfy`, `PathSwitchDecisions.dfy` | relay/direct switching and the disco permit protocol: the code, its invariants over all runs, and what a check decides about a peer |
| `NetmapApply.dfy` | the netmap transaction over a firewall and an engine that may each fail |
| `PqSessions.dfy` | post-quantum session epochs and two-party agreement |
| `DoctorPlans.dfy` | one-use repair plans under interleaved calls |
| `Redact.dfy` | redaction of JSON trees without losing an entry |
| `PathMtu.dfy` | the MTU candidate grid and the quorum search |
| `Versions.dfy`, `Updater.dfy` | the release version grammar on both sides, and the updater's rollback floors |
| `Decimal.dfy`, `Mesh.dfy` | optional values, decimal numerals and the naming of nodes, shared by the others |

`dafny verify dfyconfig.toml` checks everything.

## How the model is built

- Code that changes state is a class whose methods say the whole new state; code with loops is a method with
  invariants; recursion and expressions are functions. Path switching pairs each method with a function on
  values; the theorems are about runs of that function, and `PathSwitchProofs.Run` drives the class itself along
  any such run, so they hold of what the methods do.
- What the program cannot control is a parameter and is arbitrary: the clock, peer statistics, verdicts of
  signature checks, answers of the repair executor, the firewall and the engine, probe commands, the update feed.
- Calls that overlap are split at the points where another call can run (a channel operation, a critical
  section, an await), and the theorems quantify over every order of these sections.
- An address family is its bit width, so the routing results hold for every width; IPv4 is 32 and IPv6 is 128.
- Cryptography is ideal: a KEM ciphertext opens only under the key it was made for, hashes are injective,
  signatures are the data they sign. The endpoint fingerprint of a peer is the pair of lists it is made from.
- Times are integers of milliseconds. Epochs are bounded by the 64-bit range and never wrap; probe attempt
  numbers and netmap versions are unbounded.

## Where the code does not keep the plain promise

Each of these has a concrete execution that shows it and a theorem with the exact condition.

- **An exit without a name is routed without arming the firewall** (`internal/daemon/daemon.go:964-966`, `1049`), even
  when the user selected no exit, because the empty selection equals the empty name: "exit defaults imply an armed
  firewall" survives a commit if and only if the netmap does not route an unnamed exit
  (`CommitSafeExactlyWhenNamed`; `UnnamedExitExample` is the execution).
- **Version 0 netmaps escape the equivocation check** (`internal/daemon/daemon.go:813`): equal committed versions
  are equal maps from version 1 on; two different maps of version 0 can both be committed (`VersionZeroExample`).
- **Two endpoints can derive different keys from one session although their netmaps agree**
  (`internal/daemon/pq.go:38-115`): the initiator may have staged it while it was shown another KEM key. They agree if
  and only if, when it staged that session, the netmap showed the initiator the recipient's own key, which it can
  check before it publishes (`TwoPartyAgreement`; `StagedForAnotherKey` is the execution). So they always agree when
  every netmap sent to the initiator shows that key (`HonestlyShownAgree`).
- **A manual update check during a transfer marks the phase failed and lets a second transfer start**
  (`clients/macos-menubar/UpdateSupport.swift:676-682`): the offer made then is sound when it is made, but an older
  download that finishes later can overtake it. A standing offer survives a finished download if and only if the
  package is not above it, and always when no such check intervened (`FinishDownload`, `CalmOffersStand`,
  `OvertakenOffer`).
- Two branches cannot be reached: the zero-epoch test at `internal/daemon/pq.go:67-72` and the append that would grow a
  short MTU grid at `internal/doctorplatform/pathmtu.go:274-275`. The model keeps both and proves them dead.

## Model

| member | source | states |
|---|---|---|
| `Routes.DefaultCoverage` | internal/diagnose/probes_common.go:483-492 | for every table and width: contained exactly when every address has a route and all its most specific ones are tunnel, blackhole or unspecified via the tunnel; escape exactly when for some address one of them is physical (or unspecified, not via the tunnel) and none keeps it inside; and in general the worst lookup over all addresses |
| `Routes.ClassifySpace` | internal/diagnose/probes_common.go:425-463 | the same for one scope: the worst longest-match answer over the addresses of the scope, those without a more specific candidate taking the inherited one |
| `Routes.ResolveIsLongestMatch` | internal/diagnose/probes_common.go:336-360 | the reference lookup is longest match: the verdict of the routes at the longest candidate length |
| `Routes.ResolveInKinds` | internal/diagnose/snapshot.go:217-239 | what a lookup answers, said in the kinds of the most specific routes |
| `Routes.WorstInKinds` | internal/diagnose/probes_common.go:425-492 | what the verdict on a family means, said in the kinds of the most specific routes of its addresses |
| `Routes.LongestExists` | internal/diagnose/probes_common.go:425-463 | a table with a route for an address has a most specific one |
| `Routes.CoversIsMatch` | internal/diagnose/probes_common.go:281-289 | a route is a candidate exactly for the addresses of its width that share its leading bits |
| `Routes.VerdictIsDetermined` | internal/diagnose/probes_common.go:483-492 | the verdict depends only on which routes are present: order and duplicates do not matter, and no second answer is possible |
| `Routes.LookUpIgnoresOrder` | internal/diagnose/probes_common.go:291-330 | looking an address up in two tables with the same candidates gives the same answer |
| `Routes.ContainedIsComplete` | internal/diagnose/probes_common.go:557-565 | a contained family keeps every address inside and leaves none without a route |
| `Routes.DispositionAt` | internal/diagnose/probes_common.go:291-330 | the flags say exactly whether a route of each kind (tunnel or blackhole, physical, unrecognised; unspecified by its tunnel bit) sits at the prefix |
| `Routes.CoverageAt` | internal/diagnose/probes_common.go:336-360 | decisive exactly when some route sits at the prefix, and then the verdict of every address there at that length |
| `Routes.CombineCoverage` | internal/diagnose/probes_common.go:364-374 | the join of the lattice: an upper bound of both answers and one of them |
| `Routes.ChildPrefixes` | internal/diagnose/probes_common.go:378-400 | the two halves are masked, disjoint, one bit longer and together cover the prefix |
| `Routes.MaskedEqual` | internal/diagnose/probes_common.go:291-330 | masked prefixes coincide exactly when width, length and leading bits do |
| `Routes.JoinHalves` | internal/diagnose/probes_common.go:425-463 | joining the worst answers of the two halves gives the worst answer of the scope |
| `Routes.DescendLookUp` | internal/diagnose/probes_common.go:425-463 | inside a half, lookup among its own routes with the inherited answer is lookup among all routes of the scope |
| `Routes.PresentAt` | internal/diagnose/probes_common.go:496-510 | true exactly when some route of any kind sits at the prefix |
| `Routes.SpaceCovered` | internal/diagnose/probes_common.go:519-549 | true exactly when every address of the scope is inherited or matched by a route at least as specific as the scope |
| `Routes.HasCompleteDefault` | internal/diagnose/probes_common.go:557-565 | true exactly when every address of the family matches some route |
| `Routes.TiledByHalves` | internal/diagnose/probes_common.go:519-549 | a scope without a route of its own is tiled exactly when both halves are |
| `Routes.PhysicalPrefixLeaks` | internal/diagnose/probes_common.go:425-565 | a prefix whose own routes are all physical leaks exactly when its more specific routes do not tile it, and then the verdict is escape |
| `Routes.TiledByOwnSubtree` | internal/diagnose/probes_common.go:519-549 | tiling a prefix from below is the same question for the whole table and for the routes inside it |
| `Routes.RelevantRouteFamilies` | internal/diagnose/probes_common.go:576-612 | lists exactly the families in use, each once |
| `Routes.AllFamiliesHaveDefault` | internal/diagnose/probes_common.go:616-627 | true exactly when there is a family and every address of each is covered |
| `Routes.RunRoutesProbe` | internal/diagnose/probes_link.go:300-356 | each finding is reported exactly when it is deserved, address by address and in the kinds of the routes; routes.ok with an active exit means every IPv4 address ends in tunnel or blackhole |
| `RepairCatalog.ValidateCatalog` | internal/diagnose/repair.go:580-648 | accepts exactly the catalogues that satisfy every invariant, distinct ids included |
| `RepairCatalog.CheckAction` | internal/diagnose/repair.go:580-648 | accepts exactly the valid recipes |
| `RepairCatalog.IndexIsCatalog` | internal/diagnose/repair.go:563-573 | without duplicate ids the index holds exactly the recipes, each under its own id |
| `RepairCatalog.ShippedCatalogIsValid` | internal/diagnose/repair.go:375-467 | the eight shipped recipes form a valid catalogue |
| `RepairCatalog.Plan` | internal/diagnose/repair.go:680-728 | one planned repair for each recipe that addresses a present finding, in catalogue order, copied exactly and applicable exactly when its preconditions hold |
| `RepairCatalog.Addressed` | internal/diagnose/repair.go:680-728 | exactly the codes of the recipe that are present |
| `RepairCatalog.CheckPreconditions` | internal/diagnose/repair_exec.go:223-229 | true exactly when every precondition holds in the environment |
| `RepairCatalog.LowerMTURequestsFloor` | internal/diagnose/repair.go:332-352 | the shipped MTU repair asks for the very floor its precondition tests |
| `RepairCatalog.ShippedRepairsNeed` | internal/diagnose/repair.go:241-300 | what each shipped recipe needs of the environment, in terms of the environment |
| `RepairCatalog.GuardPassesExactly` | internal/diagnose/repair.go:307-370 | the guard of the shipped MTU repair passes exactly on a snapshot of kind mtu whose link_mtu and path_mtu are numbers of at least 1280 |
| `RepairExec.Execute` | internal/diagnose/repair_exec.go:147-154 | every entry of every plan has the outcome its position allows: refused untouched, or the catalogue recipe run with a truthful report |
| `RepairExec.ExecuteRepair` | internal/diagnose/repair_exec.go:156-369 | runs a repair exactly when it is admitted (not seen, executor, context and environment present, a copy of the catalogue recipe, preconditions true); otherwise skips it without one call |
| `RepairExec.RunRecipe` | internal/diagnose/repair_exec.go:242-369 | the calls follow the recipe, are the executor's own answers, and the status tells the truth about them |
| `RepairExec.Mutate` | internal/diagnose/repair_exec.go:272-369 | apply, verify and rollback after the captures: statuses are truthful for every pattern of failures |
| `RepairExec.CaptureAll` | internal/diagnose/repair_exec.go:244-254 | captures in recipe order, stopping at the first failure |
| `RepairExec.ApplyAll` | internal/diagnose/repair_exec.go:277-291 | a prefix of the recipe's steps, all but the last successful, with the results reported |
| `RepairExec.CheckPostconditions` | internal/diagnose/repair_exec.go:375-390 | holds exactly when every postcondition was checked and held |
| `RepairExec.Rollback` | internal/diagnose/repair_exec.go:394-412 | runs every rollback step of the recipe whatever fails |
| `RepairExec.SomeFailed` | internal/diagnose/repair_exec.go:415-424 | true exactly when some rollback step failed |
| `RepairExec.MatchesCatalog` | internal/diagnose/repair_exec.go:444-461 | true exactly when the planned repair equals the recipe field by field |
| `RepairExec.ParamsEqual` | internal/diagnose/repair_exec.go:507-517 | equal size and one-way inclusion decide map equality |
| `RepairExec.StepsEqual` | internal/diagnose/repair_exec.go:493-505 | true exactly when the step lists are equal |
| `RepairExec.SnapshotsEqual` | internal/diagnose/repair_exec.go:478-490 | true exactly when the snapshot lists are equal |
| `RepairExec.PostconditionsEqual` | internal/diagnose/repair_exec.go:464-475 | true exactly when the postcondition lists are equal |
| `RepairExec.ValidateSteps` | internal/diagnose/repair_exec.go:427-440 | accepts exactly the lists of allowed ops |
| `RepairGuarantees.CapturesComeFirst` | internal/diagnose/repair_exec.go:242-254 | in the trace of a repair the captures come first, in recipe order, and all succeed before anything else |
| `RepairGuarantees.AppliesFollowRecipe` | internal/diagnose/repair_exec.go:272-291 | forward applies are a prefix of the recipe and only its postconditions are checked |
| `RepairGuarantees.RollbackIsWhole` | internal/diagnose/repair_exec.go:394-412 | rollback is all of the recipe's steps, in order at the end of the trace, or none |
| `RepairGuarantees.EachActionRunsOnce` | internal/diagnose/repair_exec.go:159-167 | a repeated action in a plan is skipped without a call |
| `RepairGuarantees.PlannedRepairIsAdmitted` | internal/diagnose/repair_exec.go:187-229 | what the planner produced is never refused as tampered: it runs exactly when the collaborators are there and the preconditions hold |
| `RepairGuarantees.OnlyFaithfulCopiesRun` | internal/diagnose/repair_exec.go:156-229 | whatever an untrusted plan says, a call is made for an entry only if its action is new, catalogued, spelled out exactly as catalogued, and its preconditions hold |
| `RepairGuarantees.StatusesOfValidActions` | internal/diagnose/repair.go:580-648 | no uncertain outcome for recipes with rollback; no rollback_failed, postcondition_failed or snapshot_failed for idempotent ones, whose rolled_back means no apply; applied means every apply and every postcondition, at least one of each, succeeded |
| `RepairGuarantees.StatusesOfValidCatalog` | internal/diagnose/repair_exec.go:147-369 | the same for any entry of any plan run from a catalogue that validateCatalog accepts |
| `RepairGuarantees.RepairRestores` | internal/diagnose/repair_exec.go:242-369 | if ops stay in their own kind and a restore writes the captured value back, a status that claims no lasting change means the state before equals the state after |
| `RepairGuarantees.PlanRestores` | internal/diagnose/repair_exec.go:147-154 | the same for a whole plan |
| `RepairGuarantees.ShippedRepairsRestore` | internal/diagnose/repair.go:375-467 | for the shipped catalogue, any plan and any failures, an entry whose report claims no lasting change left the system as it found it |
| `RepairGuarantees.RollbackRestores` | internal/diagnose/repair_exec.go:394-412 | after a successful rollback every kind it names holds its captured value |
| `RepairGuarantees.CapturesKeepWorld` | internal/diagnose/repair_exec.go:244-254 | captures change nothing and record the state they saw |
| `RepairGuarantees.ShippedRollbacksUndo` | internal/diagnose/repair.go:375-467 | every shipped recipe's rollback covers each kind its apply steps touch, and restores it from that kind's snapshot |
| `RepairGuarantees.HonestExecutorExists` | internal/diagnose/repair_exec.go:242-369 | the assumptions about the executor can be met |
| `RepairGuarantees.ForwardMTUIsBounded` | internal/diagnose/repair.go:307-370 | any forward mtu.set is at most the link_mtu and the path_mtu of a snapshot of kind mtu captured in that same execution |
| `RepairGuarantees.OnlyLowerMTUSetsMTU` | internal/diagnose/repair.go:375-467 | in the shipped catalogue only the guarded recipe sets an MTU forward |
| `PathSwitch.Daemon.DiscoUpgradeState` | internal/daemon/disco_upgrade.go:93-111 | returns and stores the entry for the peer's current fingerprint and relay cycle, fresh when either changed |
| `PathSwitch.Daemon.StartOneProbe` | internal/daemon/disco_upgrade.go:114-196 | starts at most one probe for the peer, and only when the peer, the permit and the slots allow it |
| `PathSwitch.Daemon.StartDueProbes` | internal/daemon/disco_upgrade.go:114-196 | prunes absent peers, then starts every due probe; the attempts returned are exactly the new outstanding ones |
| `PathSwitch.Daemon.FinishProbe` | internal/daemon/disco_upgrade.go:235-275 | frees the slot always; a permit is given only for the current attempt, fingerprint, cycle and an eligible relayed peer |
| `PathSwitch.Daemon.ConsumePermit` | internal/daemon/disco_upgrade.go:278-295 | grants exactly a permit at most 10 seconds old, clearing it either way and opening a direct trial when it grants |
| `PathSwitch.Daemon.MatchingDirectTrial` | internal/daemon/disco_upgrade.go:297-307 | drops a trial for other endpoints and reports one for these |
| `PathSwitch.Daemon.MarkDirectTrialFailed` | internal/daemon/disco_upgrade.go:315-334 | ends the trial, counts the failure and sets the backoff |
| `PathSwitch.Daemon.CheckRelayTransitions` | internal/daemon/daemon.go:2303-2485 | the new state is the specification's step applied to every peer of the netmap in order |
| `PathSwitch.Daemon.CheckOnePeer` | internal/daemon/daemon.go:2315-2484 | liveness accounting, then the direct or relay branch, as the specification says |
| `PathSwitch.Daemon.CheckDirectPath` | internal/daemon/daemon.go:2380-2439 | health verdict, candidate rotation or fallback to the relay |
| `PathSwitch.Daemon.RotateCandidate` | internal/daemon/daemon.go:2406-2425 | selects the next candidate and counts the attempt |
| `PathSwitch.Daemon.FallBackToRelay` | internal/daemon/daemon.go:2429-2438 | moves the peer to the relay and fails its trial |
| `PathSwitch.Daemon.CheckRelayPath` | internal/daemon/daemon.go:2441-2483 | moves to direct only a healthy relayed peer past the retry time, through the permit when the gate is enabled |
| `PathSwitch.Daemon.CommitNetmap` | internal/daemon/daemon.go:1116-1135 | resets the path bookkeeping of exactly the programmed peers whose endpoints changed |
| `PathSwitch.Daemon.SetBridge` | internal/daemon/daemon.go:1750-1790 | the relay bridge comes up or goes down and nothing else changes |
| `PathSwitch.Daemon.SetPreferredExit` | internal/daemon/daemon.go:2961-2970 | the selection changes and nothing else |
| `PathSwitchProofs.RunKeepsInv` | internal/daemon/disco_upgrade.go:93-325 | the protocol invariant holds in every reachable state, however completions interleave with checks, starts and netmaps |
| `PathSwitchProofs.Run` | internal/daemon/daemon.go:2303-2485 | a new daemon driven through its own methods along any possible run ends in the state the run reaches, with the probe counter exact, every gated move backed by its own success and every fallback after all candidates |
| `PathSwitchProofs.Perform` | internal/daemon/disco_upgrade.go:93-325 | each operation of a run, performed by the daemon's own method, is the step the theorems are about |
| `PathSwitchProofs.EnabledInTurn` | internal/daemon/disco_upgrade.go:235-275 | in a possible run each operation is enabled when its turn comes, whatever way its state was reached |
| `PathSwitchProofs.StepKeepsInv` | internal/daemon/daemon.go:2303-2485 | every step keeps the invariant |
| `PathSwitchProofs.ProbeBookkeeping` | internal/daemon/disco_upgrade.go:114-275 | in every reachable state the counter is the number of outstanding attempts and at most 4; a probing peer has an outstanding attempt with its id, fingerprint and cycle, whose completion, with either result, ends the probing; a direct trial excludes probing and relayed |
| `PathSwitchProofs.GatedMovesAreAuthorised` | internal/daemon/daemon.go:2441-2482 | over every run each gated move to direct has a success at most 10 seconds earlier for the same peer, fingerprint and relay cycle |
| `PathSwitchProofs.NoSuccessServesTwice` | internal/daemon/disco_upgrade.go:235-295 | over every run no probe success backs two moves |
| `PathSwitchProofs.LeavingTheRelayIsLogged` | internal/daemon/daemon.go:2441-2482 | no step takes a peer off the relay silently: it is a logged move, gated exactly when the gate is enabled, or an endpoint change |
| `PathSwitchProofs.FallbackTriesEveryCandidate` | internal/daemon/daemon.go:2400-2438 | over every run whose netmaps program the peer, it falls back with n >= 2 candidates only after all n were selected since its endpoints last changed |
| `PathSwitchProofs.RunKeepsRotation` | internal/daemon/daemon.go:2400-2438 | the rotation visits 0, 1, 2, ... one per attempt in every reachable state |
| `PathSwitchDecisions.CheckDecides` | internal/daemon/daemon.go:2303-2485 | a check rotates, moves to the relay and moves off it exactly the peers that are due, in terms of handshakes, received bytes, the clock and the bookkeeping, and treats trials accordingly |
| `PathSwitchDecisions.WorkingDirectPathIsKept` | internal/daemon/daemon.go:2387-2388 | a direct path with a handshake under 180 seconds old since it was taken, or with bytes arriving in the last 20 seconds, is neither rotated nor left |
| `PathSwitchDecisions.SilentDirectPathFallsBack` | internal/daemon/daemon.go:2429-2438 | a direct path silent for 15 seconds with its candidates used up gives way to the relay |
| `PathSwitchDecisions.SameEvidence` | internal/daemon/daemon.go:2387-2399 | the health tests of both paths read the evidence as stated, on trial against the baselines |
| `PathSwitchDecisions.CheckDecidesDirect` | internal/daemon/daemon.go:2380-2439 | the direct branch: rotation, fallback, proven and failed trials with their backoff |
| `PathSwitchDecisions.CheckDecidesRelayed` | internal/daemon/daemon.go:2441-2483 | the relay branch: leaves exactly when the relay works, the time is up and, if gated, an unused success of the last ten seconds is there |
| `PathSwitchDecisions.OthersUntouched` | internal/daemon/daemon.go:2315-2484 | the check of one peer changes nothing noted of another |
| `PathSwitchDecisions.CompletionDecides` | internal/daemon/disco_upgrade.go:235-275 | a success for the peer as it is now gives a permit, any other end gives none, and the probing is over |
| `PathSwitchDecisions.SuccessLeadsOffTheRelay` | internal/daemon/disco_upgrade.go:235-295 | after such a success a due check within ten seconds moves the peer off the relay |
| `PathSwitchDecisions.StartDecides` | internal/daemon/disco_upgrade.go:114-196 | one round starts a probe exactly when the peer wants one and a slot is free, under a new number |
| `PathSwitchDecisions.StartProbesTheDue` | internal/daemon/disco_upgrade.go:114-196 | in every reachable state with slots for all, starting probes probes exactly the peers that want it |
| `PathSwitchDecisions.AbsentPeersAreForgotten` | internal/daemon/disco_upgrade.go:114-196 | entries of peers that left the netmap go, unless a probe is out |
| `NetmapApply.Daemon.ApplyNetmapLocked` | internal/daemon/daemon.go:800-1200 | a failure leaves every book, path bookkeeping included, as it was and an early one touches nothing; a commit replaces the books, gives the engine exactly the admitted routes of the trusted peers, its fail-closed mode exactly when an exit is routed under the kill switch and the IPv6 block exactly for a routed named exit with an IPv4 default and no IPv6 one; no point in between is unsafe unless the netmap routes an unnamed exit |
| `NetmapApply.Daemon.ApplyNetmap` | internal/daemon/daemon.go:783-799 | what its callers rely on: books kept on failure; with named exits and fail-closed settings every point is safe and a commit ends safe |
| `NetmapApply.Daemon.Transact` | internal/daemon/daemon.go:1068-1104 | firewall, engine, deferred disarm and rollback under every pattern of failures: safe at every intermediate point when both ends are; after an engine failure the new remote-access half stays and, once rolled back, the old EXIT half |
| `NetmapApply.CommitSafeExactlyWhenNamed` | internal/daemon/daemon.go:1049-1052 | with the kill switch on and fallback off a commit is safe if and only if it does not route an unnamed exit |
| `NetmapApply.UnnamedExitExample` | internal/daemon/daemon.go:964-984 | an execution: kill switch on, fallback off, no exit selected, a netmap with one unnamed exit is committed and exit defaults stand behind an open firewall |
| `NetmapApply.VersionZeroExample` | internal/daemon/daemon.go:813-820 | two different maps of version 0 are committed one after the other |
| `NetmapApply.Daemon.CommitIsMonotone` | internal/daemon/daemon.go:813-820 | committed versions never decrease, and from version 1 equal versions are equal maps |
| `NetmapApply.Daemon.Screen` | internal/daemon/daemon.go:801-820 | passes exactly a matching identity and an acceptable version; lower versions are rollbacks |
| `NetmapApply.Daemon.Commit` | internal/daemon/daemon.go:1116-1199 | resets the path bookkeeping of every changed peer in order, replaces the other books and appends to the commit history, keeping it monotone |
| `NetmapApply.Daemon.EmergencyClose` | internal/daemon/daemon.go:1056-1066 | drops every grant, keeps the EXIT posture and stays safe |
| `NetmapApply.Daemon.Prepare` | internal/daemon/daemon.go:904-1047 | the configuration and the books are the ones the specification gives for the netmap |
| `NetmapApply.EngineIs` | internal/daemon/daemon.go:911-1047 | that configuration: admitted routes of trusted peers, exit defaults exactly when a trusted selected ready exit advertises them, and the two fail-closed flags |
| `NetmapApply.DesiredPolicyIs` | internal/daemon/daemon.go:2661-2690 | the firewall aimed for: armed exactly for a named exit under the kill switch with fallback off, with the given endpoints and interface, and enforcing exactly the remote target when there is one to enforce |
| `NetmapApply.TargetIsSafe` | internal/daemon/daemon.go:1049-1054 | what the transaction aims for is safe unless it routes an unnamed exit |
| `NetmapApply.BuildCandidate` | internal/daemon/daemon.go:911-1009 | the engine peers are the trusted peers in order with their routes, the active exit is the last selected one, and the changes are told against the endpoints seen |
| `NetmapApply.AllowedFor` | internal/daemon/daemon.go:956-988 | exactly the routes the role, the selection, the readiness and the signatures admit, in the order the filters leave them |
| `NetmapApply.RoutesAreAdmitted` | internal/daemon/daemon.go:956-988 | the routes given for a peer are exactly the admitted ones, spelled out route by route |
| `NetmapApply.CandidateDefaults` | internal/daemon/daemon.go:964-984 | the candidate carries exit defaults if and only if a trusted, selected, ready exit advertises them |
| `NetmapApply.CommitForgetsChanged` | internal/daemon/daemon.go:1117-1130 | a commit forgets relay, direct, liveness and candidate state of exactly the keys with changed endpoints, learns advertised endpoints for them, and leaves every other key untouched |
| `NetmapApply.ChangesOfTrusted` | internal/daemon/daemon.go:985-1001 | the changes are those of the trusted peers, told against the endpoints seen before |
| `NetmapApply.CommitsAsPathSwitch` | internal/daemon/daemon.go:1116-1135 | the path bookkeeping committed here is the commit step of the path-switch model |
| `NetmapApply.BlocksIPv6` | internal/daemon/daemon.go:1015-1024 | true exactly when the active exit has an IPv4 default and no IPv6 one |
| `NetmapApply.StripDefaultRoutes` | internal/daemon/daemon.go:3050-3059 | the non-default routes, in order |
| `NetmapApply.FiltersKeep` | internal/daemon/daemon.go:3050-3108 | the three filters keep exactly the non-defaults, the defaults, and the single addresses of the peer itself |
| `NetmapApply.KeepMeshAndDefaults` | internal/daemon/daemon.go:3100-3108 | the mesh routes followed by the defaults |
| `NetmapApply.ComposeRemoteTargetPolicy` | internal/daemon/remote_target_firewall.go:38-99 | fails exactly when the target cannot be composed or is invalid; otherwise the EXIT half is intact and every rule is bound to this node's own address |
| `NetmapApply.Compose` | internal/daemon/remote_target_firewall.go:38-99 | the composed policy keeps the EXIT half and contains only rules of the target |
| `NetmapApply.ComposedHalf` | internal/daemon/remote_target_firewall.go:38-99 | a required target is enforced rule by rule at this node's own address, anything else clears the remote half, and only a required target can fail |
| `NetmapApply.ComposesWhenPossible` | internal/daemon/remote_target_firewall.go:38-99 | a well-formed target on a capable host is composed |
| `NetmapApply.CopyExitPolicy` | internal/daemon/remote_target_firewall.go:111-120 | takes the EXIT half of one policy and leaves the remote half of the other; the tunnel interface follows an armed source and stays with an enforcing target |
| `NetmapApply.Daemon.ReconcileExpiry` | internal/daemon/remote_target_firewall.go:170-214 | rewrites the remote half only and never makes a safe state unsafe |
| `NetmapApply.Daemon.SetExit` | internal/daemon/daemon.go:2939-2982 | succeeds exactly when the first exit answering to the name or address is online and the apply goes through; a failure restores the selection and the books; safe throughout |
| `NetmapApply.Daemon.ClearExit` | internal/daemon/daemon.go:2984-3016 | the same for clearing |
| `NetmapApply.Daemon.SetInternetFallback` | internal/daemon/daemon.go:3018-3035 | a failed apply restores the flag, and turning fallback off ends protected |
| `NetmapApply.Daemon.Run` | internal/daemon/daemon.go:783-1200 | over every run of netmaps, selections, fallback switches and expiries, with named exits, the daemon stays protected, and between fallback switches every point is safe |
| `PqSessions.SessionFor` | internal/daemon/pq.go:18-36 | finds the only session between the two nodes; an ambiguous pair has none |
| `PqSessions.ChooseEpoch` | internal/daemon/pq.go:58-72 | the least epoch above both floors and not below the netmap version; fails exactly when a floor is exhausted, and never wraps |
| `PqSessions.Daemon.PresharedKey` | internal/daemon/pq.go:139-203 | derives exactly when this side may, from the only session, which carries a signature by the key the netmap shows for its initiator over all its fields; derivations per peer never go back in epoch and one epoch never uses two ciphertexts |
| `PqSessions.Daemon.SharedFor` | internal/daemon/pq.go:158-193 | the initiator's stored secret or the recipient's decapsulation, advancing the record only to a higher epoch |
| `PqSessions.Daemon.DerivationKeepsOrder` | internal/daemon/pq.go:139-203 | deriving at the stored epoch keeps the derivation history ordered |
| `PqSessions.Daemon.AdvanceKeeps` | internal/daemon/pq.go:86-137 | moving a record to a higher epoch keeps it at or past everything derived |
| `PqSessions.Daemon.StageSession` | internal/daemon/pq.go:55-137 | a published session is above both floors, signed, and made under the key the netmap showed; a failed publication with its rollback leaves the records as they were |
| `PqSessions.Daemon.EnsureOne` | internal/daemon/pq.go:49-115 | a session that serves is kept; otherwise a new one is published; with storage and publication working only an exhausted epoch fails |
| `PqSessions.Daemon.EnsureSessions` | internal/daemon/pq.go:38-115 | when it succeeds every capable peer has a derived key or a newly published session, and every published session is well made |
| `PqSessions.TwoPartyAgreement` | internal/daemon/pq.go:139-203 | two endpoints deriving from one session agree if and only if the netmap showed the initiator the recipient's own key when it staged that session; each side derives exactly when it may |
| `PqSessions.HonestlyShownAgree` | internal/daemon/pq.go:38-203 | over any two histories, if every netmap sent to the initiator showed the recipient's own key, two nodes that derive from one session hold the same key |
| `PqSessions.DerivesOnlyWhatWasSigned` | internal/daemon/pq.go:139-203 | as recipient a node derives only from a session the holder of the initiator's signing key made for it; its secret is the one encapsulated exactly when the initiator was shown its key |
| `PqSessions.RunNode` | internal/daemon/pq.go:38-203 | over any netmaps a node keeps its invariant, and stages a peer always shown one key under that key only |
| `PqSessions.StagingsOneMore` | internal/daemon/pq.go:73-109 | every stored shared key comes from a staging of this node under the key it was shown |
| `PqSessions.StagedForAnotherKey` | internal/daemon/pq.go:38-115 | an execution in which netmaps agree and the keys differ |
| `DoctorPlans.NetworkDoctor.Interleave` | internal/daemon/doctor_api.go:211-430 | any interleaving of the sections of any Run and Repair calls leaves a sound log |
| `DoctorPlans.ExecutionIsAuthorised` | internal/daemon/doctor_api.go:345-379 | every execution stands behind its grant, and the grant used the latest plan issued, for an action of it, before it expired and with no Run begun since |
| `DoctorPlans.TokenExecutesOnce` | internal/daemon/doctor_api.go:345-379 | with distinct tokens no token executes twice |
| `DoctorPlans.TokenGrantsOnce` | internal/daemon/doctor_api.go:345-379 | with distinct tokens no token is granted twice |
| `DoctorPlans.IssueOf` | internal/daemon/doctor_api.go:345-379 | a grant uses a plan that nothing superseded in between |
| `DoctorPlans.BodiesAreDisjoint` | internal/daemon/doctor_api.go:116-128 | between two acquisitions of the slot the first call has released it: bodies never overlap |
| `DoctorPlans.NetworkDoctor.MutualExclusion` | internal/daemon/doctor_api.go:116-128 | at most one call is inside its body |
| `DoctorPlans.NetworkDoctor.Acquire` | internal/daemon/doctor_api.go:116-126 | takes the slot exactly when it is free |
| `DoctorPlans.NetworkDoctor.Release` | internal/daemon/doctor_api.go:128 | frees the slot and leaves the plan alone |
| `DoctorPlans.NetworkDoctor.BeginDiagnosis` | internal/daemon/doctor_api.go:222-225 | clears every earlier plan before the first probe |
| `DoctorPlans.NetworkDoctor.FinishDiagnosis` | internal/daemon/doctor_api.go:227-250 | issues a plan for exactly the supported available actions, or leaves none |
| `DoctorPlans.NetworkDoctor.Supported` | internal/daemon/doctor_api.go:302-307 | exactly the supported actions of the list |
| `DoctorPlans.NetworkDoctor.ConsumePlan` | internal/daemon/doctor_api.go:345-379 | grants exactly a well-formed, matching, unexpired token for an action of the plan; a grant or an expiry uses the plan up, a mismatch does not |
| `DoctorPlans.NetworkDoctor.ExecuteGranted` | internal/daemon/doctor_api.go:410-430 | executes the granted action only, if it still applies |
| `Redact.RedactTree` | internal/diagnose/redact.go:183-218 | the result is the specified redaction, a function of the tree alone, so map iteration order does not show; every string leaf is scrubbed, arrays keep length and order, and every key begins with the scrubbed original |
| `Redact.RedactObject` | internal/diagnose/redact.go:192-213 | an object's result is the specified one |
| `Redact.RedactedIsRedaction` | internal/diagnose/redact.go:183-218 | leaf by leaf and entry by entry what a redacted tree is |
| `Redact.SealedKeysHideTheOriginal` | internal/diagnose/redact.go:227-232 | a sealed redactor's keys do not depend on any fingerprint |
| `Redact.KeyBegins` | internal/diagnose/redact.go:207-210 | a key is the scrubbed original, with something appended only if that was taken |
| `Redact.ObjectLosesNothing` | internal/diagnose/redact.go:192-213 | for any string redaction an object keeps its entry count, and each child's redaction sits under exactly one key |
| `Redact.EntriesLoseNothing` | internal/diagnose/redact.go:192-213 | the same after each entry |
| `Redact.DisambiguateKey` | internal/diagnose/redact.go:227-239 | ends with the first free candidate |
| `Redact.TriedAreTaken` | internal/diagnose/redact.go:227-239 | n taken candidates are n different taken keys |
| `Redact.FreeExists` | internal/diagnose/redact.go:227-239 | some candidate is always free, for any base and any set of taken keys |
| `Redact.CandidatesDiffer` | internal/diagnose/redact.go:227-239 | different numbers give different candidate keys |
| `Redact.ChooseKey` | internal/diagnose/redact.go:207-210 | the redacted key when free, a disambiguated one otherwise; never one already taken |
| `Redact.SortedKeys` | internal/diagnose/redact.go:200-205 | the keys in strictly increasing order |
| `Redact.ListingIsUnique` | internal/diagnose/redact.go:200-205 | a set of keys has only one sorted listing |
| `PathMtu.PathMTUCandidates` | internal/doctorplatform/pathmtu.go:257-289 | strictly increasing, the expected number of values and at most 12, all in range, with both ends and 1280 whenever it is in range, and no gap above twice the even step |
| `PathMtu.Grid` | internal/doctorplatform/pathmtu.go:261-271 | the grid is strictly increasing with both ends, spaced within one of the even step, and is the whole range when that is short |
| `PathMtu.GridGap` | internal/doctorplatform/pathmtu.go:265-268 | consecutive grid points are at most one more than the even step apart |
| `PathMtu.ReplacedIsGood` | internal/doctorplatform/pathmtu.go:277-287 | making room for 1280 keeps the grid good |
| `PathMtu.NearestInterior` | internal/doctorplatform/pathmtu.go:277-283 | an interior index nearest to the value |
| `PathMtu.ReplaceKeepsOrder` | internal/doctorplatform/pathmtu.go:277-285 | replacing the nearest interior value keeps the order |
| `PathMtu.ProbeMTU` | internal/doctorplatform/pathmtu.go:120-241 | at most 39 commands, so the limit of 40 never stops it; a returned MTU won two separate quorums and no larger classified candidate won one; on a path with a fixed limit the answer is within it, less than two even steps below it, exact at the top and not below 1280 when that passes |
| `PathMtu.Search` | internal/doctorplatform/pathmtu.go:211-241 | the scan and the recheck: a result is confirmed twice, and fits a path with a fixed limit |
| `PathMtu.Refusal` | internal/doctorplatform/pathmtu.go:121-157 | a request is refused exactly when it is not sensible or the platform cannot serve it |
| `PathMtu.Scan` | internal/doctorplatform/pathmtu.go:211-229 | candidates are classified in order until the budget runs out, and the best is the largest that won |
| `PathMtu.Classify` | internal/doctorplatform/pathmtu.go:159-209 | three samples counted exactly; a verdict is a quorum of two |
| `PathMtu.LimitDecides` | internal/doctorplatform/pathmtu.go:159-209 | on a path with a fixed limit a candidate wins exactly when it is within the limit |
| `PathMtu.ScanFindsLimit` | internal/doctorplatform/pathmtu.go:211-229 | a complete scan finds a value between every passing candidate and the limit |
| `PathMtu.ScanMeasures` | internal/doctorplatform/pathmtu.go:211-229 | the best of a complete scan measures the limit of the path |
| `Versions.ParseVersion` | clients/macos-menubar/UpdateSupport.swift:253-266 | accepts exactly the printed forms of two or three (exactly three) numbers up to 999999, and returns those numbers |
| `Versions.SwiftPart` | clients/macos-menubar/UpdateSupport.swift:257-263 | accepts exactly the printed form of a number up to 999999, whatever other scripts count as numbers |
| `Versions.ValidVersion` | scripts/update-manifest.go:359-379 | accepts exactly the printed forms of an allowed count of numbers up to 999999 |
| `Versions.GoPart` | scripts/update-manifest.go:369-377 | accepts exactly the printed form of a number up to 999999 |
| `Versions.BothSides` | scripts/update-manifest.go:359-379 | the signer and the verifier accept exactly the same strings |
| `Versions.GoodByLength` | scripts/update-manifest.go:369-377 | six plain digits are the numbers up to 999999 |
| `Versions.RenderInjective` | clients/macos-menubar/UpdateSupport.swift:253-266 | a version's text determines its numbers |
| `Versions.VersionParts` | clients/macos-menubar/UpdateSupport.swift:253-266 | a string is a version exactly when it splits into the right number of good parts |
| `Versions.CompareVersions` | clients/macos-menubar/UpdateSupport.swift:208-222 | on versions it compares ranks to base one million, so it is a total preorder; otherwise it is the platform's comparison |
| `Versions.SameExactlyWhenPaddedEqual` | clients/macos-menubar/UpdateSupport.swift:208-222 | two versions compare the same exactly when they differ at most in a trailing zero part |
| `Versions.FirstDifferenceDecides` | clients/macos-menubar/UpdateSupport.swift:214-220 | the first differing part decides the order of the ranks |
| `Updater.UpdateStore.Run` | clients/macos-menubar/UpdateSupport.swift:675-861 | over any run of launches, checks and downloads every offer was at least every valid version launched and every package verified before it; undisturbed, the standing offer still is |
| `Updater.UpdateStore.FinishCheck` | clients/macos-menubar/UpdateSupport.swift:695-733 | offers exactly an authentic, supported manifest that is not below a floor and newer than the running version |
| `Updater.UpdateStore.Accept` | clients/macos-menubar/UpdateSupport.swift:695-713 | accepts exactly an authentic, valid, supported manifest that is not below either floor |
| `Updater.UpdateStore.BeginCheck` | clients/macos-menubar/UpdateSupport.swift:675-684 | starts exactly when idle with a feed; a manual check while busy marks the phase failed and leaves the transfer running |
| `Updater.UpdateStore.BeginDownload` | clients/macos-menubar/UpdateSupport.swift:735-738 | starts a download of the manifest on offer exactly when there is one and nothing is busy |
| `Updater.UpdateStore.FinishDownload` | clients/macos-menubar/UpdateSupport.swift:768-825 | advances the verified floor; the standing offer survives if and only if the package is not above it |
| `Updater.UpdateStore.Launch` | clients/macos-menubar/UpdateSupport.swift:600-641 | keeps the floors, advances the installed one to a valid running version and forgets the rest |
| `Updater.UpdateStore.CalmOffersStand` | clients/macos-menubar/UpdateSupport.swift:675-733 | without an interruption the manifest on offer, and the package ready to install, cover everything so far |
| `Updater.UpdateStore.RollbackFloor` | clients/macos-menubar/UpdateSupport.swift:844-850 | being at least the floor is being at least both stored floors |
| `Updater.UpdateStore.AdvanceVersionFloor` | clients/macos-menubar/UpdateSupport.swift:852-861 | a floor never falls, moves only to valid versions and ends at or above the version |
| `Updater.OvertakenOffer` | clients/macos-menubar/UpdateSupport.swift:676-682 | for any three increasing versions, an execution in which the middle one stays on offer after the highest was verified |
| `Updater.IncreasingExists` | clients/macos-menubar/UpdateSupport.swift:208-222 | there are such versions |

## Left out

- IPv4-mapped addresses, zones and the parsing of prefixes: addresses are bit strings of one family.
- Error texts, evidence maps and the JSON forms of reports and plans.
- RepairCatalog.Plan: does not model the sorting of the addressed codes by name, which only affects display.
- Cloning of recipes: values cannot be aliased in the model, so a recipe that an executor alters in place has no counterpart.
- The timeouts of the repair phases: an executor call may fail at any point, which includes every timeout.
- RepairGuarantees.RepairRestores: rests on the executor restoring what it was given; the daemon's own executor is not modelled.
- PathSwitch.Daemon.CheckRelayTransitions: leaves out the transmit-demand counters, the exit handshake deadline, the per-peer path objects and the returned name lists, none of which a modelled decision reads.
- Attempt numbers are unbounded; the wrap of the 64-bit probe sequence is not modelled.
- PathSwitchProofs.FallbackTriesEveryCandidate: covers netmaps that list a peer once and program it, because a peer that is listed but dropped by a signature check keeps its old bookkeeping.
- PathSwitchDecisions.CheckDecides: covers peers listed once in the netmap; a key listed twice is decided twice in one check.
- PathSwitchDecisions.StartProbesTheDue: covers a free slot for every peer; with fewer, netmap order decides, round by round as StartDecides says.
- Probing itself (sockets, candidate addresses, permutations of endpoints) and the engine reconfiguration after a switch.
- NetmapApply.Daemon.ApplyNetmapLocked: leaves out the transmit counters and path labels reset with the rest, the relay bridge, DNS, exit NAT, split-tunnel routes, physical endpoint pins, status and the cached copy on disk; the two commit sections are one step; safety speaks of the default routes of exits, not of a default route advertised by another kind of peer.
- The periodic refresh of the kill switch and the automatic demotion of an exit.
- NetmapApply.Daemon.SetInternetFallback: takes the lock before setting the flag, while the code sets it just before.
- PqSessions.Daemon.EnsureSessions: a peer is staged, published and rolled back as one step; concurrent callers are not modelled.
- Restarts of the daemon: stored secrets and the cached netmap across processes.
- DoctorPlans.TokenExecutesOnce: assumes that 32 random bytes never repeat.
- The HTTP surface, consent text and disclosure checks of the doctor.
- Which strings the redactor scrubs: the patterns and the known-secret replacement are an arbitrary function.
- Redact.RedactTree: builds new arrays and objects, while the code overwrites an array in place.
- PathMtu.ProbeMTU: the budget and the deadline are arbitrary predicates; name resolution fails with one kind of error.
- Versions.ParseVersion: a character is one code point; strings with combining marks are refused by both sides and are not told apart further.
- Versions.CompareVersions: Foundation's numeric comparison, used outside the grammar, is an arbitrary function.
- Updater.UpdateStore.FinishCheck: signatures, freshness, the URL test and the transfer are one verdict; two copies of the app sharing their settings are not modelled.
- Relays, sockets, STUN, DNS service, the command line, the mobile and desktop interfaces.
