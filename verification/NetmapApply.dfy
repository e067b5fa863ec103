/**
 The netmap apply transaction (applyNetmapLocked, SetExit, ClearExit and SetInternetFallback in
 internal/daemon/daemon.go; internal/daemon/remote_target_firewall.go).

 A transaction drives a firewall and a data-plane engine, either of which may refuse and
 then keeps what it had. Every point between two of those calls is recorded, because that
 is where a leak would happen.
 */
module NetmapApply {
  import opened Optional
  import opened Mesh
  import PathSwitch
  import Routes

  // ---------------------------------------------------------------- data model

  type Prefix = Routes.Prefix

  datatype Role = RoleClient | RoleExit | RoleSubnetRouter

  datatype Peer = Peer(key: Key, name: string, meshIPs: seq<string>, role: Role, online: bool,
                       allowedIPs: seq<Prefix>, candidates: seq<string>)

  datatype Netmap = Netmap(version: nat, selfMeshIPs: seq<string>, peers: seq<Peer>)

  const NO_NETMAP := Netmap(0, [], [])

  datatype ManagedService = ManagedService(target: string, port: nat)

  datatype Rule = Rule(source: string, target: string, port: nat)

  /** netguard.Policy: the EXIT half, then the remote-ingress half. */
  datatype Policy = Policy(
    enabled: bool, tunnelEndpoints: seq<string>, relayEndpoints: seq<string>, controlEndpoints: seq<string>,
    allowCIDRs: seq<string>, tunnelInterface: string,
    remoteEnforcement: bool, managedServices: seq<ManagedService>, remoteAccessRules: seq<Rule>,
    remoteMeshPrefixes: seq<string>)

  const NO_POLICY := Policy(false, [], [], [], [], "", false, [], [], [])

  datatype DesiredRule = DesiredRule(source: Option<string>, target: Option<string>, protocol: string, port: nat)

  datatype RemoteTarget = RemoteTarget(required: bool, managedPorts: seq<nat>, rules: seq<DesiredRule>)

  const NO_TARGET := RemoteTarget(false, [], [])

  datatype EnginePeer = EnginePeer(key: Key, role: Role, allowed: seq<Prefix>)

  datatype EngineConfig = EngineConfig(peers: seq<EnginePeer>, killSwitch: bool, blockIPv6: bool)

  const NO_CONFIG := EngineConfig([], false, false)

  datatype Config = Config(killSwitch: bool, acceptRoutes: bool)

  /** What the daemon cannot know in advance: verdicts of signatures, handshakes, the host, the guard and the engine. */
  datatype Inputs = Inputs(
    identityOK: bool,
    trusted: Peer -> bool,
    legacyUnsigned: Peer -> bool,
    exitReady: Key -> bool,
    remoteCapable: bool, hasRemotePayload: bool, remoteTarget: RemoteTarget, remoteView: seq<string>,
    meshAddress: string -> bool,
    addressText: Routes.Bits -> string,
    policyValid: Policy -> bool,
    interfaceName: string,
    tunnelEndpoints: seq<string>, relayEndpoints: seq<string>, controlEndpoints: seq<string>, allowCIDRs: seq<string>,
    closeOK: bool, firstOK: bool, engineOK: bool, rollbackOK: bool, finalOK: bool)
  {
    /** The guard and the engine take what they are given. */
    predicate Accepting() { firstOK && engineOK && finalOK }
  }

  datatype Failure =
    | IdentityMismatch | NetmapRollback | NetmapEquivocation
    | ComposeFailed | GuardFailed | EngineFailed | DisarmFailed

  datatype Result = Committed | Failed(cause: Failure)

  /** The refusals that come before anything is touched. */
  const EARLY := {IdentityMismatch, NetmapRollback, NetmapEquivocation}

  /** The bookkeeping a commit replaces and a failure must not touch. */
  datatype Books = Books(lastNetmap: Netmap, exitPeerKey: Key, exitRouted: bool, path: PathSwitch.PathBook)

  /** What a prepared candidate will commit for one peer: its advertised endpoints, and whether they are new. */
  datatype PeerCandidate = PeerCandidate(key: Key, endpoints: seq<string>, changed: bool)

  /** A candidate ready to be tried on the firewall and the engine. */
  datatype Candidate = Candidate(exitPeerKey: Key, exitRouted: bool, peers: seq<PeerCandidate>)

  // ------------------------------------------------------------ policy composition

  /** copyExitPolicy: take over the EXIT half of src. */
  function CopyExitPolicy(dst: Policy, src: Policy): (r: Policy)
    ensures r.enabled == src.enabled && r.tunnelEndpoints == src.tunnelEndpoints
            && r.relayEndpoints == src.relayEndpoints
    ensures r.controlEndpoints == src.controlEndpoints && r.allowCIDRs == src.allowCIDRs
    ensures SameRemoteHalf(r, dst)
    ensures src.enabled ==> r.tunnelInterface == src.tunnelInterface
    ensures dst.remoteEnforcement && !src.enabled ==> r.tunnelInterface == dst.tunnelInterface
    ensures r.tunnelInterface in {src.tunnelInterface, dst.tunnelInterface}
    ensures SameExitHalf(dst, src) && dst.tunnelInterface == src.tunnelInterface ==> r == dst
  {
    var copied := dst.(enabled := src.enabled, tunnelEndpoints := src.tunnelEndpoints,
                       relayEndpoints := src.relayEndpoints,
                       controlEndpoints := src.controlEndpoints, allowCIDRs := src.allowCIDRs);
    if src.enabled || !dst.remoteEnforcement then copied.(tunnelInterface := src.tunnelInterface) else copied
  }

  predicate SameRemoteHalf(p: Policy, q: Policy) {
    && p.remoteEnforcement == q.remoteEnforcement && p.managedServices == q.managedServices
    && p.remoteAccessRules == q.remoteAccessRules && p.remoteMeshPrefixes == q.remoteMeshPrefixes
  }

  /** The EXIT leak protection of two policies is the same, the interface aside. */
  predicate SameExitHalf(p: Policy, q: Policy) {
    && p.enabled == q.enabled && p.tunnelEndpoints == q.tunnelEndpoints && p.relayEndpoints == q.relayEndpoints
    && p.controlEndpoints == q.controlEndpoints && p.allowCIDRs == q.allowCIDRs
  }

  predicate RuleBound(r: DesiredRule, targetIP: string) {
    r.source.Some? && r.target == Some(targetIP) && r.protocol == "tcp" && r.port != 0
  }

  /** The conditions under which a remote target policy can be composed. */
  predicate Composable(base: Policy, target: RemoteTarget, self: seq<string>, inp: Inputs) {
    && inp.remoteCapable && target.managedPorts != [] && self != [] && inp.meshAddress(self[0])
    && (base.tunnelInterface != "" || inp.interfaceName != "")
    && 0 !in target.managedPorts
    && (forall r :: r in target.rules ==> RuleBound(r, self[0]))
  }

  function RemoteHalf(base: Policy, target: RemoteTarget, self: seq<string>, inp: Inputs): Policy
    requires Composable(base, target, self, inp)
  {
    base.(tunnelInterface := if base.tunnelInterface != "" then base.tunnelInterface else inp.interfaceName,
          remoteEnforcement := true,
          managedServices := seq(|target.managedPorts|, i requires 0 <= i < |target.managedPorts| =>
                                   ManagedService(self[0], target.managedPorts[i])),
          remoteAccessRules := seq(|target.rules|, i requires 0 <= i < |target.rules| =>
                                     assert target.rules[i] in target.rules;
                                     Rule(target.rules[i].source.value, self[0], target.rules[i].port)),
          remoteMeshPrefixes := ["100.64.0.0/10", "fd00::/8"])
  }

  /** composeRemoteTargetPolicy as a value: the remote half replaced, the EXIT half intact. */
  function Compose(base: Policy, target: RemoteTarget, self: seq<string>, inp: Inputs): (r: Option<Policy>)
    ensures r.Some? ==> SameExitHalf(r.value, base)
    ensures r.Some? && base.tunnelInterface != "" ==> r.value.tunnelInterface == base.tunnelInterface
    ensures r.Some? ==> r.value.remoteEnforcement == target.required
    ensures r.Some? && !target.required ==> r.value.remoteAccessRules == [] && r.value.managedServices == []
    ensures r.Some? ==> forall x :: x in r.value.remoteAccessRules ==>
              self != [] && x.target == self[0] && x.port != 0
              && exists d :: d in target.rules && d.source == Some(x.source) && d.port == x.port
  {
    var cleared := base.(remoteEnforcement := false, managedServices := [], remoteAccessRules := [],
                         remoteMeshPrefixes := []);
    if !target.required then Some(cleared)
    else if !Composable(cleared, target, self, inp) then None
    else
      var p := RemoteHalf(cleared, target, self, inp);
      assert forall i :: 0 <= i < |target.rules| ==>
          target.rules[i] in target.rules
          && p.remoteAccessRules[i] == Rule(target.rules[i].source.value, self[0], target.rules[i].port);
      if inp.policyValid(p) then Some(p) else None
  }

  /** composeRemoteTargetPolicy: the loops that build the services and the rules. */
  method ComposeRemoteTargetPolicy(base: Policy, target: RemoteTarget, self: seq<string>, inp: Inputs)
      returns (r: Option<Policy>)
    ensures r == Compose(base, target, self, inp)
  {
    var p := base.(remoteEnforcement := false, managedServices := [], remoteAccessRules := [],
                   remoteMeshPrefixes := []);
    if !target.required {
      return Some(p);
    }
    if !inp.remoteCapable || |target.managedPorts| == 0 || |self| == 0 || !inp.meshAddress(self[0]) {
      return None;
    }
    var ifname := if p.tunnelInterface != "" then p.tunnelInterface else inp.interfaceName;
    if ifname == "" {
      return None;
    }
    var services: seq<ManagedService> := [];
    for i := 0 to |target.managedPorts|
      invariant |services| == i && 0 !in target.managedPorts[..i]
      invariant forall k :: 0 <= k < i ==> services[k] == ManagedService(self[0], target.managedPorts[k])
    {
      if target.managedPorts[i] == 0 {
        return None;
      }
      assert target.managedPorts[..i + 1] == target.managedPorts[..i] + [target.managedPorts[i]];
      services := services + [ManagedService(self[0], target.managedPorts[i])];
    }
    assert target.managedPorts[..|target.managedPorts|] == target.managedPorts;
    var rules: seq<Rule> := [];
    for i := 0 to |target.rules|
      invariant |rules| == i
      invariant forall k :: 0 <= k < i ==> RuleBound(target.rules[k], self[0])
      invariant forall k :: 0 <= k < i ==> rules[k] == Rule(target.rules[k].source.value, self[0], target.rules[k].port)
    {
      var d := target.rules[i];
      if d.source.None? || d.target.None? || d.protocol != "tcp" || d.port == 0 || d.target.value != self[0] {
        assert d in target.rules && !RuleBound(d, self[0]);
        return None;
      }
      rules := rules + [Rule(d.source.value, self[0], d.port)];
    }
    var built := p.(tunnelInterface := ifname, remoteEnforcement := true, managedServices := services,
                    remoteAccessRules := rules, remoteMeshPrefixes := ["100.64.0.0/10", "fd00::/8"]);
    assert Composable(p, target, self, inp);
    assert built == RemoteHalf(p, target, self, inp);
    if !inp.policyValid(built) {
      return None;
    }
    return Some(built);
  }

  // --------------------------------------------------------------- the candidate

  predicate IsIPv4(p: Prefix) { |p.addr| == Routes.FAMILY_V4 }

  /** A route to just one of the peer's own mesh addresses. */
  predicate MeshRoute(inp: Inputs, meshIPs: seq<string>, p: Prefix) {
    p.IsValid() && p.bits == |p.addr| && inp.addressText(p.addr) in meshIPs
  }

  /** The programmed routes have an IPv4 default and no IPv6 one. */
  ghost predicate OnlyV4Default(prefixes: seq<Prefix>) {
    && (exists p :: p in prefixes && p.bits == 0 && |p.addr| == 32)
    && (forall p :: p in prefixes && p.bits == 0 ==> |p.addr| == 32)
  }

  predicate HasDefault(prefixes: seq<Prefix>) { exists p :: p in prefixes && p.bits == 0 }

  predicate IPv4DefaultOnly(prefixes: seq<Prefix>) {
    && (exists p :: p in prefixes && p.bits == 0 && IsIPv4(p))
    && (forall p :: p in prefixes && p.bits == 0 ==> IsIPv4(p))
  }

  function WithoutDefaults(prefixes: seq<Prefix>): seq<Prefix> {
    if prefixes == [] then []
    else
      var rest, last := WithoutDefaults(prefixes[..|prefixes| - 1]), prefixes[|prefixes| - 1];
      if last.bits == 0 then rest else rest + [last]
  }

  function DefaultsOf(prefixes: seq<Prefix>): seq<Prefix> {
    if prefixes == [] then []
    else
      var rest, last := DefaultsOf(prefixes[..|prefixes| - 1]), prefixes[|prefixes| - 1];
      if last.bits == 0 then rest + [last] else rest
  }

  function MeshOnly(inp: Inputs, meshIPs: seq<string>, prefixes: seq<Prefix>): seq<Prefix> {
    if prefixes == [] then []
    else
      var rest, last := MeshOnly(inp, meshIPs, prefixes[..|prefixes| - 1]), prefixes[|prefixes| - 1];
      if MeshRoute(inp, meshIPs, last) then rest + [last] else rest
  }

  /** The filters keep exactly what they say. */
  lemma {:induction false} FiltersKeep(inp: Inputs, meshIPs: seq<string>, prefixes: seq<Prefix>, p: Prefix)
    ensures p in WithoutDefaults(prefixes) <==> p in prefixes && p.bits != 0
    ensures p in DefaultsOf(prefixes) <==> p in prefixes && p.bits == 0
    ensures p in MeshOnly(inp, meshIPs, prefixes) <==>
            p in prefixes && |p.addr| > 0 && p.bits == |p.addr| && inp.addressText(p.addr) in meshIPs
  {
    if prefixes != [] {
      var rest, last := prefixes[..|prefixes| - 1], prefixes[|prefixes| - 1];
      assert prefixes == rest + [last];
      FiltersKeep(inp, meshIPs, rest, p);
    }
  }

  method StripDefaultRoutes(prefixes: seq<Prefix>) returns (out: seq<Prefix>)
    ensures out == WithoutDefaults(prefixes)
  {
    out := [];
    for i := 0 to |prefixes|
      invariant out == WithoutDefaults(prefixes[..i])
    {
      assert prefixes[..i + 1][..i] == prefixes[..i];
      if prefixes[i].bits == 0 {
        continue;
      }
      out := out + [prefixes[i]];
    }
    assert prefixes[..|prefixes|] == prefixes;
  }

  method KeepMeshOnly(inp: Inputs, prefixes: seq<Prefix>, meshIPs: seq<string>) returns (out: seq<Prefix>)
    ensures out == MeshOnly(inp, meshIPs, prefixes)
  {
    out := [];
    for i := 0 to |prefixes|
      invariant out == MeshOnly(inp, meshIPs, prefixes[..i])
    {
      assert prefixes[..i + 1][..i] == prefixes[..i];
      if MeshRoute(inp, meshIPs, prefixes[i]) {
        out := out + [prefixes[i]];
      }
    }
    assert prefixes[..|prefixes|] == prefixes;
  }

  method KeepMeshAndDefaults(inp: Inputs, prefixes: seq<Prefix>, meshIPs: seq<string>) returns (out: seq<Prefix>)
    ensures out == MeshOnly(inp, meshIPs, prefixes) + DefaultsOf(prefixes)
  {
    out := KeepMeshOnly(inp, prefixes, meshIPs);
    for i := 0 to |prefixes|
      invariant out == MeshOnly(inp, meshIPs, prefixes) + DefaultsOf(prefixes[..i])
    {
      assert prefixes[..i + 1][..i] == prefixes[..i];
      if prefixes[i].bits == 0 {
        out := out + [prefixes[i]];
      }
    }
    assert prefixes[..|prefixes|] == prefixes;
  }

  /** A peer that is programmed as the preferred exit. */
  predicate Selects(inp: Inputs, preferred: string, p: Peer) {
    inp.trusted(p) && p.role == RoleExit && (p.name == preferred || preferred in p.meshIPs)
  }

  /** The last selecting peer among the first n: the one whose name and readiness decide. */
  function LastSelected(inp: Inputs, preferred: string, peers: seq<Peer>, n: nat): (r: Option<Peer>)
    requires n <= |peers|
    ensures r.Some? ==> r.value in peers && Selects(inp, preferred, r.value)
    ensures r.None? <==> forall i :: 0 <= i < n ==> !Selects(inp, preferred, peers[i])
  {
    if n == 0 then None
    else if Selects(inp, preferred, peers[n - 1]) then Some(peers[n - 1])
    else LastSelected(inp, preferred, peers, n - 1)
  }

  /** The exit the transaction will call active; None when no exit is selected. */
  function ActiveExit(inp: Inputs, preferred: string, nm: Netmap): (r: Option<Peer>)
    ensures r.Some? ==> r.value in nm.peers && r.value.role == RoleExit
  {
    LastSelected(inp, preferred, nm.peers, |nm.peers|)
  }

  /**
   The peer's advertised route x may be programmed: a default of an exit only if that exit is the one chosen and is
   ready, a subnet only if routes are accepted, and without a route signature only the peer's own single addresses,
   with its defaults if it is an exit.
   */
  ghost predicate Admits(cfg: Config, inp: Inputs, preferred: string, p: Peer, x: Prefix) {
    var own := |x.addr| > 0 && x.bits == |x.addr| && inp.addressText(x.addr) in p.meshIPs;
    && (x.bits == 0 && p.role == RoleExit ==> (p.name == preferred || preferred in p.meshIPs) && inp.exitReady(p.key))
    && (p.role == RoleSubnetRouter && !cfg.acceptRoutes ==> own)
    && (inp.legacyUnsigned(p) ==> own || (p.role == RoleExit && x.bits == 0))
  }

  /** e is how the engine is told about p: exactly the admitted routes, defaults only for a ready selected exit. */
  ghost predicate Renders(cfg: Config, inp: Inputs, preferred: string, p: Peer, e: EnginePeer) {
    && e.key == p.key && e.role == p.role
    && (forall x :: x in e.allowed <==> x in p.allowedIPs && Admits(cfg, inp, preferred, p, x))
    && (p.role == RoleExit ==>
          (HasDefault(e.allowed) <==>
           && HasDefault(p.allowedIPs)
           && (p.name == preferred || preferred in p.meshIPs) && inp.exitReady(p.key)))
  }

  /** The routes the engine gets for one peer. */
  function RoutesFor(cfg: Config, inp: Inputs, preferred: string, p: Peer): seq<Prefix> {
    var signed :=
      if !inp.legacyUnsigned(p) then p.allowedIPs
      else if p.role == RoleExit then MeshOnly(inp, p.meshIPs, p.allowedIPs) + DefaultsOf(p.allowedIPs)
      else MeshOnly(inp, p.meshIPs, p.allowedIPs);
    var chosen :=
      if p.role == RoleExit && !(PeerMatches(p.name, p.meshIPs, preferred) && inp.exitReady(p.key))
      then WithoutDefaults(signed) else signed;
    if p.role == RoleSubnetRouter && !cfg.acceptRoutes then MeshOnly(inp, p.meshIPs, chosen) else chosen
  }

  /** They are exactly the admitted ones. */
  lemma RoutesAreAdmitted(cfg: Config, inp: Inputs, preferred: string, p: Peer)
    ensures Renders(cfg, inp, preferred, p, EnginePeer(p.key, p.role, RoutesFor(cfg, inp, preferred, p)))
  {
    forall x: Prefix
      ensures x in RoutesFor(cfg, inp, preferred, p) <==> x in p.allowedIPs && Admits(cfg, inp, preferred, p, x)
    {
      AdmittedRoute(cfg, inp, preferred, p, x);
    }
  }

  lemma AdmittedRoute(cfg: Config, inp: Inputs, preferred: string, p: Peer, x: Prefix)
    ensures x in RoutesFor(cfg, inp, preferred, p) <==> x in p.allowedIPs && Admits(cfg, inp, preferred, p, x)
  {
    var mesh := MeshOnly(inp, p.meshIPs, p.allowedIPs);
    FiltersKeep(inp, p.meshIPs, p.allowedIPs, x);
    FiltersKeep(inp, p.meshIPs, mesh, x);
    FiltersKeep(inp, p.meshIPs, mesh + DefaultsOf(p.allowedIPs), x);
  }

  method AllowedFor(cfg: Config, inp: Inputs, preferred: string, p: Peer) returns (allowed: seq<Prefix>)
    ensures allowed == RoutesFor(cfg, inp, preferred, p)
    ensures Renders(cfg, inp, preferred, p, EnginePeer(p.key, p.role, allowed))
  {
    allowed := p.allowedIPs;
    if inp.legacyUnsigned(p) {
      if p.role == RoleExit {
        allowed := KeepMeshAndDefaults(inp, allowed, p.meshIPs);
      } else {
        allowed := KeepMeshOnly(inp, allowed, p.meshIPs);
      }
    }
    if p.role == RoleExit {
      if PeerMatches(p.name, p.meshIPs, preferred) {
        if !inp.exitReady(p.key) {
          allowed := StripDefaultRoutes(allowed);
        }
      } else {
        allowed := StripDefaultRoutes(allowed);
      }
    }
    if p.role == RoleSubnetRouter && !cfg.acceptRoutes {
      allowed := KeepMeshOnly(inp, allowed, p.meshIPs);
    }
    RoutesAreAdmitted(cfg, inp, preferred, p);
  }

  /** Some exit's default routes are programmed. */
  ghost predicate ExitDefaults(c: EngineConfig) {
    exists e :: e in c.peers && e.role == RoleExit && HasDefault(e.allowed)
  }

  /** The peers that pass the signature and post-quantum checks, in netmap order. */
  function Trusted(inp: Inputs, peers: seq<Peer>, n: nat): (kept: seq<Peer>)
    requires n <= |peers|
    ensures forall p :: p in kept <==> p in peers[..n] && inp.trusted(p)
  {
    if n == 0 then []
    else
      var rest := Trusted(inp, peers, n - 1);
      assert peers[..n] == peers[..n - 1] + [peers[n - 1]];
      if inp.trusted(peers[n - 1]) then rest + [peers[n - 1]] else rest
  }

  /** The engine peers render the kept peers one by one. */
  ghost predicate RendersAll(cfg: Config, inp: Inputs, preferred: string, kept: seq<Peer>, peers: seq<EnginePeer>) {
    |kept| == |peers| && forall k :: 0 <= k < |peers| ==> Renders(cfg, inp, preferred, kept[k], peers[k])
  }

  /** What the first n peers will commit, those that fail their checks left out. */
  function PeerChanges(inp: Inputs, seen: map<Key, seq<string>>, peers: seq<Peer>, n: nat): seq<PeerCandidate>
    requires n <= |peers|
  {
    if n == 0 then []
    else
      var rest, p := PeerChanges(inp, seen, peers, n - 1), peers[n - 1];
      if inp.trusted(p)
      then rest + [PeerCandidate(p.key, p.candidates, PathSwitch.Get(seen, p.key, []) != p.candidates)]
      else rest
  }

  /** The path bookkeeping once the candidates have committed in order. */
  function PathsAfter(path: PathSwitch.PathBook, changes: seq<PeerCandidate>): PathSwitch.PathBook {
    if changes == [] then path
    else
      var last, before := changes[|changes| - 1], PathsAfter(path, changes[..|changes| - 1]);
      if last.changed then before.Reset(last.key, last.endpoints) else before
  }

  /** Nothing is left of the key's history on any path. */
  ghost predicate Forgotten(path: PathSwitch.PathBook, key: Key) {
    && key !in path.relayed && key !in path.relaySince && key !in path.directSince && key !in path.lastRx
    && key !in path.rxProgress && key !in path.candidateIndex && key !in path.candidateAttempts
  }

  ghost predicate SameEntry<V>(m: map<Key, V>, n: map<Key, V>, key: Key) {
    (key in m <==> key in n) && (key in m ==> m[key] == n[key])
  }

  /** The key's path bookkeeping is as it was. */
  ghost predicate Untouched(p: PathSwitch.PathBook, q: PathSwitch.PathBook, key: Key) {
    && (key in p.relayed <==> key in q.relayed)
    && SameEntry(p.relaySince, q.relaySince, key) && SameEntry(p.directSince, q.directSince, key)
    && SameEntry(p.lastRx, q.lastRx, key) && SameEntry(p.rxProgress, q.rxProgress, key)
    && SameEntry(p.candidateIndex, q.candidateIndex, key) && SameEntry(p.candidateAttempts, q.candidateAttempts, key)
    && SameEntry(p.epSeen, q.epSeen, key)
  }

  /** Some candidate has new endpoints for the key. */
  ghost predicate Changes(changes: seq<PeerCandidate>, key: Key) {
    exists i :: 0 <= i < |changes| && changes[i].key == key && changes[i].changed
  }

  lemma ChangesOneMore(changes: seq<PeerCandidate>, key: Key)
    requires changes != []
    ensures var rest, last := changes[..|changes| - 1], changes[|changes| - 1];
            Changes(changes, key) <==> Changes(rest, key) || (last.key == key && last.changed)
  {
    var rest := changes[..|changes| - 1];
    if Changes(rest, key) {
      var i :| 0 <= i < |rest| && rest[i].key == key && rest[i].changed;
      assert changes[i] == rest[i];
    }
  }

  lemma ResetForgets(path: PathSwitch.PathBook, key: Key, endpoints: seq<string>, other: Key)
    ensures Forgotten(path.Reset(key, endpoints), key) && path.Reset(key, endpoints).epSeen[key] == endpoints
    ensures other != key ==> Untouched(path, path.Reset(key, endpoints), other)
  {
  }

  lemma UntouchedStays(p: PathSwitch.PathBook, q: PathSwitch.PathBook, r: PathSwitch.PathBook, key: Key)
    requires Untouched(q, r, key)
    ensures Untouched(p, q, key) ==> Untouched(p, r, key)
    ensures Forgotten(q, key) ==> Forgotten(r, key)
    ensures key in q.epSeen ==> key in r.epSeen && r.epSeen[key] == q.epSeen[key]
  {
  }

  /** A commit forgets the paths of exactly the peers whose endpoints changed, and learns endpoints they advertise. */
  lemma {:induction false} CommitForgetsChanged(path: PathSwitch.PathBook, changes: seq<PeerCandidate>, key: Key)
    ensures var after := PathsAfter(path, changes);
            if Changes(changes, key)
            then Forgotten(after, key) && key in after.epSeen && PeerCandidate(key, after.epSeen[key], true) in changes
            else Untouched(path, after, key)
  {
    if changes != [] {
      var rest, last := changes[..|changes| - 1], changes[|changes| - 1];
      var before := PathsAfter(path, rest);
      assert last in changes && forall c :: c in rest ==> c in changes;
      ChangesOneMore(changes, key);
      CommitForgetsChanged(path, rest, key);
      if last.changed {
        ResetForgets(before, last.key, last.endpoints, key);
        if last.key != key {
          UntouchedStays(path, before, PathsAfter(path, changes), key);
        } else {
          assert last == PeerCandidate(key, last.endpoints, true);
        }
      }
    }
  }

  /** The changes are those of the trusted peers of the netmap, told against what was seen before. */
  lemma {:induction false} ChangesOfTrusted(inp: Inputs, seen: map<Key, seq<string>>, peers: seq<Peer>, n: nat,
                                            c: PeerCandidate)
    requires n <= |peers|
    ensures c in PeerChanges(inp, seen, peers, n) <==>
            exists i :: 0 <= i < n && inp.trusted(peers[i]) && c.key == peers[i].key
                        && c.endpoints == peers[i].candidates
                        && (c.changed <==> PathSwitch.Get(seen, c.key, []) != c.endpoints)
  {
    if n > 0 {
      ChangesOfTrusted(inp, seen, peers, n - 1, c);
    }
  }

  /** The path bookkeeping committed here is the one whose runs the path switch is proved about. */
  lemma {:induction false} CommitsAsPathSwitch(inp: Inputs, s: PathSwitch.State, peers: seq<Peer>,
                                               nodes: seq<PathSwitch.Node>, programmed: set<Key>, n: nat)
    requires |nodes| == |peers| && n <= |peers|
    requires forall i :: 0 <= i < |peers| ==>
               && nodes[i].key == peers[i].key && nodes[i].candidates == peers[i].candidates
               && (inp.trusted(peers[i]) <==> peers[i].key in programmed)
    ensures PathSwitch.CommitFirst(s, s.path.epSeen, nodes, programmed, n).path
         == PathsAfter(s.path, PeerChanges(inp, s.path.epSeen, peers, n))
  {
    if n > 0 {
      CommitsAsPathSwitch(inp, s, peers, nodes, programmed, n - 1);
      var rest, all := PeerChanges(inp, s.path.epSeen, peers, n - 1), PeerChanges(inp, s.path.epSeen, peers, n);
      if inp.trusted(peers[n - 1]) {
        assert all[..|all| - 1] == rest;
      }
    }
  }

  /** The books a commit of nm leaves behind. */
  ghost function BooksAfter(inp: Inputs, preferred: string, nm: Netmap, before: Books): Books {
    var exit := ActiveExit(inp, preferred, nm);
    Books(nm, if exit.Some? then exit.value.key else 0, exit.Some? && inp.exitReady(exit.value.key),
          PathsAfter(before.path, PeerChanges(inp, before.path.epSeen, nm.peers, |nm.peers|)))
  }

  /** The engine's view of the first n peers: the trusted ones, in order, with their routes. */
  function EnginePeers(cfg: Config, inp: Inputs, preferred: string, peers: seq<Peer>, n: nat): seq<EnginePeer>
    requires n <= |peers|
  {
    if n == 0 then []
    else
      var rest, p := EnginePeers(cfg, inp, preferred, peers, n - 1), peers[n - 1];
      if inp.trusted(p) then rest + [EnginePeer(p.key, p.role, RoutesFor(cfg, inp, preferred, p))] else rest
  }

  lemma {:induction false} EnginePeersRender(cfg: Config, inp: Inputs, preferred: string, peers: seq<Peer>, n: nat)
    requires n <= |peers|
    ensures RendersAll(cfg, inp, preferred, Trusted(inp, peers, n), EnginePeers(cfg, inp, preferred, peers, n))
  {
    if n > 0 {
      EnginePeersRender(cfg, inp, preferred, peers, n - 1);
      RoutesAreAdmitted(cfg, inp, preferred, peers[n - 1]);
    }
  }

  /** The candidate loop of applyNetmapLocked. */
  method BuildCandidate(cfg: Config, inp: Inputs, preferred: string, nm: Netmap, seen: map<Key, seq<string>>)
      returns (peers: seq<EnginePeer>, active: Option<Peer>, changes: seq<PeerCandidate>)
    ensures active == ActiveExit(inp, preferred, nm)
    ensures peers == EnginePeers(cfg, inp, preferred, nm.peers, |nm.peers|)
    ensures changes == PeerChanges(inp, seen, nm.peers, |nm.peers|)
  {
    peers, active, changes := [], None, [];
    for i := 0 to |nm.peers|
      invariant active == LastSelected(inp, preferred, nm.peers, i)
      invariant peers == EnginePeers(cfg, inp, preferred, nm.peers, i)
      invariant changes == PeerChanges(inp, seen, nm.peers, i)
    {
      var p := nm.peers[i];
      if inp.trusted(p) {
        var allowed := AllowedFor(cfg, inp, preferred, p);
        if p.role == RoleExit && PeerMatches(p.name, p.meshIPs, preferred) {
          active := Some(p);
        }
        peers := peers + [EnginePeer(p.key, p.role, allowed)];
        changes := changes + [PeerCandidate(p.key, p.candidates, PathSwitch.Get(seen, p.key, []) != p.candidates)];
      }
    }
  }

  /** The netmap lets the selected exit carry default routes: a trusted, matching, ready exit advertises them. */
  ghost predicate RoutesExit(inp: Inputs, preferred: string, nm: Netmap) {
    exists p :: p in nm.peers && Selects(inp, preferred, p) && inp.exitReady(p.key) && HasDefault(p.allowedIPs)
  }

  /** Exit default routes in the candidate come from a selected, ready exit that advertises them. */
  lemma DefaultsComeFromSelected(cfg: Config, inp: Inputs, preferred: string, nm: Netmap, kept: seq<Peer>,
                                 c: EngineConfig)
    requires RendersAll(cfg, inp, preferred, kept, c.peers) && ExitDefaults(c)
    requires forall p :: p in kept ==> p in nm.peers && inp.trusted(p)
    ensures RoutesExit(inp, preferred, nm)
  {
    var e :| e in c.peers && e.role == RoleExit && HasDefault(e.allowed);
    var k :| 0 <= k < |c.peers| && c.peers[k] == e;
    assert Renders(cfg, inp, preferred, kept[k], c.peers[k]);
    assert kept[k] in kept;
  }

  /** ... and every such exit gets them. */
  lemma SelectedGetsDefaults(cfg: Config, inp: Inputs, preferred: string, nm: Netmap, kept: seq<Peer>, c: EngineConfig)
    requires RendersAll(cfg, inp, preferred, kept, c.peers) && RoutesExit(inp, preferred, nm)
    requires forall p :: p in nm.peers && inp.trusted(p) ==> p in kept
    ensures ExitDefaults(c)
  {
    var p :| p in nm.peers && Selects(inp, preferred, p) && inp.exitReady(p.key) && HasDefault(p.allowedIPs);
    var k :| 0 <= k < |kept| && kept[k] == p;
    assert Renders(cfg, inp, preferred, kept[k], c.peers[k]);
    assert c.peers[k] in c.peers;
  }

  /** The candidate carries exit default routes exactly when the netmap lets a selected exit carry them. */
  lemma CandidateDefaults(cfg: Config, inp: Inputs, preferred: string, nm: Netmap, c: EngineConfig)
    requires RendersAll(cfg, inp, preferred, Trusted(inp, nm.peers, |nm.peers|), c.peers)
    ensures ExitDefaults(c) <==> RoutesExit(inp, preferred, nm)
  {
    var kept := Trusted(inp, nm.peers, |nm.peers|);
    assert nm.peers[..|nm.peers|] == nm.peers;
    if ExitDefaults(c) { DefaultsComeFromSelected(cfg, inp, preferred, nm, kept, c); }
    if RoutesExit(inp, preferred, nm) { SelectedGetsDefaults(cfg, inp, preferred, nm, kept, c); }
  }

  /** The last trusted exit of the netmap that answers to the selection has a name. */
  ghost predicate NamedExit(inp: Inputs, preferred: string, nm: Netmap) {
    exists i :: 0 <= i < |nm.peers| && Selects(inp, preferred, nm.peers[i]) && nm.peers[i].name != ""
                && forall j :: i < j < |nm.peers| ==> !Selects(inp, preferred, nm.peers[j])
  }

  /**
   The engine's own fail-closed mode is on exactly when an exit is routed under the kill switch, and IPv6 is blocked
   exactly when the routed, named exit is programmed with an IPv4 default and no IPv6 one.
   */
  ghost predicate FlagsMatch(config: EngineConfig, failClosed: bool, exitRouted: bool, exitNamed: bool, exitKey: Key) {
    && config.killSwitch == (failClosed && exitRouted)
    && (config.blockIPv6 <==> exitRouted && exitNamed
                              && exists e :: e in config.peers && e.key == exitKey && OnlyV4Default(e.allowed))
  }

  lemma {:induction false} LastSelectedIsLast(inp: Inputs, preferred: string, peers: seq<Peer>, n: nat)
    requires n <= |peers| && LastSelected(inp, preferred, peers, n).Some?
    ensures exists i :: 0 <= i < n && peers[i] == LastSelected(inp, preferred, peers, n).value
                        && forall j :: i < j < n ==> !Selects(inp, preferred, peers[j])
  {
    if !Selects(inp, preferred, peers[n - 1]) {
      LastSelectedIsLast(inp, preferred, peers, n - 1);
    }
  }

  lemma NamedIsSelected(inp: Inputs, preferred: string, nm: Netmap)
    ensures NamedExit(inp, preferred, nm) <==> ExitSelected(ActiveExit(inp, preferred, nm))
  {
    var active := ActiveExit(inp, preferred, nm);
    if active.Some? {
      LastSelectedIsLast(inp, preferred, nm.peers, |nm.peers|);
    }
  }

  /** The configuration the transaction gives the engine. */
  ghost function EngineFor(cfg: Config, fallback: bool, inp: Inputs, preferred: string, nm: Netmap): EngineConfig {
    var peers, exit := EnginePeers(cfg, inp, preferred, nm.peers, |nm.peers|), ActiveExit(inp, preferred, nm);
    var routed := exit.Some? && inp.exitReady(exit.value.key);
    EngineConfig(peers, cfg.killSwitch && !fallback && routed,
                 routed && ExitSelected(exit) && CarriesOnlyV4(peers, exit.value.key))
  }

  ghost predicate CarriesOnlyV4(peers: seq<EnginePeer>, key: Key) {
    exists e :: e in peers && e.key == key && OnlyV4Default(e.allowed)
  }

  /** What that configuration is: the admitted routes of the trusted peers, and the two fail-closed flags. */
  lemma EngineIs(cfg: Config, fallback: bool, inp: Inputs, preferred: string, nm: Netmap, before: Books)
    ensures var config, books := EngineFor(cfg, fallback, inp, preferred, nm), BooksAfter(inp, preferred, nm, before);
            && RendersAll(cfg, inp, preferred, Trusted(inp, nm.peers, |nm.peers|), config.peers)
            && FlagsMatch(config, cfg.killSwitch && !fallback, books.exitRouted, NamedExit(inp, preferred, nm),
                          books.exitPeerKey)
            && (ExitDefaults(config) <==> RoutesExit(inp, preferred, nm))
  {
    EnginePeersRender(cfg, inp, preferred, nm.peers, |nm.peers|);
    CandidateDefaults(cfg, inp, preferred, nm, EngineFor(cfg, fallback, inp, preferred, nm));
    NamedIsSelected(inp, preferred, nm);
  }

  // ----------------------------------------------------------------- the policies

  function RemoteTargetFor(inp: Inputs, current: Policy): RemoteTarget {
    if inp.remoteCapable && (inp.hasRemotePayload || current.remoteEnforcement) then inp.remoteTarget else NO_TARGET
  }

  /** killSwitchPolicy. */
  function KillSwitchPolicy(cfg: Config, fallback: bool, exitSelected: bool, inp: Inputs): (p: Policy)
    ensures p.enabled == (cfg.killSwitch && !fallback && exitSelected)
  {
    if cfg.killSwitch && !fallback && exitSelected
    then NO_POLICY.(enabled := true, tunnelEndpoints := inp.tunnelEndpoints, relayEndpoints := inp.relayEndpoints,
                    controlEndpoints := inp.controlEndpoints, allowCIDRs := inp.allowCIDRs,
                    tunnelInterface := inp.interfaceName)
    else NO_POLICY
  }

  /** An exit counts as selected by its non-empty name. */
  function ExitSelected(active: Option<Peer>): bool { active.Some? && active.value.name != "" }

  /** The firewall the transaction aims for; None when it cannot be composed. */
  function DesiredPolicy(cfg: Config, fallback: bool, inp: Inputs, preferred: string, nm: Netmap,
                         current: Policy): (r: Option<Policy>)
    ensures r.Some? ==> r.value.enabled == (cfg.killSwitch && !fallback && ExitSelected(ActiveExit(inp, preferred, nm)))
  {
    Compose(KillSwitchPolicy(cfg, fallback, ExitSelected(ActiveExit(inp, preferred, nm)), inp),
            RemoteTargetFor(inp, current), nm.selfMeshIPs, inp)
  }

  /** The remote half of p admits exactly the target's rules, at this node's own address, and nothing else. */
  ghost predicate EnforcesTarget(p: Policy, target: RemoteTarget, self: seq<string>) {
    && p.remoteEnforcement && self != []
    && |p.managedServices| == |target.managedPorts| && |p.remoteAccessRules| == |target.rules|
    && (forall i :: 0 <= i < |target.managedPorts| ==>
          p.managedServices[i] == ManagedService(self[0], target.managedPorts[i]))
    && (forall i :: 0 <= i < |target.rules| ==>
          && target.rules[i].source == Some(p.remoteAccessRules[i].source) && target.rules[i].target == Some(self[0])
          && target.rules[i].protocol == "tcp" && target.rules[i].port == p.remoteAccessRules[i].port != 0
          && p.remoteAccessRules[i].target == self[0])
    && p.remoteMeshPrefixes == ["100.64.0.0/10", "fd00::/8"]
  }

  /** The remote half of p is off. */
  ghost predicate EnforcesNothing(p: Policy) {
    !p.remoteEnforcement && p.managedServices == [] && p.remoteAccessRules == [] && p.remoteMeshPrefixes == []
  }

  lemma ComposedHalf(base: Policy, target: RemoteTarget, self: seq<string>, inp: Inputs)
    ensures match Compose(base, target, self, inp)
            case None => target.required
            case Some(p) =>
              && (if target.required then EnforcesTarget(p, target, self) else EnforcesNothing(p))
              && p.tunnelInterface == if target.required && base.tunnelInterface == "" then inp.interfaceName
                                      else base.tunnelInterface
  {
    var cleared := base.(remoteEnforcement := false, managedServices := [], remoteAccessRules := [],
                         remoteMeshPrefixes := []);
    if target.required && Composable(cleared, target, self, inp) {
      assert forall i :: 0 <= i < |target.rules| ==> target.rules[i] in target.rules;
    }
  }

  /** A target that can be composed is. */
  lemma ComposesWhenPossible(base: Policy, target: RemoteTarget, self: seq<string>, inp: Inputs)
    requires inp.remoteCapable && target.managedPorts != [] && 0 !in target.managedPorts
    requires self != [] && inp.meshAddress(self[0]) && inp.interfaceName != "" && forall p :: inp.policyValid(p)
    requires forall d :: d in target.rules ==>
               d.source.Some? && d.target == Some(self[0]) && d.protocol == "tcp" && d.port != 0
    ensures Compose(base, target, self, inp).Some?
  {
  }

  /** The firewall aimed for: armed for a named exit under the kill switch, and the netmap's remote target if any. */
  lemma DesiredPolicyIs(cfg: Config, fallback: bool, inp: Inputs, preferred: string, nm: Netmap, current: Policy)
    ensures var armed := cfg.killSwitch && !fallback && NamedExit(inp, preferred, nm);
            var enforced := inp.remoteCapable && (inp.hasRemotePayload || current.remoteEnforcement)
                            && inp.remoteTarget.required;
            match DesiredPolicy(cfg, fallback, inp, preferred, nm, current)
            case None => enforced
            case Some(p) =>
              && p.enabled == armed
              && p.tunnelEndpoints == (if armed then inp.tunnelEndpoints else [])
              && p.relayEndpoints == (if armed then inp.relayEndpoints else [])
              && p.controlEndpoints == (if armed then inp.controlEndpoints else [])
              && p.allowCIDRs == (if armed then inp.allowCIDRs else [])
              && p.tunnelInterface == (if armed || enforced then inp.interfaceName else "")
              && (if enforced then EnforcesTarget(p, inp.remoteTarget, nm.selfMeshIPs) else EnforcesNothing(p))
  {
    NamedIsSelected(inp, preferred, nm);
    var base := KillSwitchPolicy(cfg, fallback, ExitSelected(ActiveExit(inp, preferred, nm)), inp);
    ComposedHalf(base, RemoteTargetFor(inp, current), nm.selfMeshIPs, inp);
  }

  /** The exit the transaction would activate has no name, so it would route without arming. */
  ghost predicate RoutesUnnamedExit(inp: Inputs, preferred: string, nm: Netmap) {
    RoutesExit(inp, preferred, nm) && !ExitSelected(ActiveExit(inp, preferred, nm))
  }

  // ------------------------------------------------------------------- the daemon

  /** A point between two calls of the guard or the engine. */
  datatype Point = Point(policy: Policy, config: EngineConfig)

  /** Exit default routes are in place only behind an armed firewall. */
  ghost predicate Safe(pt: Point) { ExitDefaults(pt.config) ==> pt.policy.enabled }

  /**
   What a finished transaction leaves in force. A commit: the desired policy and the candidate's routes. A
   failed compose: the old EXIT posture, and no grant if the close took. A failed engine or a failed disarm:
   the new remote-access half, never the predecessor's.
   */
  ghost predicate LeavesInForce(r: Result, before: Point, after: Point, config: EngineConfig, desired: Option<Policy>,
                                closeOK: bool) {
    match r
    case Committed => Some(after.policy) == desired && after.config == config
    case Failed(ComposeFailed) =>
      after.policy.enabled == before.policy.enabled && after.config == before.config
      && (closeOK ==> after.policy.remoteAccessRules == [])
    case Failed(GuardFailed) => after == before
    case Failed(EngineFailed) => after.config == before.config && desired.Some?
                                 && SameRemoteHalf(after.policy, desired.value)
    case Failed(DisarmFailed) => after.policy.enabled && desired.Some? && SameRemoteHalf(after.policy, desired.value)
    case Failed(_) => after == before
  }

  /** What the transaction aims for is safe unless it routes an exit without a name. */
  lemma TargetIsSafe(cfg: Config, inp: Inputs, preferred: string, nm: Netmap, current: Policy, desired: Policy)
    requires cfg.killSwitch && !RoutesUnnamedExit(inp, preferred, nm)
    requires DesiredPolicy(cfg, false, inp, preferred, nm, current) == Some(desired)
    ensures Safe(Point(desired, EngineFor(cfg, false, inp, preferred, nm)))
  {
    EngineIs(cfg, false, inp, preferred, nm, Books(NO_NETMAP, 0, false, PathSwitch.NO_PATHS));
  }

  /** With the kill switch on and fallback off, a commit is safe exactly when the exit it routes has a name. */
  lemma CommitSafeExactlyWhenNamed(cfg: Config, inp: Inputs, preferred: string, nm: Netmap, before: Point, after: Point,
                                   closeOK: bool)
    requires cfg.killSwitch
    requires LeavesInForce(Committed, before, after, EngineFor(cfg, false, inp, preferred, nm),
                           DesiredPolicy(cfg, false, inp, preferred, nm, before.policy), closeOK)
    ensures Safe(after) <==> !RoutesUnnamedExit(inp, preferred, nm)
  {
    assert after.policy.enabled == ExitSelected(ActiveExit(inp, preferred, nm));
    EngineIs(cfg, false, inp, preferred, nm, Books(NO_NETMAP, 0, false, PathSwitch.NO_PATHS));
  }

  /** Committed versions never decrease, and from version 1 on equal versions are the same map. */
  ghost predicate Monotone(commits: seq<Netmap>) {
    forall i, j :: 0 <= i < j < |commits| ==>
      && commits[i].version <= commits[j].version
      && (commits[i].version == commits[j].version && commits[i].version > 0 ==> commits[i] == commits[j])
  }

  /** The active exit carries IPv4 only, so the host's own IPv6 default must be shut. */
  method BlocksIPv6(peers: seq<EnginePeer>, exitKey: Key) returns (block: bool)
    ensures block <==> CarriesOnlyV4(peers, exitKey)
  {
    for i := 0 to |peers|
      invariant forall k :: 0 <= k < i ==> !(peers[k].key == exitKey && OnlyV4Default(peers[k].allowed))
    {
      if peers[i].key == exitKey && IPv4DefaultOnly(peers[i].allowed) {
        assert peers[i] in peers;
        return true;
      }
    }
    return false;
  }

  class Daemon {
    const cfg: Config
    var guard: Policy
    var engine: EngineConfig
    var books: Books
    var preferredExit: string
    var internetFallback: bool
    var presented: seq<string>
    ghost var trail: seq<Point>
    ghost var commits: seq<Netmap>

    ghost predicate Valid()
      reads this
    {
      && Monotone(commits)
      && (if commits == [] then books.lastNetmap == NO_NETMAP else commits[|commits| - 1] == books.lastNetmap)
    }

    constructor (cfg: Config)
      ensures Valid() && this.cfg == cfg && commits == [] && trail == [] && !internetFallback
      ensures preferredExit == "" && books == Books(NO_NETMAP, 0, false, PathSwitch.NO_PATHS) && Protected()
    {
      this.cfg := cfg;
      guard, engine := NO_POLICY, NO_CONFIG;
      books := Books(NO_NETMAP, 0, false, PathSwitch.NO_PATHS);
      preferredExit, internetFallback, presented := "", false, [];
      trail, commits := [], [];
    }

    /** guard.Apply: succeeds, or leaves the old policy in force. */
    method GuardApply(policy: Policy, ok: bool)
      modifies this`guard, this`trail
      ensures guard == if ok then policy else old(guard)
      ensures trail == old(trail) + [Point(guard, engine)]
    {
      if ok {
        guard := policy;
      }
      trail := trail + [Point(guard, engine)];
    }

    /** engine.Reconfigure: succeeds, or leaves the old configuration in force. */
    method Reconfigure(config: EngineConfig, ok: bool)
      modifies this`engine, this`trail
      ensures engine == if ok then config else old(engine)
      ensures trail == old(trail) + [Point(guard, engine)]
    {
      if ok {
        engine := config;
      }
      trail := trail + [Point(guard, engine)];
    }

    /** The netmap is acceptable after the committed one. */
    predicate Acceptable(nm: Netmap)
      reads this
    {
      var prior := books.lastNetmap;
      prior.version > 0 ==> nm.version >= prior.version && (nm.version == prior.version ==> nm == prior)
    }

    /** Every point since the trail had n entries is safe. */
    ghost predicate SafeSince(n: nat)
      reads this
    {
      forall i :: n <= i < |trail| ==> Safe(trail[i])
    }

    /** applyNetmapLocked once the candidate is built: firewall, engine, deferred disarm, each of which may fail. */
    method Transact(desired: Policy, config: EngineConfig, inp: Inputs) returns (r: Result)
      modifies this`guard, this`engine, this`trail
      ensures old(trail) <= trail
      ensures r.Committed? ==> guard == desired && engine == config
      ensures inp.Accepting() ==> r.Committed?
      ensures r.Failed? ==> r.cause in {GuardFailed, EngineFailed, DisarmFailed}
      ensures r == Failed(GuardFailed) ==> guard == old(guard) && engine == old(engine)
      ensures r == Failed(EngineFailed) ==> engine == old(engine) && SameRemoteHalf(guard, desired)
      ensures r == Failed(EngineFailed) && inp.rollbackOK ==> SameExitHalf(guard, old(guard))
      ensures r == Failed(DisarmFailed) ==> SameExitHalf(guard, old(guard))
      ensures r == Failed(DisarmFailed) ==>
                engine == config && SameRemoteHalf(guard, desired) && guard.enabled && !desired.enabled
      ensures Safe(Point(old(guard), old(engine))) && Safe(Point(desired, config)) ==>
                SafeSince(|old(trail)|) && Safe(Point(guard, engine))
      ensures Safe(Point(old(guard), old(engine))) && r.Failed? ==> Safe(Point(guard, engine))
    {
      var prior := guard;
      var deferDisarm := prior.enabled && !desired.enabled;
      var intermediate := if deferDisarm then CopyExitPolicy(desired, prior) else desired;
      var firewallApplied := false;
      if prior != intermediate {
        GuardApply(intermediate, inp.firstOK);
        if !inp.firstOK {
          return Failed(GuardFailed);
        }
        firewallApplied := true;
      }
      Reconfigure(config, inp.engineOK);
      if !inp.engineOK {
        if firewallApplied {
          var rollbackPolicy := CopyExitPolicy(desired, prior);
          if guard != rollbackPolicy {
            GuardApply(rollbackPolicy, inp.rollbackOK);
          }
        }
        return Failed(EngineFailed);
      }
      if intermediate != desired {
        GuardApply(desired, inp.finalOK);
        if !inp.finalOK {
          return Failed(DisarmFailed);
        }
      }
      return Committed;
    }

    /** A replacement that cannot be composed keeps the deny boundary and the EXIT posture, and drops every grant. */
    method EmergencyClose(inp: Inputs)
      modifies this`guard, this`trail
      ensures old(trail) <= trail && SameExitHalf(guard, old(guard))
              && guard.tunnelInterface == old(guard).tunnelInterface
      ensures inp.closeOK || old(guard).remoteAccessRules == [] ==> guard == old(guard).(remoteAccessRules := [])
      ensures Safe(Point(old(guard), engine)) ==> SafeSince(|old(trail)|) && Safe(Point(guard, engine))
    {
      var closed := guard.(remoteAccessRules := []);
      if guard != closed {
        GuardApply(closed, inp.closeOK);
      }
    }

    /** The transaction's preparation: config and books for the candidate. */
    method Prepare(nm: Netmap, inp: Inputs) returns (config: EngineConfig, next: Candidate)
      ensures config == EngineFor(cfg, internetFallback, inp, preferredExit, nm)
      ensures Committing(nm, next) == BooksAfter(inp, preferredExit, nm, books)
    {
      var peers, active, changes := BuildCandidate(cfg, inp, preferredExit, nm, books.path.epSeen);
      var exitRouted := active.Some? && inp.exitReady(active.value.key);
      var exitKey := if active.Some? then active.value.key else 0;
      var block := false;
      if exitRouted && ExitSelected(active) {
        block := BlocksIPv6(peers, exitKey);
      }
      config := EngineConfig(peers, cfg.killSwitch && !internetFallback && exitRouted, block);
      next := Candidate(exitKey, exitRouted, changes);
    }

    /** The books that committing the candidate now would leave. */
    ghost function Committing(nm: Netmap, next: Candidate): Books
      reads this
    {
      Books(nm, next.exitPeerKey, next.exitRouted, PathsAfter(books.path, next.peers))
    }

    /** A later acceptable netmap keeps the commit history monotone. */
    lemma CommitIsMonotone(nm: Netmap)
      requires Valid() && Acceptable(nm)
      ensures Monotone(commits + [nm])
    {
      var longer := commits + [nm];
      forall i, j | 0 <= i < j < |longer|
        ensures longer[i].version <= longer[j].version
        ensures longer[i].version == longer[j].version && longer[i].version > 0 ==> longer[i] == longer[j]
      {
        if j == |commits| {
          assert longer[i] == commits[i];
          if i < |commits| - 1 { assert commits[i].version <= commits[|commits| - 1].version; }
        } else {
          assert longer[i] == commits[i] && longer[j] == commits[j];
        }
      }
    }

    /** The identity, rollback and equivocation checks. */
    method Screen(nm: Netmap, inp: Inputs) returns (r: Result)
      ensures r.Committed? <==> inp.identityOK && Acceptable(nm)
      ensures r.Failed? ==> r.cause in EARLY
      ensures inp.identityOK ==> (r == Failed(NetmapRollback) <==> nm.version < books.lastNetmap.version)
    {
      if !inp.identityOK {
        return Failed(IdentityMismatch);
      }
      var prior := books.lastNetmap;
      if prior.version > 0 {
        if nm.version < prior.version {
          return Failed(NetmapRollback);
        }
        if nm.version == prior.version && nm != prior {
          return Failed(NetmapEquivocation);
        }
      }
      return Committed;
    }

    /** The commit: the path bookkeeping of every changed peer, then the rest of the books. */
    method Commit(nm: Netmap, next: Candidate, view: seq<string>)
      requires Valid() && Acceptable(nm)
      modifies this`books, this`commits, this`presented
      ensures Valid() && books == old(Committing(nm, next)) && commits == old(commits) + [nm] && presented == view
    {
      CommitIsMonotone(nm);
      var path := books.path;
      for i := 0 to |next.peers|
        invariant path == PathsAfter(books.path, next.peers[..i])
      {
        assert next.peers[..i + 1][..i] == next.peers[..i];
        if next.peers[i].changed {
          path := path.Reset(next.peers[i].key, next.peers[i].endpoints);
        }
      }
      assert next.peers[..|next.peers|] == next.peers;
      books := Books(nm, next.exitPeerKey, next.exitRouted, path);
      commits := commits + [nm];
      presented := view;
    }

    /** Build, compose, transact. */
    method ApplyCandidate(nm: Netmap, inp: Inputs) returns (r: Result, next: Candidate)
      modifies this`guard, this`engine, this`trail
      ensures old(trail) <= trail
      ensures r.Committed? ==> Committing(nm, next) == BooksAfter(inp, preferredExit, nm, books)
      ensures inp.Accepting() && DesiredPolicy(cfg, internetFallback, inp, preferredExit, nm, old(guard)).Some? ==>
                r.Committed?
      ensures r.Failed? ==> r.cause in {ComposeFailed, GuardFailed, EngineFailed, DisarmFailed}
      ensures LeavesInForce(r, Point(old(guard), old(engine)), Point(guard, engine),
                            EngineFor(cfg, internetFallback, inp, preferredExit, nm),
                            DesiredPolicy(cfg, internetFallback, inp, preferredExit, nm, old(guard)), inp.closeOK)
      ensures cfg.killSwitch && !internetFallback && Safe(Point(old(guard), old(engine)))
              && !RoutesUnnamedExit(inp, preferredExit, nm) ==>
                SafeSince(|old(trail)|) && Safe(Point(guard, engine))
      ensures Safe(Point(old(guard), old(engine))) && r.Failed? ==> Safe(Point(guard, engine))
    {
      var config;
      config, next := Prepare(nm, inp);
      var active := ActiveExit(inp, preferredExit, nm);
      var exitPolicy := KillSwitchPolicy(cfg, internetFallback, ExitSelected(active), inp);
      var desired := ComposeRemoteTargetPolicy(exitPolicy, RemoteTargetFor(inp, guard), nm.selfMeshIPs, inp);
      if desired.None? {
        EmergencyClose(inp);
        return Failed(ComposeFailed), next;
      }
      if cfg.killSwitch && !internetFallback && !RoutesUnnamedExit(inp, preferredExit, nm) {
        TargetIsSafe(cfg, inp, preferredExit, nm, guard, desired.value);
      }
      r := Transact(desired.value, config, inp);
    }

    /** applyNetmapLocked. */
    method ApplyNetmapLocked(nm: Netmap, inp: Inputs) returns (r: Result)
      requires Valid()
      modifies this`guard, this`engine, this`trail, this`books, this`commits, this`presented
      ensures Valid() && old(trail) <= trail
      // A failure leaves every book as it was; a commit replaces them.
      ensures r.Failed? ==> books == old(books) && commits == old(commits)
      ensures r.Committed? ==> books == BooksAfter(inp, preferredExit, nm, old(books)) && commits == old(commits) + [nm]
      ensures r.Committed? ==> RendersAll(cfg, inp, preferredExit, Trusted(inp, nm.peers, |nm.peers|), engine.peers)
      ensures r.Committed? ==> FlagsMatch(engine, cfg.killSwitch && !internetFallback, books.exitRouted,
                                          NamedExit(inp, preferredExit, nm), books.exitPeerKey)
      ensures r.Committed? ==> presented == inp.remoteView
      ensures inp.identityOK && old(Acceptable(nm)) && inp.Accepting() ==>
                (DesiredPolicy(cfg, internetFallback, inp, preferredExit, nm, old(guard)).Some? ==> r.Committed?)
      ensures r.Failed? && r.cause in EARLY <==> !inp.identityOK || !old(Acceptable(nm))
      ensures r.Failed? && r.cause in EARLY ==>
                guard == old(guard) && engine == old(engine) && trail == old(trail) && presented == old(presented)
      ensures r.Failed? && r.cause !in EARLY ==> presented == []
      // The firewall and the engine.
      ensures r.Committed? || r.cause !in EARLY ==>
                LeavesInForce(r, Point(old(guard), old(engine)), Point(guard, engine),
                              EngineFor(cfg, internetFallback, inp, preferredExit, nm),
                              DesiredPolicy(cfg, internetFallback, inp, preferredExit, nm, old(guard)), inp.closeOK)
      // No leak at any point, unless the netmap routes an exit without a name.
      ensures cfg.killSwitch && !internetFallback && Safe(Point(old(guard), old(engine)))
              && !RoutesUnnamedExit(inp, preferredExit, nm) ==>
                SafeSince(|old(trail)|) && Safe(Point(guard, engine))
      ensures Safe(Point(old(guard), old(engine))) && r.Failed? ==> Safe(Point(guard, engine))
    {
      r := Screen(nm, inp);
      if r.Failed? {
        return;
      }
      EngineIs(cfg, internetFallback, inp, preferredExit, nm, books);
      r := ApplyAcceptable(nm, inp);
    }

    /** applyNetmapLocked after the version check: revoke what was presented, try the candidate, commit it. */
    method ApplyAcceptable(nm: Netmap, inp: Inputs) returns (r: Result)
      requires Valid() && Acceptable(nm)
      modifies this`guard, this`engine, this`trail, this`books, this`commits, this`presented
      ensures Valid() && old(trail) <= trail
      ensures r.Failed? ==> books == old(books) && commits == old(commits) && presented == []
      ensures r.Committed? ==> books == BooksAfter(inp, preferredExit, nm, old(books)) && commits == old(commits) + [nm]
      ensures r.Committed? ==> presented == inp.remoteView
      ensures inp.Accepting() && DesiredPolicy(cfg, internetFallback, inp, preferredExit, nm, old(guard)).Some? ==>
                r.Committed?
      ensures r.Failed? ==> r.cause in {ComposeFailed, GuardFailed, EngineFailed, DisarmFailed}
      ensures LeavesInForce(r, Point(old(guard), old(engine)), Point(guard, engine),
                            EngineFor(cfg, internetFallback, inp, preferredExit, nm),
                            DesiredPolicy(cfg, internetFallback, inp, preferredExit, nm, old(guard)), inp.closeOK)
      ensures cfg.killSwitch && !internetFallback && Safe(Point(old(guard), old(engine)))
              && !RoutesUnnamedExit(inp, preferredExit, nm) ==>
                SafeSince(|old(trail)|) && Safe(Point(guard, engine))
      ensures Safe(Point(old(guard), old(engine))) && r.Failed? ==> Safe(Point(guard, engine))
    {
      presented := [];
      var next;
      r, next := ApplyCandidate(nm, inp);
      if r.Committed? {
        Commit(nm, next, inp.remoteView);
      }
    }

    /** applyNetmap: the transaction, and what its callers rely on. */
    method ApplyNetmap(nm: Netmap, inp: Inputs) returns (r: Result)
      requires Valid()
      modifies this`guard, this`engine, this`trail, this`books, this`commits, this`presented
      ensures Valid() && old(trail) <= trail
      ensures r.Failed? ==> books == old(books) && commits == old(commits)
      ensures r.Committed? ==> books.lastNetmap == nm && commits == old(commits) + [nm]
      ensures inp.identityOK && inp.Accepting() && old(Acceptable(nm)) ==>
                (DesiredPolicy(cfg, internetFallback, inp, preferredExit, nm, old(guard)).Some? ==> r.Committed?)
      ensures cfg.killSwitch && !internetFallback && NamedExits(nm) && Safe(Point(old(guard), old(engine))) ==>
                SafeSince(|old(trail)|)
      ensures cfg.killSwitch && !internetFallback && NamedExits(nm) && r.Committed? ==> Safe(Point(guard, engine))
      ensures Safe(Point(old(guard), old(engine))) && r.Failed? ==> Safe(Point(guard, engine))
    {
      ghost var before := Point(guard, engine);
      r := ApplyNetmapLocked(nm, inp);
      if NamedExits(nm) {
        NamedNeverUnnamed(inp, preferredExit, nm);
        if r.Committed? && cfg.killSwitch && !internetFallback {
          CommitSafeExactlyWhenNamed(cfg, inp, preferredExit, nm, before, Point(guard, engine), inp.closeOK);
        }
      }
    }

    /** Outside a transaction: with the kill switch on and fallback off there is no leak. */
    ghost predicate Protected()
      reads this
    {
      && NamedExits(books.lastNetmap)
      && (cfg.killSwitch && !internetFallback ==> Safe(Point(guard, engine)))
    }

    /** Every point since the trail had n entries is safe, if the daemon is to be fail-closed. */
    ghost predicate FailsClosedSince(n: nat)
      reads this
    {
      cfg.killSwitch && !internetFallback ==> SafeSince(n)
    }

    /** The committed netmap can be applied again with this selection and this fallback. */
    ghost predicate Applies(selection: string, fallback: bool, inp: Inputs)
      reads this
    {
      && inp.identityOK && inp.Accepting()
      && DesiredPolicy(cfg, fallback, inp, selection, books.lastNetmap, guard).Some?
    }

    /** SetExit: select an online exit of the committed netmap; a failed apply restores the selection. */
    method SetExit(nameOrIP: string, inp: Inputs) returns (ok: bool)
      requires Valid()
      modifies this
      ensures Valid() && (old(Protected()) ==> Protected())
      ensures internetFallback == old(internetFallback) && old(trail) <= trail
      ensures !ok ==> preferredExit == old(preferredExit) && books == old(books) && commits == old(commits)
      ensures ok ==> preferredExit == nameOrIP
      ensures ok ==> OnlineExit(old(books).lastNetmap.peers, nameOrIP)
      ensures OnlineExit(old(books).lastNetmap.peers, nameOrIP) && old(Applies(nameOrIP, internetFallback, inp)) ==> ok
      ensures old(Protected()) ==> FailsClosedSince(|old(trail)|)
    {
      var nm := books.lastNetmap;
      var found: Option<Peer> := None;
      for i := 0 to |nm.peers|
        invariant found.None? && forall k :: 0 <= k < i ==> !AnswersTo(nm.peers[k], nameOrIP)
      {
        if nm.peers[i].role == RoleExit && PeerMatches(nm.peers[i].name, nm.peers[i].meshIPs, nameOrIP) {
          found := Some(nm.peers[i]);
          break;
        }
      }
      if found.None? || !found.value.online {
        return false;
      }
      ok := Reselect(nameOrIP, inp);
    }

    /** ClearExit: back to direct egress; a failed apply restores the selection. */
    method ClearExit(persistOK: bool, inp: Inputs) returns (ok: bool)
      requires Valid()
      modifies this
      ensures Valid() && (old(Protected()) ==> Protected())
      ensures internetFallback == old(internetFallback) && old(trail) <= trail
      ensures !ok ==> preferredExit == old(preferredExit) && books == old(books) && commits == old(commits)
      ensures ok ==> preferredExit == "" && persistOK
      ensures persistOK && old(Applies("", internetFallback, inp)) ==> ok
      ensures old(Protected()) ==> FailsClosedSince(|old(trail)|)
    {
      if !persistOK {
        return false;
      }
      ok := Reselect("", inp);
    }

    /** The common part of SetExit and ClearExit. */
    method Reselect(choice: string, inp: Inputs) returns (ok: bool)
      requires Valid()
      modifies this
      ensures Valid() && books.lastNetmap == old(books).lastNetmap && (old(Protected()) ==> Protected())
      ensures internetFallback == old(internetFallback) && old(trail) <= trail
      ensures !ok ==> preferredExit == old(preferredExit) && books == old(books) && commits == old(commits)
      ensures ok ==> preferredExit == choice
      ensures old(Applies(choice, internetFallback, inp)) ==> ok
      ensures old(Protected()) ==> FailsClosedSince(|old(trail)|)
    {
      var previous := preferredExit;
      preferredExit := choice;
      var r := ApplyNetmap(books.lastNetmap, inp);
      if r.Failed? {
        preferredExit := previous;
      }
      return r.Committed?;
    }

    /** SetInternetFallback: availability over leak protection, or back; a failed apply restores the flag. */
    method SetInternetFallback(enabled: bool, inp: Inputs) returns (ok: bool)
      requires Valid()
      modifies this
      ensures Valid() && (old(Protected()) ==> Protected())
      ensures preferredExit == old(preferredExit) && old(trail) <= trail
      ensures internetFallback == if ok then enabled else old(internetFallback)
      ensures old(Applies(preferredExit, enabled, inp)) ==> ok
    {
      var previous := internetFallback;
      internetFallback := enabled;
      var r := ApplyNetmap(books.lastNetmap, inp);
      if r.Failed? {
        internetFallback := previous;
      }
      return r.Committed?;
    }

    /** reconcileRemoteTargetExpiry: rewrites the remote half only, whatever the guard does. */
    method ReconcileExpiry(target: RemoteTarget, inp: Inputs)
      modifies this`guard, this`trail
      ensures old(trail) <= trail
      ensures SameExitHalf(guard, old(guard))
      ensures Safe(Point(old(guard), engine)) ==> SafeSince(|old(trail)|) && Safe(Point(guard, engine))
      ensures inp.remoteCapable && books.lastNetmap.version > 0 && inp.closeOK && inp.firstOK ==>
                match Compose(old(guard), target, books.lastNetmap.selfMeshIPs, inp)
                case None => guard == old(guard).(remoteAccessRules := [])
                case Some(desired) => guard == desired
    {
      if !inp.remoteCapable || books.lastNetmap.version == 0 {
        return;
      }
      var desired := ComposeRemoteTargetPolicy(guard, target, books.lastNetmap.selfMeshIPs, inp);
      if desired.None? {
        EmergencyClose(inp);
        return;
      }
      if guard != desired.value {
        GuardApply(desired.value, inp.firstOK);
      }
    }

    /** Any run of operations: no leak between transactions, and none inside them while fallback stays off. */
    method Run(ops: seq<Op>)
      requires Valid() && Protected()
      requires forall i :: 0 <= i < |ops| && ops[i].Apply? ==> NamedExits(ops[i].nm)
      modifies this
      ensures Valid() && Protected() && old(trail) <= trail
      ensures cfg.killSwitch && !old(internetFallback) && (forall i :: 0 <= i < |ops| ==> !ops[i].Fallback?) ==>
                SafeSince(|old(trail)|)
    {
      for i := 0 to |ops|
        invariant Valid() && Protected() && old(trail) <= trail
        invariant (forall k :: 0 <= k < i ==> !ops[k].Fallback?) ==> internetFallback == old(internetFallback)
        invariant cfg.killSwitch && !old(internetFallback) && (forall k :: 0 <= k < i ==> !ops[k].Fallback?) ==>
                    SafeSince(|old(trail)|)
      {
        label before:
        ghost var n := |trail|;
        RunOne(ops[i]);
        assert forall k :: |old(trail)| <= k < n ==> trail[k] == old@before(trail)[k];
      }
    }

    method RunOne(op: Op)
      requires Valid() && Protected()
      requires op.Apply? ==> NamedExits(op.nm)
      modifies this
      ensures Valid() && Protected() && old(trail) <= trail
      ensures !op.Fallback? ==> internetFallback == old(internetFallback)
      ensures cfg.killSwitch && !old(internetFallback) && !op.Fallback? ==> SafeSince(|old(trail)|)
    {
      match op {
        case Apply(nm, inp) =>
          var r := ApplyNetmap(nm, inp);
        case Select(name, inp) =>
          var ok := SetExit(name, inp);
        case Clear(persistOK, inp) =>
          var ok := ClearExit(persistOK, inp);
        case Fallback(enabled, inp) =>
          var ok := SetInternetFallback(enabled, inp);
        case Expire(target, inp) =>
          ReconcileExpiry(target, inp);
      }
    }
  }

  datatype Op =
    | Apply(nm: Netmap, inp: Inputs)
    | Select(name: string, inp: Inputs)
    | Clear(persistOK: bool, inp: Inputs)
    | Fallback(enabled: bool, inp: Inputs)
    | Expire(target: RemoteTarget, inp: Inputs)

  ghost predicate AnswersTo(p: Peer, nameOrIP: string) {
    p.role == RoleExit && (p.name == nameOrIP || nameOrIP in p.meshIPs)
  }

  /** The first exit that answers to the name or address is online. */
  ghost predicate OnlineExit(peers: seq<Peer>, nameOrIP: string) {
    exists i :: 0 <= i < |peers| && AnswersTo(peers[i], nameOrIP) && peers[i].online
                && forall k :: 0 <= k < i ==> !AnswersTo(peers[k], nameOrIP)
  }

  /** Every exit of the netmap has a name. */
  ghost predicate NamedExits(nm: Netmap) {
    forall p :: p in nm.peers && p.role == RoleExit ==> p.name != ""
  }

  lemma NamedNeverUnnamed(inp: Inputs, preferred: string, nm: Netmap)
    requires NamedExits(nm)
    ensures !RoutesUnnamedExit(inp, preferred, nm)
  {
    if RoutesExit(inp, preferred, nm) {
      var p :| p in nm.peers && Selects(inp, preferred, p);
      var i :| 0 <= i < |nm.peers| && nm.peers[i] == p;
      assert ActiveExit(inp, preferred, nm).Some?;
    }
  }

  // --------------------------------------------------- where the limits really are

  const UNNAMED_EXIT :=
    Peer(1, "", ["100.64.0.7"], RoleExit, true, [Routes.RawPrefix.Prefix(seq(32, _ => false), 0)], [])

  /** An exit without a name is routed, though the user chose none, while the kill switch leaves the firewall open. */
  method UnnamedExitExample(inp: Inputs) returns (d: Daemon)
    requires inp.identityOK && inp.Accepting() && !inp.remoteCapable
    requires inp.trusted(UNNAMED_EXIT) && inp.exitReady(UNNAMED_EXIT.key)
    ensures d.cfg.killSwitch && !d.internetFallback && d.preferredExit == ""
    ensures d.commits == [Netmap(1, [], [UNNAMED_EXIT])] && !Safe(Point(d.guard, d.engine))
  {
    d := new Daemon(Config(true, false));
    var nm := Netmap(1, [], [UNNAMED_EXIT]);
    assert UNNAMED_EXIT.allowedIPs[0] in UNNAMED_EXIT.allowedIPs && nm.peers[0] in nm.peers;
    assert Selects(inp, "", UNNAMED_EXIT) && RoutesUnnamedExit(inp, "", nm);
    ghost var before := Point(d.guard, d.engine);
    var r := d.ApplyNetmapLocked(nm, inp);
    CommitSafeExactlyWhenNamed(d.cfg, inp, "", nm, before, Point(d.guard, d.engine), inp.closeOK);
  }

  /** Version 0 is outside the equivocation check: two different version-0 maps are committed one after the other. */
  method VersionZeroExample(inp: Inputs) returns (d: Daemon)
    requires inp.identityOK && inp.Accepting() && !inp.remoteCapable
    ensures |d.commits| == 2 && d.commits[0].version == d.commits[1].version && d.commits[0] != d.commits[1]
  {
    d := new Daemon(Config(false, false));
    var first := d.ApplyNetmapLocked(Netmap(0, ["a"], []), inp);
    var second := d.ApplyNetmapLocked(Netmap(0, ["b"], []), inp);
    assert d.commits[0].selfMeshIPs[0] != d.commits[1].selfMeshIPs[0];
  }
}
