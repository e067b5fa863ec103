/**
 Relay/direct path switching with the disco permit protocol
 (internal/daemon/disco_upgrade.go, checkRelayTransitions in internal/daemon/daemon.go).

 `State` is the part of the daemon guarded by its mutex that decides paths; the functions
 say what one locked section does to it. `Daemon` is the code: it updates its fields in
 place, and every method is proved to take the state where the functions say.
 */
module PathSwitch {
  import opened Mesh

  // ---------------------------------------------------------------- data model

  /** Milliseconds; zero is Go's zero time. */
  type Time = int

  const ZERO_TIME: Time := 0

  const MAX_DISCO_PROBES := 4
  const DISCO_PROBE_RETRY := 30_000
  const DISCO_PERMIT_LIFETIME := 10_000
  const CANDIDATE_TRIAL_AFTER := 6_000
  const RELAY_FALLBACK_AFTER := 15_000
  const LIVENESS_WINDOW := 20_000
  const UPGRADE_RETRY := 300_000
  const HANDSHAKE_FRESH := 180_000

  /**
   A peer as the netmap advertises it. `candidates` and `discoCandidates` are the parsed,
   usable physical endpoints (probeCandidateEndpoints, usableDiscoEndpoints); `rawEndpoints`
   counts what was advertised.
   */
  datatype Node = Node(key: Key, name: string, meshIPs: seq<string>, online: bool, selectedExitID: string,
                       rawEndpoints: nat, candidates: seq<string>, discoCandidates: seq<string>)

  /** discoUpgradeFingerprint writes both lists with separators no endpoint contains, so it is the pair. */
  datatype Fingerprint = Fingerprint(candidates: seq<string>, discoCandidates: seq<string>)

  function FingerprintOf(p: Node): Fingerprint { Fingerprint(p.candidates, p.discoCandidates) }

  datatype PeerStat = PeerStat(rx: int, latestHandshake: Time)

  type Stats = map<Key, PeerStat>

  datatype DiscoPeer = DiscoPeer(
    fingerprint: Fingerprint, relayCycle: Time,
    attemptID: nat, probing: bool, permitAt: Time, nextProbe: Time,
    directTrial: bool, baselineRx: int, baselineHandshake: Time, trialFailures: nat)

  function FreshDiscoPeer(fingerprint: Fingerprint, relayCycle: Time): DiscoPeer {
    DiscoPeer(fingerprint, relayCycle, 0, false, ZERO_TIME, ZERO_TIME, false, 0, ZERO_TIME, 0)
  }

  datatype Attempt = Attempt(key: Key, fingerprint: Fingerprint, relayCycle: Time, attemptID: nat)

  /** What the run did, in order; it exists for the proofs only. */
  datatype Event =
    | ProbeSucceeded(attempt: Attempt, at: Time)
    | MovedToDirect(key: Key, fingerprint: Fingerprint, relayCycle: Time, at: Time, gated: bool, permit: nat)
    | MovedToRelay(key: Key, candidates: nat, at: Time)
    | CandidateSelected(key: Key, index: nat)
    | EndpointsChanged(key: Key)

  datatype Config = Config(enableDiscoProbe: bool, forceRelay: bool)

  /** What the last committed netmap and the user's choices say. */
  datatype NetView = NetView(peers: seq<Node>, selfID: string, servingExit: bool, preferredExit: string, bridge: bool)

  /** Per-peer path bookkeeping. */
  datatype PathBook = PathBook(
    relayed: set<Key>, relaySince: map<Key, Time>, directSince: map<Key, Time>,
    lastRx: map<Key, int>, rxProgress: map<Key, Time>,
    candidateIndex: map<Key, nat>, candidateAttempts: map<Key, nat>, epSeen: map<Key, seq<string>>)
  {
    /** When the peer was last switched to the relay; Go's zero time when it never was. */
    function Cycle(key: Key): Time { Get(relaySince, key, ZERO_TIME) }

    /** The peer starts over on the direct path, with the endpoints it advertises now. */
    function Reset(key: Key, candidates: seq<string>): PathBook {
      PathBook(relayed - {key}, relaySince - {key}, directSince - {key}, lastRx - {key}, rxProgress - {key},
               candidateIndex - {key}, candidateAttempts - {key}, epSeen[key := candidates])
    }
  }

  const NO_PATHS := PathBook({}, map[], map[], map[], map[], map[], map[], map[])

  /** Disco probe bookkeeping. */
  datatype ProbeBook = ProbeBook(discoUpgrades: map<Key, DiscoPeer>, discoProbesInFlight: nat,
                                 discoProbeSequence: nat) {
    function Put(key: Key, d: DiscoPeer): ProbeBook { this.(discoUpgrades := discoUpgrades[key := d]) }
  }

  /** What the proofs remember of the run: the probes still out, and what happened. */
  datatype Trace = Trace(outstanding: set<Attempt>, log: seq<Event>) {
    function Note(e: Event): Trace { this.(log := log + [e]) }
  }

  datatype State = State(net: NetView, path: PathBook, probes: ProbeBook, trace: Trace)

  function Get<K, V>(m: map<K, V>, k: K, default: V): V {
    if k in m then m[k] else default
  }

  // ------------------------------------------------------------------ decisions

  predicate HandshakeIsFresh(stat: PeerStat, now: Time, after: Time) {
    && stat.latestHandshake != ZERO_TIME && now - stat.latestHandshake <= HANDSHAKE_FRESH
    && (after == ZERO_TIME || stat.latestHandshake + 1_000 > after)
  }

  function StatOf(stats: Stats, key: Key): PeerStat { Get(stats, key, PeerStat(0, ZERO_TIME)) }

  predicate GateEnabled(cfg: Config, bridge: bool, p: Node) {
    cfg.enableDiscoProbe && !cfg.forceRelay && bridge && p.discoCandidates != []
  }

  predicate ProbeEligible(cfg: Config, net: NetView, p: Node) {
    p.online && GateEnabled(cfg, net.bridge, p) && !net.servingExit
    && !PeerMatches(p.name, p.meshIPs, net.preferredExit)
  }

  predicate PermitUsable(d: DiscoPeer, now: Time) {
    d.permitAt != ZERO_TIME && d.permitAt <= now && now - d.permitAt <= DISCO_PERMIT_LIFETIME
  }

  function TrialBackoff(failures: nat): Time {
    if failures == 1 then 600_000 else if failures == 2 then 1_200_000 else 1_800_000
  }

  /** discoUpgradeStateLocked: the entry for the peer's current fingerprint and relay cycle, fresh if there is none. */
  function EntryFor(disco: map<Key, DiscoPeer>, p: Node, cycle: Time): DiscoPeer {
    if p.key in disco && disco[p.key].fingerprint == FingerprintOf(p) && disco[p.key].relayCycle == cycle
    then disco[p.key] else FreshDiscoPeer(FingerprintOf(p), cycle)
  }

  // ------------------------------------------------------- checkRelayTransitions

  /** matchingDiscoDirectTrialLocked: a trial for other endpoints is dropped. */
  function DropStaleTrial(b: ProbeBook, p: Node): ProbeBook {
    if OnTrial(b, p) && b.discoUpgrades[p.key].fingerprint != FingerprintOf(p)
    then b.(discoUpgrades := b.discoUpgrades - {p.key}) else b
  }

  predicate OnTrial(b: ProbeBook, p: Node) { p.key in b.discoUpgrades && b.discoUpgrades[p.key].directTrial }

  function ProvenTrial(d: DiscoPeer): DiscoPeer {
    d.(directTrial := false, trialFailures := 0, nextProbe := ZERO_TIME)
  }

  function FailedTrial(d: DiscoPeer, now: Time): DiscoPeer {
    d.(directTrial := false, trialFailures := d.trialFailures + 1, relayCycle := now,
       permitAt := ZERO_TIME, nextProbe := now + TrialBackoff(d.trialFailures + 1))
  }

  /** markDiscoDirectTrialFailedLocked. */
  function MarkFailed(b: ProbeBook, p: Node, now: Time): ProbeBook {
    var b1 := DropStaleTrial(b, p);
    if OnTrial(b1, p) then b1.Put(p.key, FailedTrial(b1.discoUpgrades[p.key], now)) else b1
  }

  /** Received-byte liveness of one peer. */
  function NoteTraffic(path: PathBook, key: Key, rx: int, now: Time): PathBook {
    path.(rxProgress := if rx > Get(path.lastRx, key, 0) then path.rxProgress[key := now] else path.rxProgress,
          lastRx := path.lastRx[key := rx])
  }

  predicate DirectHealthy(s: State, p: Node, stat: PeerStat, since: Time, now: Time) {
    var prog := Get(s.path.rxProgress, p.key, ZERO_TIME);
    if OnTrial(s.probes, p) then
      var trial := s.probes.discoUpgrades[p.key];
      stat.rx > trial.baselineRx || stat.latestHandshake > trial.baselineHandshake
    else HandshakeIsFresh(stat, now, since) || (prog != ZERO_TIME && prog > since && now - prog < LIVENESS_WINDOW)
  }

  predicate CandidateAvailable(s: State, p: Node) {
    !s.net.bridge || Get(s.path.candidateAttempts, p.key, 0) < |p.candidates| - 1
  }

  function NextIndex(path: PathBook, p: Node): nat
    requires p.candidates != []
  {
    (Get(path.candidateIndex, p.key, 0) + 1) % |p.candidates|
  }

  function Rotate(s: State, p: Node, now: Time): State
    requires p.candidates != []
  {
    var index, attempts := NextIndex(s.path, p), Get(s.path.candidateAttempts, p.key, 0);
    s.(path := s.path.(candidateIndex := s.path.candidateIndex[p.key := index],
                       candidateAttempts := s.path.candidateAttempts[p.key := attempts + 1],
                       directSince := s.path.directSince[p.key := now],
                       rxProgress := s.path.rxProgress[p.key := ZERO_TIME]),
       trace := s.trace.Note(CandidateSelected(p.key, index)))
  }

  function FallBack(s: State, p: Node, now: Time): State {
    s.(path := s.path.(relayed := s.path.relayed + {p.key},
                       relaySince := s.path.relaySince[p.key := now],
                       rxProgress := s.path.rxProgress[p.key := ZERO_TIME]),
       probes := MarkFailed(s.probes, p, now),
       trace := s.trace.Note(MovedToRelay(p.key, |p.candidates|, now)))
  }

  /** The trial verdict: a trial with new evidence is over, one for other endpoints is dropped. */
  function JudgeTrial(s: State, p: Node, healthy: bool): ProbeBook {
    var b := DropStaleTrial(s.probes, p);
    if OnTrial(b, p) && healthy then b.Put(p.key, ProvenTrial(b.discoUpgrades[p.key])) else b
  }

  function CheckDirect(s: State, p: Node, stat: PeerStat, now: Time): State {
    if p.key !in s.path.directSince then s.(path := s.path.(directSince := s.path.directSince[p.key := now]))
    else
      var since := s.path.directSince[p.key];
      var healthy := DirectHealthy(s.(probes := DropStaleTrial(s.probes, p)), p, stat, since, now);
      var s1 := s.(probes := JudgeTrial(s, p, healthy));
      if !healthy && |p.candidates| > 1 && now - since > CANDIDATE_TRIAL_AFTER && CandidateAvailable(s, p)
      then Rotate(s1, p, now)
      else if s.net.bridge && !healthy && now - since > RELAY_FALLBACK_AFTER then FallBack(s1, p, now)
      else s1
  }

  function MoveToDirect(s: State, p: Node, now: Time, gated: bool, permit: nat): State {
    s.(path := s.path.(relayed := s.path.relayed - {p.key},
                       directSince := s.path.directSince[p.key := now],
                       rxProgress := s.path.rxProgress[p.key := ZERO_TIME]),
       trace := s.trace.Note(MovedToDirect(p.key, FingerprintOf(p), s.path.Cycle(p.key), now, gated, permit)))
  }

  /** consumeDiscoUpgradePermitLocked: uses the permit up, whether or not it was still good. */
  function Consume(b: ProbeBook, p: Node, cycle: Time, stat: PeerStat, now: Time): ProbeBook {
    var d := EntryFor(b.discoUpgrades, p, cycle);
    b.Put(p.key,
          if PermitUsable(d, now)
          then d.(permitAt := ZERO_TIME, directTrial := true, baselineRx := stat.rx,
                  baselineHandshake := stat.latestHandshake)
          else d.(permitAt := ZERO_TIME))
  }

  predicate RelayHealthy(path: PathBook, key: Key, stat: PeerStat, now: Time) {
    var since := path.Cycle(key);
    var prog := Get(path.rxProgress, key, ZERO_TIME);
    HandshakeIsFresh(stat, now, since)
    || (prog != ZERO_TIME && (since == ZERO_TIME || prog > since) && now - prog < LIVENESS_WINDOW)
  }

  predicate UpgradeDue(s: State, p: Node, stat: PeerStat, now: Time) {
    && RelayHealthy(s.path, p.key, stat, now) && !s.net.servingExit
    && !PeerMatches(p.name, p.meshIPs, s.net.preferredExit)
    && p.key in s.path.relaySince && now - s.path.relaySince[p.key] > UPGRADE_RETRY
  }

  function CheckRelayed(cfg: Config, s: State, p: Node, stats: Stats, now: Time): State {
    var stat := StatOf(stats, p.key);
    if !UpgradeDue(s, p, stat, now) then s
    else if !GateEnabled(cfg, s.net.bridge, p) then MoveToDirect(s, p, now, false, 0)
    else if p.key !in stats then s
    else
      var d := EntryFor(s.probes.discoUpgrades, p, s.path.Cycle(p.key));
      var s1 := s.(probes := Consume(s.probes, p, s.path.Cycle(p.key), stat, now));
      if PermitUsable(d, now) then MoveToDirect(s1, p, now, true, d.attemptID) else s1
  }

  /** One round of the loop over the netmap's peers. */
  function CheckPeer(cfg: Config, s: State, p: Node, stats: Stats, now: Time): State {
    var stat := StatOf(stats, p.key);
    var s1 := s.(path := NoteTraffic(s.path, p.key, stat.rx, now));
    if p.online && (cfg.forceRelay || p.rawEndpoints == 0) then s1
    else if !p.online || (s.net.servingExit && !(s.net.selfID != "" && p.selectedExitID == s.net.selfID))
    then s1.(path := s1.path.(directSince := s1.path.directSince[p.key := now]))
    else if p.key !in s.path.relayed then CheckDirect(s1, p, stat, now)
    else CheckRelayed(cfg, s1, p, stats, now)
  }

  /** The first n peers, in netmap order. */
  function CheckFirst(cfg: Config, s: State, peers: seq<Node>, n: nat, stats: Stats, now: Time): State
    requires n <= |peers|
  {
    if n == 0 then s else CheckPeer(cfg, CheckFirst(cfg, s, peers, n - 1, stats, now), peers[n - 1], stats, now)
  }

  // ---------------------------------------------------------------- disco probes

  predicate ProbeDue(cfg: Config, s: State, p: Node, stats: Stats, now: Time) {
    && s.probes.discoProbesInFlight < MAX_DISCO_PROBES
    && p.key in s.path.relayed && ProbeEligible(cfg, s.net, p)
    && p.key in s.path.relaySince && now - s.path.relaySince[p.key] > UPGRADE_RETRY
    && var prog := Get(s.path.rxProgress, p.key, ZERO_TIME);
       (HandshakeIsFresh(StatOf(stats, p.key), now, s.path.relaySince[p.key])
        || (prog != ZERO_TIME && prog > s.path.relaySince[p.key] && now - prog < LIVENESS_WINDOW))
  }

  predicate MayStart(d: DiscoPeer, now: Time) {
    && !d.probing
    && !(d.permitAt != ZERO_TIME && now - d.permitAt <= DISCO_PERMIT_LIFETIME)
    && d.nextProbe <= now
  }

  /** One round of startDueDiscoUpgradeProbes. */
  function StartPeer(cfg: Config, s: State, p: Node, stats: Stats, now: Time): State {
    if !ProbeDue(cfg, s, p, stats, now) then s
    else
      var d := EntryFor(s.probes.discoUpgrades, p, s.path.Cycle(p.key));
      if !MayStart(d, now) then s.(probes := s.probes.Put(p.key, d))
      else
        var id := s.probes.discoProbeSequence + 1;
        var d' := d.(permitAt := ZERO_TIME, attemptID := id, probing := true, nextProbe := now + DISCO_PROBE_RETRY);
        s.(probes := ProbeBook(s.probes.discoUpgrades[p.key := d'], s.probes.discoProbesInFlight + 1, id),
           trace := s.trace.(outstanding := s.trace.outstanding + {Attempt(p.key, d.fingerprint, d.relayCycle, id)}))
  }

  function StartFirst(cfg: Config, s: State, peers: seq<Node>, n: nat, stats: Stats, now: Time): State
    requires n <= |peers|
  {
    if n == 0 then s else StartPeer(cfg, StartFirst(cfg, s, peers, n - 1, stats, now), peers[n - 1], stats, now)
  }

  function KeysOf(peers: seq<Node>): set<Key> { set p | p in peers :: p.key }

  /** Entries of peers that left the netmap go, unless a probe is still out. */
  function Prune(b: ProbeBook, present: set<Key>): ProbeBook {
    var entries := b.discoUpgrades;
    b.(discoUpgrades := map k | k in entries && (k in present || entries[k].probing) :: entries[k])
  }

  function StartDue(cfg: Config, s: State, stats: Stats, now: Time): State {
    if !cfg.enableDiscoProbe || cfg.forceRelay || !s.net.bridge then s
    else
      var s1 := StartFirst(cfg, s, s.net.peers, |s.net.peers|, stats, now);
      s1.(probes := Prune(s1.probes, KeysOf(s.net.peers)))
  }

  /** The peer a completed probe belongs to: the first with its key. */
  function FindPeer(peers: seq<Node>, key: Key): (r: seq<Node>)
    ensures |r| <= 1
    ensures r != [] ==> r[0] in peers && r[0].key == key
    ensures r == [] ==> forall p :: p in peers ==> p.key != key
  {
    if peers == [] then [] else if peers[0].key == key then [peers[0]] else FindPeer(peers[1..], key)
  }

  /** The result still concerns the peer as it is now. */
  predicate StillCurrent(cfg: Config, net: NetView, path: PathBook, a: Attempt) {
    var found := FindPeer(net.peers, a.key);
    && found != [] && a.key in path.relayed
    && ProbeEligible(cfg, net, found[0])
    && FingerprintOf(found[0]) == a.fingerprint
    && path.Cycle(a.key) == a.relayCycle
  }

  /** The entry still waits for this very attempt. */
  predicate Answers(b: ProbeBook, a: Attempt) {
    && a.key in b.discoUpgrades && b.discoUpgrades[a.key].attemptID == a.attemptID
    && b.discoUpgrades[a.key].fingerprint == a.fingerprint && b.discoUpgrades[a.key].relayCycle == a.relayCycle
  }

  function Settled(d: DiscoPeer, current: bool, success: bool, now: Time): DiscoPeer {
    if !current then d.(probing := false, permitAt := ZERO_TIME)
    else d.(probing := false, nextProbe := now + DISCO_PROBE_RETRY, permitAt := if success then now else ZERO_TIME)
  }

  /** finishDiscoUpgradeProbe. */
  function Finish(cfg: Config, s: State, a: Attempt, success: bool, now: Time): State {
    var out := s.probes.discoProbesInFlight;
    var b := s.probes.(discoProbesInFlight := if out > 0 then out - 1 else 0);
    s.(probes := if Answers(b, a)
                 then b.Put(a.key, Settled(b.discoUpgrades[a.key], StillCurrent(cfg, s.net, s.path, a), success, now))
                 else b,
       trace := Trace(s.trace.outstanding - {a},
                      if success then s.trace.log + [ProbeSucceeded(a, now)] else s.trace.log))
  }

  // -------------------------------------------------------------- netmap commit

  /** A programmed peer whose advertised endpoints changed starts over on the direct path. */
  function ResetPeer(s: State, key: Key, candidates: seq<string>): State {
    s.(path := s.path.Reset(key, candidates), trace := s.trace.Note(EndpointsChanged(key)))
  }

  /** The candidates commit in order; whether one changed was decided before the commit, against seen. */
  function CommitFirst(s: State, seen: map<Key, seq<string>>, peers: seq<Node>, programmed: set<Key>, n: nat): State
    requires n <= |peers|
  {
    if n == 0 then s
    else
      var s1 := CommitFirst(s, seen, peers, programmed, n - 1);
      var p := peers[n - 1];
      if p.key in programmed && Get(seen, p.key, []) != p.candidates then ResetPeer(s1, p.key, p.candidates) else s1
  }

  /** The commit of applyNetmapLocked, as far as paths are concerned. */
  function Commit(s: State, peers: seq<Node>, programmed: set<Key>, selfID: string, servingExit: bool): State {
    var s1 := CommitFirst(s, s.path.epSeen, peers, programmed, |peers|);
    s1.(net := s1.net.(peers := peers, selfID := selfID, servingExit := servingExit))
  }

  function InitialState(): State {
    State(NetView([], "", false, "", false), NO_PATHS, ProbeBook(map[], 0, 0), Trace({}, []))
  }

  // --------------------------------------------------------------------- the code

  class Daemon {
    const cfg: Config
    var net: NetView
    var path: PathBook
    var probes: ProbeBook
    ghost var trace: Trace

    ghost function Snapshot(): State
      reads this
    {
      State(net, path, probes, trace)
    }

    constructor (cfg: Config)
      ensures this.cfg == cfg && Snapshot() == InitialState()
    {
      this.cfg := cfg;
      net := NetView([], "", false, "", false);
      path := NO_PATHS;
      probes := ProbeBook(map[], 0, 0);
      trace := Trace({}, []);
    }

    /** discoUpgradeStateLocked. */
    method DiscoUpgradeState(p: Node) returns (d: DiscoPeer)
      modifies this`probes
      ensures d == EntryFor(old(probes).discoUpgrades, p, path.Cycle(p.key))
      ensures probes == old(probes).Put(p.key, d)
    {
      var fingerprint, cycle := FingerprintOf(p), path.Cycle(p.key);
      var entries := probes.discoUpgrades;
      if p.key !in entries || entries[p.key].fingerprint != fingerprint || entries[p.key].relayCycle != cycle {
        probes := probes.Put(p.key, FreshDiscoPeer(fingerprint, cycle));
      }
      d := probes.discoUpgrades[p.key];
    }

    /** matchingDiscoDirectTrialLocked. */
    method MatchingDirectTrial(p: Node) returns (matching: bool)
      modifies this`probes
      ensures probes == DropStaleTrial(old(probes), p)
      ensures matching == OnTrial(probes, p)
    {
      if p.key !in probes.discoUpgrades || !probes.discoUpgrades[p.key].directTrial {
        return false;
      }
      if probes.discoUpgrades[p.key].fingerprint != FingerprintOf(p) {
        probes := probes.(discoUpgrades := probes.discoUpgrades - {p.key});
        return false;
      }
      return true;
    }

    /** markDiscoDirectTrialFailedLocked. */
    method MarkDirectTrialFailed(p: Node, now: Time)
      modifies this`probes
      ensures probes == MarkFailed(old(probes), p, now)
    {
      var matching := MatchingDirectTrial(p);
      if !matching {
        return;
      }
      var d := probes.discoUpgrades[p.key];
      d := d.(directTrial := false);
      d := d.(trialFailures := d.trialFailures + 1);
      d := d.(relayCycle := now);
      d := d.(permitAt := ZERO_TIME);
      d := d.(nextProbe := now + TrialBackoff(d.trialFailures));
      probes := probes.Put(p.key, d);
    }

    /** consumeDiscoUpgradePermitLocked. */
    method ConsumePermit(p: Node, stat: PeerStat, now: Time) returns (ok: bool, ghost permit: nat)
      modifies this`probes
      ensures probes == Consume(old(probes), p, path.Cycle(p.key), stat, now)
      ensures ok == PermitUsable(EntryFor(old(probes).discoUpgrades, p, path.Cycle(p.key)), now)
      ensures permit == EntryFor(old(probes).discoUpgrades, p, path.Cycle(p.key)).attemptID
    {
      var d := DiscoUpgradeState(p);
      permit := d.attemptID;
      if d.permitAt == ZERO_TIME || now < d.permitAt || now - d.permitAt > DISCO_PERMIT_LIFETIME {
        probes := probes.Put(p.key, d.(permitAt := ZERO_TIME));
        return false, permit;
      }
      d := d.(permitAt := ZERO_TIME);
      d := d.(directTrial := true);
      d := d.(baselineRx := stat.rx);
      d := d.(baselineHandshake := stat.latestHandshake);
      probes := probes.Put(p.key, d);
      return true, permit;
    }

    /** The trial verdict of the direct branch: the health that counts, and the trial's own fate. */
    method JudgeDirectPath(p: Node, stat: PeerStat, since: Time, now: Time) returns (healthy: bool)
      modifies this`probes
      ensures healthy == DirectHealthy(State(net, path, DropStaleTrial(old(probes), p), trace), p, stat, since, now)
      ensures probes == JudgeTrial(old(Snapshot()), p, healthy)
    {
      var prog := Get(path.rxProgress, p.key, ZERO_TIME);
      healthy := HandshakeIsFresh(stat, now, since)
        || (prog != ZERO_TIME && prog > since && now - prog < LIVENESS_WINDOW);
      var onTrial := MatchingDirectTrial(p);
      if onTrial {
        var trial := probes.discoUpgrades[p.key];
        healthy := stat.rx > trial.baselineRx || stat.latestHandshake > trial.baselineHandshake;
        if healthy {
          probes := probes.Put(p.key, trial.(directTrial := false, trialFailures := 0, nextProbe := ZERO_TIME));
        }
      }
    }

    /** The direct branch of checkRelayTransitions. */
    method CheckDirectPath(p: Node, stat: PeerStat, now: Time)
      modifies this
      ensures Snapshot() == CheckDirect(old(Snapshot()), p, stat, now)
    {
      if p.key !in path.directSince {
        path := path.(directSince := path.directSince[p.key := now]);
        return;
      }
      var since := path.directSince[p.key];
      var healthy := JudgeDirectPath(p, stat, since, now);
      var candidateAvailable := !net.bridge || Get(path.candidateAttempts, p.key, 0) < |p.candidates| - 1;
      if !healthy && |p.candidates| > 1 && now - since > CANDIDATE_TRIAL_AFTER && candidateAvailable {
        RotateCandidate(p, now);
      } else if net.bridge && !healthy && now - since > RELAY_FALLBACK_AFTER {
        FallBackToRelay(p, now);
      }
    }

    method RotateCandidate(p: Node, now: Time)
      requires p.candidates != []
      modifies this
      ensures Snapshot() == Rotate(old(Snapshot()), p, now)
    {
      var index := (Get(path.candidateIndex, p.key, 0) + 1) % |p.candidates|;
      path := path.(candidateIndex := path.candidateIndex[p.key := index]);
      path := path.(candidateAttempts := path.candidateAttempts[p.key := Get(path.candidateAttempts, p.key, 0) + 1]);
      path := path.(directSince := path.directSince[p.key := now]);
      path := path.(rxProgress := path.rxProgress[p.key := ZERO_TIME]);
      trace := trace.Note(CandidateSelected(p.key, index));
    }

    method FallBackToRelay(p: Node, now: Time)
      modifies this
      ensures Snapshot() == FallBack(old(Snapshot()), p, now)
    {
      path := path.(relayed := path.relayed + {p.key});
      path := path.(relaySince := path.relaySince[p.key := now]);
      MarkDirectTrialFailed(p, now);
      path := path.(rxProgress := path.rxProgress[p.key := ZERO_TIME]);
      trace := trace.Note(MovedToRelay(p.key, |p.candidates|, now));
    }

    /** The relay branch of checkRelayTransitions. */
    method CheckRelayPath(p: Node, stats: Stats, now: Time)
      modifies this
      ensures Snapshot() == CheckRelayed(cfg, old(Snapshot()), p, stats, now)
    {
      var stat := StatOf(stats, p.key);
      var since := path.Cycle(p.key);
      var prog := Get(path.rxProgress, p.key, ZERO_TIME);
      var healthy := HandshakeIsFresh(stat, now, since)
        || (prog != ZERO_TIME && (since == ZERO_TIME || prog > since) && now - prog < LIVENESS_WINDOW);
      if !healthy || net.servingExit || PeerMatches(p.name, p.meshIPs, net.preferredExit) {
        return;
      }
      if p.key in path.relaySince && now - path.relaySince[p.key] > UPGRADE_RETRY {
        var gated := GateEnabled(cfg, net.bridge, p);
        ghost var permit := 0;
        if gated {
          if p.key !in stats {
            return;
          }
          var ok;
          ok, permit := ConsumePermit(p, stat, now);
          if !ok {
            return;
          }
        }
        UpgradeToDirect(p, now, gated, permit);
      }
    }

    method UpgradeToDirect(p: Node, now: Time, gated: bool, ghost permit: nat)
      modifies this`path, this`trace
      ensures Snapshot() == MoveToDirect(old(Snapshot()), p, now, gated, permit)
    {
      path := path.(relayed := path.relayed - {p.key});
      path := path.(directSince := path.directSince[p.key := now]);
      path := path.(rxProgress := path.rxProgress[p.key := ZERO_TIME]);
      trace := trace.Note(MovedToDirect(p.key, FingerprintOf(p), path.Cycle(p.key), now, gated, permit));
    }

    method CheckOnePeer(p: Node, stats: Stats, now: Time)
      modifies this
      ensures Snapshot() == CheckPeer(cfg, old(Snapshot()), p, stats, now)
    {
      var stat := StatOf(stats, p.key);
      if stat.rx > Get(path.lastRx, p.key, 0) {
        path := path.(rxProgress := path.rxProgress[p.key := now]);
      }
      path := path.(lastRx := path.lastRx[p.key := stat.rx]);
      if !p.online {
        path := path.(directSince := path.directSince[p.key := now]);
        return;
      }
      if cfg.forceRelay || p.rawEndpoints == 0 {
        return;
      }
      if net.servingExit && !(net.selfID != "" && p.selectedExitID == net.selfID) {
        path := path.(directSince := path.directSince[p.key := now]);
        return;
      }
      if p.key !in path.relayed {
        CheckDirectPath(p, stat, now);
      } else {
        CheckRelayPath(p, stats, now);
      }
    }

    /** checkRelayTransitions. */
    method CheckRelayTransitions(stats: Stats, now: Time)
      modifies this
      ensures Snapshot() == CheckFirst(cfg, old(Snapshot()), old(net).peers, |old(net).peers|, stats, now)
    {
      var all := net.peers;
      for i := 0 to |all|
        invariant Snapshot() == CheckFirst(cfg, old(Snapshot()), all, i, stats, now)
      {
        CheckOnePeer(all[i], stats, now);
      }
    }

    method StartOneProbe(p: Node, stats: Stats, now: Time) returns (started: seq<Attempt>)
      modifies this
      ensures Snapshot() == StartPeer(cfg, old(Snapshot()), p, stats, now)
      ensures trace.outstanding == old(trace).outstanding + (set a | a in started)
    {
      started := [];
      var due := DueForProbe(p, stats, now);
      if !due {
        return;
      }
      var d := DiscoUpgradeState(p);
      if d.probing || (d.permitAt != ZERO_TIME && now - d.permitAt <= DISCO_PERMIT_LIFETIME) || now < d.nextProbe {
        return;
      }
      d := d.(permitAt := ZERO_TIME);
      probes := probes.(discoProbeSequence := probes.discoProbeSequence + 1);
      d := d.(attemptID := probes.discoProbeSequence);
      d := d.(probing := true);
      d := d.(nextProbe := now + DISCO_PROBE_RETRY);
      probes := probes.Put(p.key, d);
      probes := probes.(discoProbesInFlight := probes.discoProbesInFlight + 1);
      var attempt := Attempt(p.key, d.fingerprint, d.relayCycle, d.attemptID);
      started := [attempt];
      trace := trace.(outstanding := trace.outstanding + {attempt});
    }

    /** The guards of startDueDiscoUpgradeProbes on one peer. */
    method DueForProbe(p: Node, stats: Stats, now: Time) returns (due: bool)
      ensures due == ProbeDue(cfg, Snapshot(), p, stats, now)
    {
      if probes.discoProbesInFlight >= MAX_DISCO_PROBES {
        return false;
      }
      if p.key !in path.relayed || !ProbeEligible(cfg, net, p) {
        return false;
      }
      if p.key !in path.relaySince || now - path.relaySince[p.key] <= UPGRADE_RETRY {
        return false;
      }
      var since := path.relaySince[p.key];
      var progress := Get(path.rxProgress, p.key, ZERO_TIME);
      return HandshakeIsFresh(StatOf(stats, p.key), now, since)
          || (progress != ZERO_TIME && progress > since && now - progress < LIVENESS_WINDOW);
    }

    /** startDueDiscoUpgradeProbes: the locked section; each returned attempt is then probed in the background. */
    method StartDueProbes(stats: Stats, now: Time) returns (attempts: seq<Attempt>)
      modifies this
      ensures Snapshot() == StartDue(cfg, old(Snapshot()), stats, now)
      ensures trace.outstanding == old(trace).outstanding + (set a | a in attempts)
    {
      attempts := [];
      if !cfg.enableDiscoProbe || cfg.forceRelay || !net.bridge {
        return;
      }
      var all := net.peers;
      var present: set<Key> := {};
      for i := 0 to |all|
        invariant Snapshot() == StartFirst(cfg, old(Snapshot()), all, i, stats, now)
        invariant trace.outstanding == old(trace).outstanding + (set a | a in attempts)
        invariant present == KeysOf(all[..i])
      {
        present := present + {all[i].key};
        assert all[..i + 1] == all[..i] + [all[i]];
        var started := StartOneProbe(all[i], stats, now);
        attempts := attempts + started;
      }
      assert all[..|all|] == all;
      PruneAbsent(present);
    }

    method PruneAbsent(present: set<Key>)
      modifies this`probes
      ensures probes == Prune(old(probes), present)
    {
      var entries := probes.discoUpgrades;
      var todo := entries.Keys;
      while todo != {}
        invariant todo <= entries.Keys <= old(probes).discoUpgrades.Keys
        invariant forall k :: k in entries ==> entries[k] == old(probes).discoUpgrades[k]
        invariant forall k :: k in old(probes).discoUpgrades && k !in todo ==>
                    (k in entries <==> k in present || old(probes).discoUpgrades[k].probing)
        decreases |todo|
      {
        var k :| k in todo;
        todo := todo - {k};
        if k !in present && !entries[k].probing {
          entries := entries - {k};
        }
      }
      probes := probes.(discoUpgrades := entries);
    }

    /** finishDiscoUpgradeProbe: the completion of one background attempt. */
    method FinishProbe(attempt: Attempt, success: bool, now: Time)
      modifies this
      ensures Snapshot() == Finish(cfg, old(Snapshot()), attempt, success, now)
    {
      trace := Trace(trace.outstanding - {attempt},
                     if success then trace.log + [ProbeSucceeded(attempt, now)] else trace.log);
      if probes.discoProbesInFlight > 0 {
        probes := probes.(discoProbesInFlight := probes.discoProbesInFlight - 1);
      }
      if attempt.key !in probes.discoUpgrades {
        return;
      }
      var d := probes.discoUpgrades[attempt.key];
      if d.attemptID != attempt.attemptID || d.fingerprint != attempt.fingerprint
         || d.relayCycle != attempt.relayCycle {
        return;
      }
      d := d.(probing := false);
      var peer := FindPeer(net.peers, attempt.key);
      if peer == [] || attempt.key !in path.relayed
         || !ProbeEligible(cfg, net, peer[0])
         || FingerprintOf(peer[0]) != attempt.fingerprint
         || path.Cycle(attempt.key) != attempt.relayCycle {
        probes := probes.Put(attempt.key, d.(permitAt := ZERO_TIME));
        return;
      }
      d := d.(nextProbe := now + DISCO_PROBE_RETRY);
      d := d.(permitAt := if success then now else ZERO_TIME);
      probes := probes.Put(attempt.key, d);
    }

    /** The path bookkeeping committed by applyNetmapLocked. */
    method CommitNetmap(newPeers: seq<Node>, programmed: set<Key>, newSelfID: string, newServingExit: bool)
      modifies this
      ensures Snapshot() == Commit(old(Snapshot()), newPeers, programmed, newSelfID, newServingExit)
    {
      var seen := path.epSeen;
      for i := 0 to |newPeers|
        invariant Snapshot() == CommitFirst(old(Snapshot()), seen, newPeers, programmed, i)
      {
        var p := newPeers[i];
        if p.key in programmed && Get(seen, p.key, []) != p.candidates {
          ForgetPath(p.key, p.candidates);
        }
      }
      net := net.(peers := newPeers, selfID := newSelfID, servingExit := newServingExit);
    }

    method ForgetPath(key: Key, candidates: seq<string>)
      modifies this
      ensures Snapshot() == ResetPeer(old(Snapshot()), key, candidates)
    {
      path := path.(epSeen := path.epSeen[key := candidates]);
      path := path.(relayed := path.relayed - {key});
      path := path.(directSince := path.directSince - {key});
      path := path.(relaySince := path.relaySince - {key});
      path := path.(lastRx := path.lastRx - {key});
      path := path.(rxProgress := path.rxProgress - {key});
      path := path.(candidateIndex := path.candidateIndex - {key});
      path := path.(candidateAttempts := path.candidateAttempts - {key});
      trace := trace.Note(EndpointsChanged(key));
    }

    /** The relay bridge comes up or goes down. */
    method SetBridge(up: bool)
      modifies this`net
      ensures Snapshot() == old(Snapshot()).(net := old(net).(bridge := up))
    {
      net := net.(bridge := up);
    }

    /** The user selects an exit, or none. */
    method SetPreferredExit(nameOrIP: string)
      modifies this`net
      ensures Snapshot() == old(Snapshot()).(net := old(net).(preferredExit := nameOrIP))
    {
      net := net.(preferredExit := nameOrIP);
    }
  }
}
